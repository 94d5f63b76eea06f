/** The spanning tree as a node sees it: a map from known keys to their announced
    parent and port, the walks towards the root, and the coordinates they yield. */
module Tree {
  import opened Basics

  datatype Info = Info(parent: Key, seqno: U64, nonce: U64, port: Port, psig: Sig, sig: Sig)

  type Infos = map<Key, Info>

  // ---------------------------------------------------------------------------
  // Reference definitions: what an ancestry is, independent of how it is walked
  // ---------------------------------------------------------------------------

  /** `c` lists a node and its ancestors up to a node that names itself as parent. */
  ghost predicate RootChain(infos: Infos, c: seq<Key>)
  {
    && c != []
    && c[0] in infos
    && if infos[c[0]].parent == c[0] then |c| == 1
       else |c| > 1 && c[1] == infos[c[0]].parent && RootChain(infos, c[1..])
  }

  ghost predicate ChainFrom(infos: Infos, k: Key, c: seq<Key>) {
    RootChain(infos, c) && c[0] == k
  }

  ghost predicate Rooted(infos: Infos, k: Key) {
    exists c :: ChainFrom(infos, k, c)
  }

  ghost function ChainOf(infos: Infos, k: Key): (c: seq<Key>)
    requires Rooted(infos, k)
    ensures ChainFrom(infos, k, c)
  {
    var c :| ChainFrom(infos, k, c);
    c
  }

  ghost function RootOf(infos: Infos, k: Key): Key
    requires Rooted(infos, k)
  {
    Last(ChainOf(infos, k))
  }

  /** Ports from the root down to the first node of the chain. */
  ghost function Coords(infos: Infos, c: seq<Key>): (path: seq<Port>)
    requires RootChain(infos, c)
    ensures |path| == |c| - 1
  {
    if |c| == 1 then [] else Coords(infos, c[1..]) + [infos[c[0]].port]
  }

  ghost function CoordsOf(infos: Infos, k: Key): seq<Port>
    requires Rooted(infos, k)
  {
    Coords(infos, ChainOf(infos, k))
  }

  /** There is at most one ancestry. */
  lemma {:induction false} ChainUnique(infos: Infos, c: seq<Key>, d: seq<Key>)
    requires RootChain(infos, c) && RootChain(infos, d) && c[0] == d[0]
    ensures c == d
  {
    if |c| <= 1 {
    } else {
      ChainUnique(infos, c[1..], d[1..]);
      assert c == [c[0]] + c[1..] && d == [d[0]] + d[1..];
    }
  }

  lemma {:induction false} ChainSuffix(infos: Infos, c: seq<Key>, i: nat)
    requires RootChain(infos, c) && i < |c|
    ensures RootChain(infos, c[i..])
    ensures Last(c[i..]) == Last(c)
    ensures c[i] in infos
    ensures i + 1 < |c| ==> infos[c[i]].parent == c[i + 1] != c[i]
    ensures i + 1 == |c| ==> infos[c[i]].parent == c[i]
  {
    if i > 0 {
      ChainSuffix(infos, c[1..], i - 1);
      assert c[1..][i - 1..] == c[i..];
    } else {
      assert c[0..] == c;
    }
  }

  /** An ancestry that reaches a root never repeats a node: it is acyclic. */
  lemma ChainNoDup(infos: Infos, c: seq<Key>)
    requires RootChain(infos, c)
    ensures NoDup(c)
    ensures forall k :: k in c ==> k in infos
  {
    forall i, j | 0 <= i < j < |c|
      ensures c[i] != c[j]
    {
      ChainSuffix(infos, c, i);
      ChainSuffix(infos, c, j);
      if c[i] == c[j] {
        ChainUnique(infos, c[i..], c[j..]);
      }
    }
    forall k | k in c
      ensures k in infos
    {
      var i :| 0 <= i < |c| && c[i] == k;
      ChainSuffix(infos, c, i);
    }
  }

  lemma RootedParent(infos: Infos, k: Key)
    requires k in infos
    ensures infos[k].parent == k ==> Rooted(infos, k) && ChainOf(infos, k) == [k]
    ensures Rooted(infos, k) && infos[k].parent != k ==>
              Rooted(infos, infos[k].parent) && ChainOf(infos, k) == [k] + ChainOf(infos, infos[k].parent)
  {
    if infos[k].parent == k {
      assert ChainFrom(infos, k, [k]);
      ChainUnique(infos, [k], ChainOf(infos, k));
    } else if Rooted(infos, k) {
      var c := ChainOf(infos, k);
      assert ChainFrom(infos, infos[k].parent, c[1..]);
      ChainUnique(infos, c[1..], ChainOf(infos, infos[k].parent));
      assert c == [k] + c[1..];
    }
  }

  /** A node hung below a rooted node that is not its descendant is rooted, and
      inherits that node's ancestry. */
  lemma RootedBelow(infos: Infos, k: Key)
    requires k in infos && infos[k].parent != k && Rooted(infos, infos[k].parent)
    ensures Rooted(infos, k)
    ensures ChainOf(infos, k) == [k] + ChainOf(infos, infos[k].parent)
    ensures CoordsOf(infos, k) == CoordsOf(infos, infos[k].parent) + [infos[k].port]
    ensures RootOf(infos, k) == RootOf(infos, infos[k].parent)
  {
    var c := [k] + ChainOf(infos, infos[k].parent);
    assert c[1..] == ChainOf(infos, infos[k].parent);
    assert ChainFrom(infos, k, c);
    ChainUnique(infos, c, ChainOf(infos, k));
  }

  /** Ancestries only read the entries along them. */
  lemma {:induction false} ChainTransfer(infos: Infos, infos': Infos, c: seq<Key>)
    requires RootChain(infos, c)
    requires forall k :: k in c ==> k in infos' && k in infos
                                    && infos'[k].parent == infos[k].parent && infos'[k].port == infos[k].port
    ensures RootChain(infos', c)
    ensures Coords(infos', c) == Coords(infos, c)
  {
    assert c[0] in c;
    if |c| <= 1 {
    } else {
      ChainTransfer(infos, infos', c[1..]);
    }
  }

  // ---------------------------------------------------------------------------
  // The walks
  // ---------------------------------------------------------------------------

  /** Starting at `dest`, the nodes `s` were climbed without meeting a root; `next` comes after them. */
  ghost predicate Climbed(infos: Infos, dest: Key, s: seq<Key>, next: Key)
    decreases |s|
  {
    if s == [] then dest == next
    else
      && s[0] == dest && dest in infos && infos[dest].parent != dest
      && Climbed(infos, infos[dest].parent, s[1..], next)
  }

  lemma {:induction false} ClimbStep(infos: Infos, dest: Key, s: seq<Key>, next: Key)
    requires Climbed(infos, dest, s, next)
    requires next in infos && infos[next].parent != next
    ensures Climbed(infos, dest, s + [next], infos[next].parent)
    decreases |s|
  {
    if s == [] {
    } else {
      ClimbStep(infos, infos[dest].parent, s[1..], next);
      assert (s + [next])[1..] == s[1..] + [next];
    }
  }

  /** Whatever has been climbed is an initial part of the ancestry, if there is one. */
  lemma {:induction false} ClimbedPrefix(infos: Infos, dest: Key, s: seq<Key>, next: Key, c: seq<Key>)
    requires Climbed(infos, dest, s, next)
    requires ChainFrom(infos, dest, c)
    ensures |s| < |c| && s == c[..|s|] && c[|s|] == next
    decreases |s|
  {
    if s == [] {
    } else {
      ClimbedPrefix(infos, infos[dest].parent, s[1..], next, c[1..]);
      assert s == [s[0]] + s[1..];
    }
  }

  /** A walk that runs into an unknown node or a node seen before proves that there is
      no ancestry at all. */
  lemma ClimbFails(infos: Infos, dest: Key, s: seq<Key>, next: Key)
    requires Climbed(infos, dest, s, next)
    requires next in s || next !in infos
    ensures !Rooted(infos, dest)
  {
    if Rooted(infos, dest) {
      var c := ChainOf(infos, dest);
      ClimbedPrefix(infos, dest, s, next, c);
      ChainNoDup(infos, c);
    }
  }

  lemma {:induction false} ClimbSucceeds(infos: Infos, dest: Key, s: seq<Key>, next: Key)
    requires Climbed(infos, dest, s, next)
    requires next in infos && infos[next].parent == next
    ensures Rooted(infos, dest) && ChainOf(infos, dest) == s + [next] && RootOf(infos, dest) == next
    decreases |s|
  {
    if s == [] {
      RootedParent(infos, dest);
    } else {
      ClimbSucceeds(infos, infos[dest].parent, s[1..], next);
      RootedBelow(infos, dest);
      assert s == [dest] + s[1..];
    }
  }

  lemma ProgressShrinks(infos: Infos, visited: set<Key>, k: Key)
    requires k in infos && k !in visited
    ensures |infos.Keys - (visited + {k})| < |infos.Keys - visited|
  {
    assert infos.Keys - (visited + {k}) == (infos.Keys - visited) - {k};
  }

  /** `dists` gives every element of `s`, and nothing else, its position. */
  ghost predicate Indexes(dists: map<Key, nat>, s: seq<Key>) {
    && (forall k :: k in dists ==> dists[k] < |s| && s[dists[k]] == k)
    && (forall i :: 0 <= i < |s| ==> s[i] in dists && dists[s[i]] == i)
  }

  lemma IndexesSnoc(dists: map<Key, nat>, s: seq<Key>, k: Key)
    requires Indexes(dists, s) && k !in dists
    ensures Indexes(dists[k := |s|], s + [k])
    ensures dists[k := |s|].Keys == dists.Keys + {k}
  {
  }

  method GetRootAndDists(infos: Infos, dest: Key) returns (root: Key, dists: map<Key, nat>, valid: bool)
    ensures valid <==> Rooted(infos, dest)
    ensures valid ==> root == RootOf(infos, dest)
    ensures valid ==> Indexes(dists, ChainOf(infos, dest))
    ensures !valid ==> root == 0
  {
    dists := map[];
    var next := dest;
    var dist := 0;
    ghost var s := [];
    while true
      invariant Climbed(infos, dest, s, next)
      invariant dist == |s| && Indexes(dists, s)
      decreases |infos.Keys - dists.Keys|
    {
      if next in dists {
        ClimbFails(infos, dest, s, next);
        return 0, dists, false;
      }
      if next !in infos {
        ClimbFails(infos, dest, s, next);
        return 0, dists, false;
      }
      ProgressShrinks(infos, dists.Keys, next);
      IndexesSnoc(dists, s, next);
      dists := dists[next := dist];
      if infos[next].parent == next {
        ClimbSucceeds(infos, dest, s, next);
        return next, dists, true;
      }
      dist := dist + 1;
      ClimbStep(infos, dest, s, next);
      s := s + [next];
      next := infos[next].parent;
    }
  }

  /** The coordinates a walk upwards has collected, last port first. */
  lemma {:induction false} CoordsReversed(infos: Infos, c: seq<Key>, ports: seq<Port>)
    requires RootChain(infos, c)
    requires |ports| == |c| - 1 && forall i :: 0 <= i < |ports| ==> c[i] in infos && ports[i] == infos[c[i]].port
    ensures Coords(infos, c) == Reversed(ports)
  {
    if |c| <= 1 {
    } else {
      CoordsReversed(infos, c[1..], ports[1..]);
    }
  }

  function Reversed<T>(s: seq<T>): (r: seq<T>)
    ensures |r| == |s|
  {
    if s == [] then [] else Reversed(s[1..]) + [s[0]]
  }

  lemma {:induction false} ReversedElems<T>(s: seq<T>)
    ensures Elems(Reversed(s)) == Elems(s)
  {
    if s == [] {
    } else {
      ReversedElems(s[1..]);
      assert s == [s[0]] + s[1..];
      assert forall x :: x in Reversed(s[1..]) <==> x in Elems(Reversed(s[1..]));
    }
  }

  method GetRootAndPath(infos: Infos, dest: Key) returns (root: Key, path: seq<Port>)
    ensures Rooted(infos, dest) ==> root == RootOf(infos, dest) && path == CoordsOf(infos, dest)
    ensures !Rooted(infos, dest) ==> root == dest && path == []
  {
    var ports := [];
    var visited := {};
    var next := dest;
    ghost var s := [];
    while true
      invariant Climbed(infos, dest, s, next)
      invariant visited == Elems(s)
      invariant |ports| == |s| && forall i :: 0 <= i < |s| ==> s[i] in infos && ports[i] == infos[s[i]].port
      decreases |infos.Keys - visited|
    {
      if next in visited {
        ClimbFails(infos, dest, s, next);
        return dest, [];
      }
      if next !in infos {
        ClimbFails(infos, dest, s, next);
        return dest, [];
      }
      root := next;
      ProgressShrinks(infos, visited, next);
      visited := visited + {next};
      if next == infos[next].parent {
        break;
      }
      ports := ports + [infos[next].port];
      ClimbStep(infos, dest, s, next);
      s := s + [next];
      next := infos[next].parent;
    }
    ClimbSucceeds(infos, dest, s, next);
    CoordsReversed(infos, s + [next], ports);
    path := Reversed(ports);
  }

  /** The known ancestors of `k` that are not in `seen`, nearest first. */
  ghost function ClimbFrom(infos: Infos, k: Key, seen: set<Key>): seq<Key>
    decreases |infos.Keys - seen|
  {
    if k in seen || k !in infos then []
    else
      ProgressShrinks(infos, seen, k);
      [k] + ClimbFrom(infos, infos[k].parent, seen + {k})
  }

  ghost function Ancestors(infos: Infos, k: Key): seq<Key> {
    ClimbFrom(infos, k, {})
  }

  lemma ClimbOn(infos: Infos, anc: seq<Key>, here: Key, seen: set<Key>)
    requires here in infos && here !in seen && seen == Elems(anc)
    ensures anc + ClimbFrom(infos, here, seen) == anc + [here] + ClimbFrom(infos, infos[here].parent, seen + {here})
    ensures Elems(anc + [here]) == seen + {here}
  {
    var rest := ClimbFrom(infos, infos[here].parent, seen + {here});
    assert ClimbFrom(infos, here, seen) == [here] + rest;
    assert anc + ([here] + rest) == anc + [here] + rest;
  }

  lemma ClimbStops(infos: Infos, anc: seq<Key>, here: Key, seen: set<Key>)
    requires here in seen || here !in infos
    ensures anc + ClimbFrom(infos, here, seen) == anc
  {
    assert ClimbFrom(infos, here, seen) == [];
  }

  method BackwardsAncestry(infos: Infos, k: Key) returns (anc: seq<Key>)
    ensures anc == Ancestors(infos, k)
  {
    anc := [];
    var here := k;
    ghost var whole := Ancestors(infos, k);
    ghost var seen: set<Key> := {};
    while true
      invariant seen == Elems(anc) && whole == anc + ClimbFrom(infos, here, seen)
      decreases |infos.Keys - seen|
    {
      if here in anc {
        ClimbStops(infos, anc, here, seen);
        return;
      }
      if here !in infos {
        ClimbStops(infos, anc, here, seen);
        return;
      }
      ClimbOn(infos, anc, here, seen);
      ProgressShrinks(infos, seen, here);
      anc, seen := anc + [here], seen + {here};
      here := infos[here].parent;
    }
  }

  /** The ancestry from the root end down. */
  method GetAncestry(infos: Infos, k: Key) returns (anc: seq<Key>)
    ensures anc == Reversed(Ancestors(infos, k))
    ensures Elems(anc) == Elems(Ancestors(infos, k))
  {
    anc := BackwardsAncestry(infos, k);
    ReversedElems(anc);
    anc := Reversed(anc);
  }

  lemma {:induction false} ClimbFromMembers(infos: Infos, k: Key, seen: set<Key>)
    ensures var anc := ClimbFrom(infos, k, seen);
            && (forall a :: a in anc ==> a in infos && a !in seen)
            && (k in infos && k !in seen ==> k in anc)
            && (forall a :: a in anc && infos[a].parent in infos ==> infos[a].parent in anc || infos[a].parent in seen)
    decreases |infos.Keys - seen|
  {
    if k in seen || k !in infos {
    } else {
      ProgressShrinks(infos, seen, k);
      ClimbFromMembers(infos, infos[k].parent, seen + {k});
    }
  }

  /** The ancestors are known nodes, include the node itself when it is known, and are
      closed under known parents. */
  lemma AncestorsClosed(infos: Infos, k: Key)
    ensures var anc := Ancestors(infos, k);
            && (forall a :: a in anc ==> a in infos)
            && (k in infos ==> k in anc)
            && (forall a :: a in anc && infos[a].parent in infos ==> infos[a].parent in anc)
  {
    ClimbFromMembers(infos, k, {});
  }

  lemma {:induction false} AncestorsBelowChain(infos: Infos, k: Key, seen: set<Key>, c: seq<Key>)
    requires ChainFrom(infos, k, c)
    requires forall x :: x in c ==> x !in seen
    ensures ClimbFrom(infos, k, seen) == c
    decreases |c|
  {
    ChainNoDup(infos, c);
    ProgressShrinks(infos, seen, k);
    if |c| <= 1 {
    } else {
      AncestorsBelowChain(infos, infos[k].parent, seen + {k}, c[1..]);
      assert c == [k] + c[1..];
    }
  }

  /** For a rooted node the gossiped ancestry is exactly its chain to the root. */
  lemma AncestorsAreChain(infos: Infos, k: Key)
    requires Rooted(infos, k)
    ensures Ancestors(infos, k) == ChainOf(infos, k)
  {
    AncestorsBelowChain(infos, k, {}, ChainOf(infos, k));
  }
}
