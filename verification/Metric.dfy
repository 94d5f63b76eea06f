/** Distance between tree coordinates, and why it is the distance in the tree. */
module Metric {
  import opened Basics
  import opened Tree

  /** Length of the longest common prefix. */
  function Common(a: seq<Port>, b: seq<Port>): (n: nat)
    ensures n <= |a| && n <= |b|
    ensures forall i :: 0 <= i < n ==> a[i] == b[i]
    ensures n < |a| && n < |b| ==> a[n] != b[n]
  {
    if a == [] || b == [] || a[0] != b[0] then 0 else 1 + Common(a[1..], b[1..])
  }

  function Dist(a: seq<Port>, b: seq<Port>): nat {
    |a| + |b| - 2 * Common(a, b)
  }

  lemma CommonIs(a: seq<Port>, b: seq<Port>, n: nat)
    requires n <= |a| && n <= |b| && forall i :: 0 <= i < n ==> a[i] == b[i]
    requires n < |a| && n < |b| ==> a[n] != b[n]
    ensures Common(a, b) == n
  {
  }

  lemma DistMetric(a: seq<Port>, b: seq<Port>, c: seq<Port>)
    ensures Dist(a, b) == Dist(b, a)
    ensures Dist(a, b) == 0 <==> a == b
    ensures Dist(a, c) <= Dist(a, b) + Dist(b, c)
  {
    CommonIs(b, a, Common(a, b));
    CommonIs(a, a, |a|);
    assert Common(a, c) >= Min(Common(a, b), Common(b, c));
  }

  /** Going to the parent changes the distance by one: down when the target is not
      below, up when it is. */
  lemma DistParent(a: seq<Port>, p: Port, b: seq<Port>)
    ensures a + [p] <= b ==> Dist(a + [p], b) == Dist(a, b) - 1
    ensures !(a + [p] <= b) ==> Dist(a + [p], b) == Dist(a, b) + 1
  {
    var n := Common(a, b);
    assert n == |a| < |b| && b[n] == p ==> a + [p] == b[..n + 1];
    if a + [p] <= b {
      CommonIs(a, b, |a|);
      CommonIs(a + [p], b, |a| + 1);
    } else {
      CommonIs(a + [p], b, n);
    }
  }

  // ---------------------------------------------------------------------------
  // One shared tree
  // ---------------------------------------------------------------------------

  ghost predicate Siblings(t: Infos, a: Key, b: Key) {
    a in t && b in t && a != b && t[a].parent == t[b].parent && t[a].parent != a && t[b].parent != b
  }

  /** Every known node reaches the same root, and the children of a node have distinct ports. */
  ghost predicate OneTree(t: Infos, root: Key) {
    && (forall k :: k in t ==> Rooted(t, k) && RootOf(t, k) == root)
    && (forall a, b :: Siblings(t, a, b) ==> t[a].port != t[b].port)
  }

  ghost predicate Adjacent(t: Infos, u: Key, v: Key) {
    u in t && v in t && u != v && (t[u].parent == v || t[v].parent == u)
  }

  ghost function TreeDist(t: Infos, u: Key, v: Key): nat
    requires Rooted(t, u) && Rooted(t, v)
  {
    Dist(CoordsOf(t, u), CoordsOf(t, v))
  }

  lemma ParentFacts(t: Infos, root: Key, k: Key)
    requires OneTree(t, root) && k in t
    ensures t[k].parent == k <==> k == root
    ensures k == root <==> CoordsOf(t, k) == []
    ensures t[k].parent in t
    ensures k != root ==> CoordsOf(t, k) == CoordsOf(t, t[k].parent) + [t[k].port]
    ensures k != root ==> |ChainOf(t, t[k].parent)| == |ChainOf(t, k)| - 1
  {
    RootedParent(t, k);
    var c := ChainOf(t, k);
    ChainSuffix(t, c, |c| - 1);
    ChainNoDup(t, c);
    if t[k].parent != k {
      RootedBelow(t, k);
      assert ChainFrom(t, t[k].parent, c[1..]);
      assert c[1] in c;
    }
  }

  /** Coordinates identify a node. */
  lemma {:induction false} CoordsInjective(t: Infos, root: Key, a: Key, b: Key)
    requires OneTree(t, root) && a in t && b in t
    requires CoordsOf(t, a) == CoordsOf(t, b)
    ensures a == b
    decreases |CoordsOf(t, a)|
  {
    ParentFacts(t, root, a);
    ParentFacts(t, root, b);
    if a == root {
    } else {
      var pa, pb := t[a].parent, t[b].parent;
      assert CoordsOf(t, a)[..|CoordsOf(t, a)| - 1] == CoordsOf(t, pa);
      assert CoordsOf(t, b)[..|CoordsOf(t, b)| - 1] == CoordsOf(t, pb);
      CoordsInjective(t, root, pa, pb);
      assert t[a].port == Last(CoordsOf(t, a)) == t[b].port;
      assert !Siblings(t, a, b);
    }
  }

  /** Each prefix of a node's coordinates belongs to one of its ancestors. */
  lemma {:induction false} AncestorAt(t: Infos, root: Key, k: Key, n: nat) returns (a: Key)
    requires OneTree(t, root) && k in t && n <= |CoordsOf(t, k)|
    ensures a in t && CoordsOf(t, a) == CoordsOf(t, k)[..n]
    decreases |CoordsOf(t, k)|
  {
    var p := CoordsOf(t, k);
    if n == |p| {
      assert p[..n] == p;
      a := k;
    } else {
      ParentFacts(t, root, k);
      a := AncestorAt(t, root, t[k].parent, n);
      assert p[..n] == p[..|p| - 1][..n];
    }
  }

  /** From every node other than the target there is a tree edge that gets one closer. */
  lemma NextHop(t: Infos, root: Key, u: Key, v: Key) returns (w: Key)
    requires OneTree(t, root) && u in t && v in t && u != v
    ensures Adjacent(t, u, w)
    ensures TreeDist(t, w, v) == TreeDist(t, u, v) - 1
  {
    var a, b := CoordsOf(t, u), CoordsOf(t, v);
    if CoordsOf(t, u) == CoordsOf(t, v) {
      CoordsInjective(t, root, u, v);
    }
    ParentFacts(t, root, u);
    if a <= b {
      w := AncestorAt(t, root, v, |a| + 1);
      ParentFacts(t, root, w);
      var c := CoordsOf(t, w);
      assert b[..|a| + 1][..|a|] == b[..|a|] == a;
      assert CoordsOf(t, t[w].parent) == c[..|c| - 1] == a;
      CoordsInjective(t, root, t[w].parent, u);
      DistParent(a, t[w].port, b);
    } else {
      w := t[u].parent;
      assert u != root;
      DistParent(CoordsOf(t, w), t[u].port, b);
    }
  }

  /** A tree edge changes the distance to any target by exactly one. */
  lemma EdgeChangesDist(t: Infos, root: Key, u: Key, w: Key, v: Key)
    requires OneTree(t, root) && v in t && Adjacent(t, u, w)
    ensures TreeDist(t, w, v) == TreeDist(t, u, v) - 1 || TreeDist(t, w, v) == TreeDist(t, u, v) + 1
  {
    var child, parent := if t[u].parent == w then u else w, if t[u].parent == w then w else u;
    ParentFacts(t, root, child);
    DistParent(CoordsOf(t, parent), t[child].port, CoordsOf(t, v));
  }

  /** `w` follows tree edges from `u` to `v`. */
  ghost predicate Walk(t: Infos, w: seq<Key>, u: Key, v: Key) {
    && w != [] && w[0] == u && Last(w) == v
    && forall i :: 0 <= i < |w| - 1 ==> Adjacent(t, w[i], w[i + 1])
  }

  lemma {:induction false} WalkAtLeast(t: Infos, root: Key, w: seq<Key>, u: Key, v: Key)
    requires OneTree(t, root) && u in t && v in t && Walk(t, w, u, v)
    ensures |w| - 1 >= TreeDist(t, u, v)
  {
    if |w| == 1 {
      DistMetric(CoordsOf(t, u), CoordsOf(t, v), []);
    } else {
      assert Adjacent(t, w[0], w[1]);
      WalkAtLeast(t, root, w[1..], w[1], v);
      EdgeChangesDist(t, root, u, w[1], v);
    }
  }

  lemma {:induction false} WalkExactly(t: Infos, root: Key, u: Key, v: Key) returns (w: seq<Key>)
    requires OneTree(t, root) && u in t && v in t
    ensures Walk(t, w, u, v) && |w| - 1 == TreeDist(t, u, v)
    decreases TreeDist(t, u, v)
  {
    DistMetric(CoordsOf(t, u), CoordsOf(t, v), []);
    if u == v {
      w := [u];
    } else {
      var x := NextHop(t, root, u, v);
      var rest := WalkExactly(t, root, x, v);
      w := [u] + rest;
    }
  }

  /** The coordinate distance is the number of edges on a shortest path in the tree. */
  lemma DistIsShortestPath(t: Infos, root: Key, u: Key, v: Key)
    requires OneTree(t, root) && u in t && v in t
    ensures exists w :: Walk(t, w, u, v) && |w| - 1 == TreeDist(t, u, v)
    ensures forall w :: Walk(t, w, u, v) ==> |w| - 1 >= TreeDist(t, u, v)
  {
    var w := WalkExactly(t, root, u, v);
    forall w | Walk(t, w, u, v)
      ensures |w| - 1 >= TreeDist(t, u, v)
    {
      WalkAtLeast(t, root, w, u, v);
    }
  }
}
