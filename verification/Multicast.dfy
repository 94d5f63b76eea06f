/** Lookups over a tree of bloom filters: they reach the destination, and use each edge at most once. */
module Multicast {
  import opened Basics
  import opened Tree
  import opened Metric
  import opened Blooms

  /** Each node's filters, by peer. */
  type Net = map<Key, Table>

  /** Each node counts as on the tree exactly its neighbours in the tree. */
  ghost predicate Linked(t: Infos, net: Net) {
    && (forall u :: u in t ==> u in net)
    && (forall u, v :: u in t ==> (v in net[u] && net[u][v].onTree <==> Adjacent(t, u, v)))
  }

  /** What `u` sends to `v` covers what `v` needs, and has arrived there. */
  ghost predicate Covered(net: Net, mark: Key -> Filter, u: Key, v: Key)
    requires u in net && v in net && v in net[u] && u in net[v]
  {
    Needed(net[u], mark(u), v) <= net[u][v].send <= net[v][u].recv
  }

  ghost predicate Settled(t: Infos, net: Net, mark: Key -> Filter) {
    Linked(t, net) && forall u, v :: Adjacent(t, u, v) ==> Covered(net, mark, u, v)
  }

  // ---------------------------------------------------------------------------
  // How a network settles
  // ---------------------------------------------------------------------------

  /** With the shared tree as their view, nodes agree with it on their tree links. */
  lemma TreeLinkIsAdjacency(t: Infos, u: Key, v: Key)
    requires u in t && v in t && u != v
    ensures TreeLink(u, t[u].parent, map k | k in t :: t[k].parent, v) <==> Adjacent(t, u, v)
  {
  }

  /** Filters that another round of maintenance would not change, and that have all been delivered. */
  ghost predicate FixedPoint(t: Infos, net: Net, mark: Key -> Filter) {
    && Linked(t, net)
    && (forall u, v :: Adjacent(t, u, v) ==>
          Pass(net[u], mark(u))[v].send == net[u][v].send && net[v][u].recv == net[u][v].send)
  }

  lemma FixedPointSettled(t: Infos, net: Net, mark: Key -> Filter)
    requires FixedPoint(t, net, mark)
    ensures Settled(t, net, mark)
  {
    forall u, v | Adjacent(t, u, v)
      ensures Covered(net, mark, u, v)
    {
      assert Adjacent(t, v, u);
      PassCovers(net[u], mark(u), v);
      NeededSame(net[u], Pass(net[u], mark(u)), mark(u), v);
    }
  }

  // ---------------------------------------------------------------------------
  // Reachability
  // ---------------------------------------------------------------------------

  lemma TreeDistSymmetric(t: Infos, u: Key, v: Key)
    requires Rooted(t, u) && Rooted(t, v)
    ensures TreeDist(t, u, v) == TreeDist(t, v, u)
    ensures TreeDist(t, u, u) == 0
  {
    DistMetric(CoordsOf(t, u), CoordsOf(t, v), CoordsOf(t, u));
    DistMetric(CoordsOf(t, u), CoordsOf(t, u), CoordsOf(t, u));
  }

  /** The filter `v` holds from `u` matches every node on `u`'s side of their edge. */
  lemma {:induction false} FilterReaches(t: Infos, root: Key, net: Net, mark: Key -> Filter, u: Key, v: Key, x: Key)
    requires OneTree(t, root) && Settled(t, net, mark) && Adjacent(t, u, v) && x in t
    requires TreeDist(t, u, x) < TreeDist(t, v, x)
    ensures Adjacent(t, v, u) && mark(x) <= net[v][u].recv
    decreases TreeDist(t, u, x)
  {
    assert Adjacent(t, v, u) && Covered(net, mark, u, v);
    if x == u {
    } else {
      var w := NextHop(t, root, u, x);
      FilterReaches(t, root, net, mark, w, u, x);
      assert mark(x) <= Gathered(net[u], v);
    }
  }

  /** Wherever a neighbour is closer to `x`, its filter matches `x`. */
  ghost predicate Informed(t: Infos, root: Key, net: Net, wanted: Filter, x: Key)
    requires OneTree(t, root) && Linked(t, net) && x in t
  {
    forall u, v :: Adjacent(t, v, u) && TreeDist(t, u, x) < TreeDist(t, v, x) ==> wanted <= net[v][u].recv
  }

  /** Every tree has a settled exchange: with filters that match everything, if nothing better. */
  lemma EveryTreeSettles(t: Infos, mark: Key -> Filter) returns (net: Net)
    ensures Settled(t, net, mark)
  {
    var all := set k, b | k in t && b in mark(k) :: b;
    net := map u | u in t :: map v | v in t && Adjacent(t, u, v) :: Blooms.Info(all, all, 0, true, false);
    forall u, v | Adjacent(t, u, v)
      ensures Covered(net, mark, u, v)
    {
      assert v in net[u] && u in net[v];
      assert Gathered(net[u], v) <= all;
    }
  }

  lemma SettledInformed(t: Infos, root: Key, net: Net, mark: Key -> Filter, x: Key)
    requires OneTree(t, root) && Settled(t, net, mark) && x in t
    ensures Informed(t, root, net, mark(x), x)
  {
    forall u, v | Adjacent(t, v, u) && TreeDist(t, u, x) < TreeDist(t, v, x)
      ensures mark(x) <= net[v][u].recv
    {
      FilterReaches(t, root, net, mark, u, v, x);
    }
  }

  // ---------------------------------------------------------------------------
  // From any filters, round by round
  // ---------------------------------------------------------------------------

  /** Each node holds from its tree neighbours what they sent last. */
  ghost predicate InSync(t: Infos, net: Net)
    requires Linked(t, net)
  {
    forall u, v :: Adjacent(t, u, v) ==> HoldsSent(net, u, v)
  }

  ghost predicate HoldsSent(net: Net, u: Key, v: Key) {
    u in net && v in net && v in net[u] && u in net[v] && net[v][u].recv == net[u][v].send
  }

  /** Nodes that have just met hold and have sent nothing, and are in step. */
  lemma StartInSync(t: Infos) returns (net: Net)
    ensures Linked(t, net) && InSync(t, net)
    ensures forall u, v :: u in net && v in net[u] ==> net[u][v] == NEW_INFO.(onTree := true)
  {
    net := map u | u in t :: map v | v in t && Adjacent(t, u, v) :: NEW_INFO.(onTree := true);
    forall u, v | Adjacent(t, u, v)
      ensures HoldsSent(net, u, v)
    {
      assert v in net[u] && u in net[v];
    }
  }

  /** What `u` holds from `v` after `v` maintained its filters: the new filter if it was announced. */
  ghost function Delivered(net: Net, mark: Key -> Filter, u: Key, v: Key): Filter
    requires u in net && v in net[u]
  {
    if v in net && u in net[v] && net[v][u].onTree && Announced(Needed(net[v], mark(v), u), net[v][u])
    then Pass(net[v], mark(v))[u].send
    else net[u][v].recv
  }

  /** All nodes maintain their filters, and what they announce arrives. */
  ghost function Round(net: Net, mark: Key -> Filter): Net {
    map u | u in net :: map v | v in net[u] :: Pass(net[u], mark(u))[v].(recv := Delivered(net, mark, u, v))
  }

  ghost function Rounds(net: Net, mark: Key -> Filter, n: nat): Net {
    if n == 0 then net else Round(Rounds(net, mark, n - 1), mark)
  }

  /** Unannounced filters have not changed, so nodes stay in step. */
  lemma RoundInSync(t: Infos, net: Net, mark: Key -> Filter)
    requires Linked(t, net) && InSync(t, net)
    ensures Linked(t, Round(net, mark)) && InSync(t, Round(net, mark))
  {
    forall u, v | Adjacent(t, u, v)
      ensures HoldsSent(Round(net, mark), u, v)
    {
      assert Adjacent(t, v, u) && HoldsSent(net, u, v);
    }
  }

  /** One round later a node holds at least what its neighbour knew. */
  lemma RoundDelivers(t: Infos, net: Net, mark: Key -> Filter, u: Key, v: Key)
    requires Linked(t, net) && InSync(t, net) && Adjacent(t, u, v)
    ensures Linked(t, Round(net, mark)) && v in Round(net, mark) && u in Round(net, mark)[v]
    ensures Needed(net[u], mark(u), v) <= Round(net, mark)[v][u].recv
  {
    RoundInSync(t, net, mark);
    assert Adjacent(t, v, u) && HoldsSent(Round(net, mark), u, v);
    PassCovers(net[u], mark(u), v);
    NeededSame(net[u], Pass(net[u], mark(u)), mark(u), v);
  }

  /** What `u` holds from a neighbour other than `v` reaches `v` in one round. */
  lemma RoundPassesOn(t: Infos, net: Net, mark: Key -> Filter, u: Key, v: Key, w: Key, wanted: Filter)
    requires Linked(t, net) && InSync(t, net) && Adjacent(t, u, v) && Adjacent(t, u, w) && w != v && wanted <= net[u][w].recv
    ensures v in Round(net, mark) && u in Round(net, mark)[v] && wanted <= Round(net, mark)[v][u].recv
  {
    RoundDelivers(t, net, mark, u, v);
    assert wanted <= Gathered(net[u], v);
  }

  /** What `v` holds from `u` matches `wanted`. */
  ghost predicate Holds(net: Net, v: Key, u: Key, wanted: Filter) {
    v in net && u in net[v] && wanted <= net[v][u].recv
  }

  /** One round brings the marks of the nodes on `u`'s side one edge further. */
  lemma RoundReach(t: Infos, root: Key, net: Net, mark: Key -> Filter, u: Key, v: Key, x: Key)
    requires OneTree(t, root) && Linked(t, net) && InSync(t, net) && Adjacent(t, u, v) && x in t
    requires TreeDist(t, u, x) < TreeDist(t, v, x)
    requires forall w :: Adjacent(t, w, u) && TreeDist(t, w, x) < TreeDist(t, u, x) ==> Holds(net, u, w, mark(x))
    ensures Holds(Round(net, mark), v, u, mark(x))
  {
    if x == u {
      RoundDelivers(t, net, mark, u, v);
    } else {
      var w := NextHop(t, root, u, x);
      assert Adjacent(t, w, u) && Holds(net, u, w, mark(x));
      RoundPassesOn(t, net, mark, u, v, w, mark(x));
    }
  }

  /** The filter held over each edge matches the nodes on the far side nearer than `n`. */
  ghost predicate ReachesTo(t: Infos, root: Key, net: Net, mark: Key -> Filter, n: nat)
    requires OneTree(t, root)
  {
    forall u, v, x :: Adjacent(t, u, v) && x in t && TreeDist(t, u, x) < TreeDist(t, v, x) && TreeDist(t, u, x) < n ==>
      Holds(net, v, u, mark(x))
  }

  lemma RoundReachesFurther(t: Infos, root: Key, net: Net, mark: Key -> Filter, n: nat)
    requires OneTree(t, root) && Linked(t, net) && InSync(t, net) && ReachesTo(t, root, net, mark, n)
    ensures ReachesTo(t, root, Round(net, mark), mark, n + 1)
  {
    forall u, v, x | Adjacent(t, u, v) && x in t && TreeDist(t, u, x) < TreeDist(t, v, x) && TreeDist(t, u, x) < n + 1
      ensures Holds(Round(net, mark), v, u, mark(x))
    {
      RoundReach(t, root, net, mark, u, v, x);
    }
  }

  /** After `n` rounds from any filters in step, marks have travelled `n` edges. */
  lemma {:induction false} RoundsReach(t: Infos, root: Key, net: Net, mark: Key -> Filter, n: nat)
    requires OneTree(t, root) && Linked(t, net) && InSync(t, net)
    ensures var now := Rounds(net, mark, n); Linked(t, now) && InSync(t, now) && ReachesTo(t, root, now, mark, n)
  {
    if n == 0 {
    } else {
      RoundsReach(t, root, net, mark, n - 1);
      RoundInSync(t, Rounds(net, mark, n - 1), mark);
      RoundReachesFurther(t, root, Rounds(net, mark, n - 1), mark, n - 1);
    }
  }

  lemma ReachingInformed(t: Infos, root: Key, net: Net, mark: Key -> Filter, n: nat, x: Key)
    requires OneTree(t, root) && Linked(t, net) && ReachesTo(t, root, net, mark, n) && x in t
    requires forall u :: u in t ==> TreeDist(t, u, x) <= n
    ensures Informed(t, root, net, mark(x), x)
  {
    forall u, v | Adjacent(t, v, u) && TreeDist(t, u, x) < TreeDist(t, v, x)
      ensures mark(x) <= net[v][u].recv
    {
      assert Adjacent(t, u, v);
      assert Holds(net, v, u, mark(x));
    }
  }

  // ---------------------------------------------------------------------------
  // Lookups
  // ---------------------------------------------------------------------------

  /** Whom the node at place `i` has the lookup from; the origin has it from itself. */
  function Previous(chain: seq<Key>, i: nat): Key
    requires i < |chain|
  {
    if i == 0 then chain[0] else chain[i - 1]
  }

  /** Node `i` passes the lookup on to node `i + 1`, which takes it only from an on-tree peer. */
  ghost predicate Passes(net: Net, wanted: Filter, chain: seq<Key>, i: nat)
    requires i + 1 < |chain|
  {
    && chain[i] in net && chain[i + 1] in Targets(net[chain[i]], Previous(chain, i), wanted)
    && chain[i + 1] in net && chain[i] in net[chain[i + 1]] && net[chain[i + 1]][chain[i]].onTree
  }

  /** A lookup travels along `chain`. */
  ghost predicate Relayed(net: Net, wanted: Filter, chain: seq<Key>) {
    chain != [] && forall i :: 0 <= i < |chain| - 1 ==> Passes(net, wanted, chain, i)
  }

  lemma RelayedAppend(net: Net, wanted: Filter, chain: seq<Key>, w: Key)
    requires Relayed(net, wanted, chain) && Passes(net, wanted, chain + [w], |chain| - 1)
    ensures Relayed(net, wanted, chain + [w])
  {
    forall i | 0 <= i < |chain|
      ensures Passes(net, wanted, chain + [w], i)
    {
      assert i < |chain| - 1 ==> Passes(net, wanted, chain, i);
    }
  }

  lemma RelayedPrefix(net: Net, wanted: Filter, chain: seq<Key>, n: nat)
    requires Relayed(net, wanted, chain) && 0 < n <= |chain|
    ensures Relayed(net, wanted, chain[..n])
  {
    forall i | 0 <= i < n - 1
      ensures Passes(net, wanted, chain[..n], i)
    {
      assert Passes(net, wanted, chain, i);
    }
  }

  /** Towards the destination there is always a peer to pass the lookup on to. */
  lemma PassOn(t: Infos, root: Key, net: Net, wanted: Filter, d: Key, chain: seq<Key>) returns (w: Key)
    requires OneTree(t, root) && Linked(t, net) && d in t && Informed(t, root, net, wanted, d)
    requires Relayed(net, wanted, chain) && Last(chain) in t && Last(chain) != d
    requires var from := Previous(chain, |chain| - 1);
             from in t && (from == Last(chain) || TreeDist(t, from, d) > TreeDist(t, Last(chain), d))
    ensures w in t && TreeDist(t, w, d) == TreeDist(t, Last(chain), d) - 1
    ensures Relayed(net, wanted, chain + [w])
  {
    var u := Last(chain);
    w := NextHop(t, root, u, d);
    assert Adjacent(t, w, u) && wanted <= net[u][w].recv;
    assert Previous(chain + [w], |chain| - 1) == Previous(chain, |chain| - 1);
    RelayedAppend(net, wanted, chain, w);
  }

  /** A lookup from any node reaches the node it is for, by the shortest way. */
  lemma LookupReaches(t: Infos, root: Key, net: Net, wanted: Filter, s: Key, d: Key) returns (chain: seq<Key>)
    requires OneTree(t, root) && Linked(t, net) && s in t && d in t && Informed(t, root, net, wanted, d)
    ensures Relayed(net, wanted, chain) && chain[0] == s && Last(chain) == d
    ensures |chain| == TreeDist(t, s, d) + 1
  {
    chain := [s];
    var u, from := s, s;
    while u != d
      invariant Relayed(net, wanted, chain) && chain[0] == s && Last(chain) == u && Previous(chain, |chain| - 1) == from
      invariant u in t && |chain| - 1 + TreeDist(t, u, d) == TreeDist(t, s, d)
      invariant from in t && (from == u || TreeDist(t, from, d) > TreeDist(t, u, d))
      decreases TreeDist(t, u, d)
    {
      var w := PassOn(t, root, net, wanted, d, chain);
      chain := chain + [w];
      from, u := u, w;
    }
    TreeDistSymmetric(t, d, d);
  }

  /** From any filters that are in step, after enough rounds every lookup arrives. */
  lemma LookupReachesAfter(t: Infos, root: Key, net: Net, mark: Key -> Filter, n: nat, s: Key, d: Key) returns (chain: seq<Key>)
    requires OneTree(t, root) && Linked(t, net) && InSync(t, net) && s in t && d in t
    requires forall u :: u in t ==> TreeDist(t, u, d) <= n
    ensures Relayed(Rounds(net, mark, n), mark(d), chain) && chain[0] == s && Last(chain) == d
    ensures |chain| == TreeDist(t, s, d) + 1
  {
    RoundsReach(t, root, net, mark, n);
    ReachingInformed(t, root, Rounds(net, mark, n), mark, n, d);
    chain := LookupReaches(t, root, Rounds(net, mark, n), mark(d), s, d);
  }

  /** Only one neighbour of a node is closer to a given node. */
  lemma CloserNeighbourUnique(t: Infos, root: Key, u: Key, a: Key, b: Key, x: Key)
    requires OneTree(t, root) && x in t && Adjacent(t, u, a) && Adjacent(t, u, b)
    requires TreeDist(t, a, x) < TreeDist(t, u, x) && TreeDist(t, b, x) < TreeDist(t, u, x)
    ensures a == b
  {
    CloserNeighbour(t, root, u, a, x);
    CloserNeighbour(t, root, u, b, x);
    if CoordsOf(t, u) <= CoordsOf(t, x) {
      CoordsInjective(t, root, a, b);
    }
  }

  /** It is the child on the way down to `x`, or else the parent. */
  lemma CloserNeighbour(t: Infos, root: Key, u: Key, a: Key, x: Key)
    requires OneTree(t, root) && x in t && Adjacent(t, u, a) && TreeDist(t, a, x) < TreeDist(t, u, x)
    ensures var p, q := CoordsOf(t, u), CoordsOf(t, x);
            if p <= q then |p| < |q| && CoordsOf(t, a) == q[..|p| + 1] else a == t[u].parent
  {
    ParentFacts(t, root, a);
    ParentFacts(t, root, u);
    if t[u].parent == a {
      DistParent(CoordsOf(t, a), t[u].port, CoordsOf(t, x));
    } else {
      DistParent(CoordsOf(t, u), t[a].port, CoordsOf(t, x));
    }
  }

  lemma PassesAdjacent(t: Infos, net: Net, wanted: Filter, chain: seq<Key>, i: nat)
    requires Linked(t, net) && Relayed(net, wanted, chain) && chain[0] in t && i + 1 < |chain|
    requires chain[i] in t
    ensures Adjacent(t, chain[i], chain[i + 1]) && chain[i + 1] != Previous(chain, i)
  {
    assert Passes(net, wanted, chain, i);
  }

  /** However filters err, a lookup moves away from its origin with every hop. */
  lemma {:induction false} LookupMovesAway(t: Infos, root: Key, net: Net, wanted: Filter, chain: seq<Key>, i: nat)
    requires OneTree(t, root) && Linked(t, net) && Relayed(net, wanted, chain) && chain[0] in t && i < |chain|
    ensures chain[i] in t && TreeDist(t, chain[i], chain[0]) == i
  {
    TreeDistSymmetric(t, chain[0], chain[0]);
    if i == 0 {
    } else {
      var s, u, w := chain[0], chain[i - 1], chain[i];
      LookupMovesAway(t, root, net, wanted, chain, i - 1);
      PassesAdjacent(t, net, wanted, chain, i - 1);
      EdgeChangesDist(t, root, u, w, s);
      if i > 1 && TreeDist(t, w, s) < TreeDist(t, u, s) {
        var v := chain[i - 2];
        LookupMovesAway(t, root, net, wanted, chain, i - 2);
        PassesAdjacent(t, net, wanted, chain, i - 2);
        CloserNeighbourUnique(t, root, u, v, w, s);
      }
    }
  }

  /** The hop before the last is the last node's neighbour on the side of the origin. */
  lemma Predecessor(t: Infos, root: Key, net: Net, wanted: Filter, c: seq<Key>, i: nat)
    requires OneTree(t, root) && Linked(t, net) && Relayed(net, wanted, c) && c[0] in t && i + 1 < |c|
    ensures Adjacent(t, c[i + 1], c[i]) && TreeDist(t, c[i], c[0]) < TreeDist(t, c[i + 1], c[0])
  {
    LookupMovesAway(t, root, net, wanted, c, i);
    LookupMovesAway(t, root, net, wanted, c, i + 1);
    PassesAdjacent(t, net, wanted, c, i);
  }

  lemma SameLength(t: Infos, root: Key, net: Net, wanted: Filter, c: seq<Key>, d: seq<Key>)
    requires OneTree(t, root) && Linked(t, net) && Relayed(net, wanted, c) && Relayed(net, wanted, d)
    requires c[0] in t && c[0] == d[0] && Last(c) == Last(d)
    ensures |c| == |d|
  {
    LookupMovesAway(t, root, net, wanted, c, |c| - 1);
    LookupMovesAway(t, root, net, wanted, d, |d| - 1);
  }

  lemma SamePredecessor(t: Infos, root: Key, net: Net, wanted: Filter, c: seq<Key>, d: seq<Key>, i: nat)
    requires OneTree(t, root) && Linked(t, net) && Relayed(net, wanted, c) && Relayed(net, wanted, d)
    requires c[0] in t && c[0] == d[0] && i + 1 < |c| && i + 1 < |d| && c[i + 1] == d[i + 1]
    ensures c[i] == d[i]
  {
    Predecessor(t, root, net, wanted, c, i);
    Predecessor(t, root, net, wanted, d, i);
    CloserNeighbourUnique(t, root, c[i + 1], c[i], d[i], c[0]);
  }

  /** A node has a lookup by one way only: no edge is crossed twice in the same direction. */
  lemma {:induction false} LookupOnce(t: Infos, root: Key, net: Net, wanted: Filter, c: seq<Key>, d: seq<Key>)
    requires OneTree(t, root) && Linked(t, net) && Relayed(net, wanted, c) && Relayed(net, wanted, d)
    requires c[0] in t && c[0] == d[0] && Last(c) == Last(d)
    ensures c == d
    decreases |c|
  {
    SameLength(t, root, net, wanted, c, d);
    var n := |c| - 1;
    if n == 0 {
    } else {
      SamePredecessor(t, root, net, wanted, c, d, n - 1);
      RelayedPrefix(net, wanted, c, n);
      RelayedPrefix(net, wanted, d, n);
      LookupOnce(t, root, net, wanted, c[..n], d[..n]);
      assert c == c[..n] + [Last(c)] && d == d[..n] + [Last(d)];
    }
  }

  /** Nor in both directions. */
  lemma LookupOneWay(t: Infos, root: Key, net: Net, wanted: Filter, c: seq<Key>, i: nat, d: seq<Key>, j: nat)
    requires OneTree(t, root) && Linked(t, net) && Relayed(net, wanted, c) && Relayed(net, wanted, d)
    requires c[0] in t && c[0] == d[0] && i + 1 < |c| && j + 1 < |d|
    ensures !(c[i] == d[j + 1] && c[i + 1] == d[j])
  {
    LookupMovesAway(t, root, net, wanted, c, i);
    LookupMovesAway(t, root, net, wanted, c, i + 1);
    LookupMovesAway(t, root, net, wanted, d, j);
    LookupMovesAway(t, root, net, wanted, d, j + 1);
  }
}
