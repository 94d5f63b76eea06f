/** What filters advertise over an edge: the nodes on the far side, and nothing from the near side. */
module Horizon {
  import opened Basics
  import opened Tree
  import opened Metric
  import opened Blooms
  import opened Multicast

  /** Bit `b` belongs to a node on `u`'s side of the edge between `u` and `v`. */
  ghost predicate FromSide(t: Infos, root: Key, mark: Key -> Filter, u: Key, v: Key, b: nat)
    requires OneTree(t, root) && u in t && v in t
  {
    exists x :: x in t && TreeDist(t, u, x) < TreeDist(t, v, x) && b in mark(x)
  }

  ghost predicate EdgeClean(t: Infos, root: Key, net: Net, mark: Key -> Filter, u: Key, v: Key)
    requires OneTree(t, root) && u in t && v in t
  {
    && u in net && v in net && v in net[u] && u in net[v]
    && (forall b :: b in net[u][v].send ==> FromSide(t, root, mark, u, v, b))
    && (forall b :: b in net[v][u].recv ==> FromSide(t, root, mark, u, v, b))
  }

  /** No filter has bits from the wrong side of its edge. */
  ghost predicate Clean(t: Infos, root: Key, net: Net, mark: Key -> Filter)
    requires OneTree(t, root)
  {
    forall u, v :: Adjacent(t, u, v) ==> EdgeClean(t, root, net, mark, u, v)
  }

  /** What lies behind another neighbour of `u` lies on `u`'s side of the edge to `v`. */
  lemma SidesNest(t: Infos, root: Key, mark: Key -> Filter, u: Key, v: Key, w: Key, b: nat)
    requires OneTree(t, root) && Adjacent(t, u, v) && Adjacent(t, u, w) && w != v && FromSide(t, root, mark, w, u, b)
    ensures FromSide(t, root, mark, u, v, b)
  {
    var x :| x in t && TreeDist(t, w, x) < TreeDist(t, u, x) && b in mark(x);
    EdgeChangesDist(t, root, u, v, x);
    if TreeDist(t, v, x) < TreeDist(t, u, x) {
      CloserNeighbourUnique(t, root, u, v, w, x);
    }
  }

  lemma OwnSide(t: Infos, root: Key, mark: Key -> Filter, u: Key, v: Key, b: nat)
    requires OneTree(t, root) && Adjacent(t, u, v) && b in mark(u)
    ensures FromSide(t, root, mark, u, v, b)
  {
    EdgeChangesDist(t, root, u, v, u);
    TreeDistSymmetric(t, u, u);
  }

  lemma NeededClean(t: Infos, root: Key, net: Net, mark: Key -> Filter, u: Key, v: Key, b: nat)
    requires OneTree(t, root) && Linked(t, net) && Clean(t, root, net, mark) && Adjacent(t, u, v)
    requires b in Needed(net[u], mark(u), v)
    ensures FromSide(t, root, mark, u, v, b)
  {
    if b in mark(u) {
      OwnSide(t, root, mark, u, v, b);
    } else {
      var w :| w in net[u] && w != v && net[u][w].onTree && b in net[u][w].recv;
      assert Adjacent(t, u, w) && Adjacent(t, w, u);
      assert EdgeClean(t, root, net, mark, w, u);
      SidesNest(t, root, mark, u, v, w, b);
    }
  }

  lemma SendClean(t: Infos, root: Key, net: Net, mark: Key -> Filter, u: Key, v: Key, b: nat)
    requires OneTree(t, root) && Linked(t, net) && Clean(t, root, net, mark) && Adjacent(t, u, v)
    requires b in Pass(net[u], mark(u))[v].send
    ensures FromSide(t, root, mark, u, v, b)
  {
    assert EdgeClean(t, root, net, mark, u, v);
    if b in Needed(net[u], mark(u), v) {
      NeededClean(t, root, net, mark, u, v, b);
    }
  }

  lemma RoundClean(t: Infos, root: Key, net: Net, mark: Key -> Filter)
    requires OneTree(t, root) && Linked(t, net) && Clean(t, root, net, mark)
    ensures Clean(t, root, Round(net, mark), mark)
  {
    var next := Round(net, mark);
    forall u, v | Adjacent(t, u, v)
      ensures EdgeClean(t, root, next, mark, u, v)
    {
      assert EdgeClean(t, root, net, mark, u, v);
      forall b | b in Pass(net[u], mark(u))[v].send
        ensures FromSide(t, root, mark, u, v, b)
      {
        SendClean(t, root, net, mark, u, v, b);
      }
    }
  }

  lemma NextClean(t: Infos, root: Key, net: Net, next: Net, mark: Key -> Filter)
    requires OneTree(t, root) && Linked(t, net) && Clean(t, root, net, mark) && next == Round(net, mark)
    ensures Clean(t, root, next, mark)
  {
    RoundClean(t, root, net, mark);
  }

  lemma {:induction false} RoundsClean(t: Infos, root: Key, net: Net, mark: Key -> Filter, n: nat) returns (now: Net)
    requires OneTree(t, root) && Linked(t, net) && InSync(t, net) && Clean(t, root, net, mark)
    ensures now == Rounds(net, mark, n) && Linked(t, now) && Clean(t, root, now, mark)
  {
    if n == 0 {
      now := net;
    } else {
      var before := RoundsClean(t, root, net, mark, n - 1);
      now := Rounds(net, mark, n);
      NextClean(t, root, before, now, mark);
      RoundsLinked(t, root, net, mark, n);
    }
  }

  lemma RoundsLinked(t: Infos, root: Key, net: Net, mark: Key -> Filter, n: nat)
    requires OneTree(t, root) && Linked(t, net) && InSync(t, net)
    ensures Linked(t, Rounds(net, mark, n))
  {
    RoundsReach(t, root, net, mark, n);
  }

  /** Nodes that have just met start clean. */
  lemma BlankClean(t: Infos, root: Key, net: Net, mark: Key -> Filter)
    requires OneTree(t, root) && Linked(t, net)
    requires forall u, v :: u in net && v in net[u] ==> net[u][v].send == {} && net[u][v].recv == {}
    ensures Clean(t, root, net, mark)
  {
    forall u, v | Adjacent(t, u, v)
      ensures EdgeClean(t, root, net, mark, u, v)
    {
      assert Adjacent(t, v, u);
    }
  }

  /** From clean filters, after as many rounds as any two nodes are apart, what a node holds over an edge is exactly the
      marks of the nodes on the far side. */
  lemma FiltersExact(t: Infos, root: Key, net: Net, mark: Key -> Filter, n: nat, u: Key, v: Key, b: nat)
    requires OneTree(t, root) && Linked(t, net) && InSync(t, net) && Clean(t, root, net, mark) && Adjacent(t, u, v)
    requires forall x :: x in t ==> TreeDist(t, u, x) < n
    ensures var now := Rounds(net, mark, n);
            v in now && u in now[v] && (b in now[v][u].recv <==> FromSide(t, root, mark, u, v, b))
  {
    RoundsReach(t, root, net, mark, n);
    var now := RoundsClean(t, root, net, mark, n);
    assert EdgeClean(t, root, now, mark, u, v);
    if FromSide(t, root, mark, u, v, b) {
      var x :| x in t && TreeDist(t, u, x) < TreeDist(t, v, x) && b in mark(x);
      assert Holds(now, v, u, mark(x));
    }
  }

  /** With clean filters a lookup crosses an edge only if every bit it asks for belongs to a node on the far side. */
  lemma LookupPruned(t: Infos, root: Key, net: Net, mark: Key -> Filter, u: Key, v: Key, from: Key, wanted: Filter, b: nat)
    requires OneTree(t, root) && Linked(t, net) && Clean(t, root, net, mark) && u in t
    requires v in Targets(net[u], from, wanted) && b in wanted
    ensures v in t && v != from && FromSide(t, root, mark, v, u, b)
  {
    assert Adjacent(t, u, v) && Adjacent(t, v, u);
    assert EdgeClean(t, root, net, mark, v, u);
  }
}
