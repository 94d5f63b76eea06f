/** Greedy routing over a network whose nodes agree on one tree. */
module Greedy {
  import opened Basics
  import opened Tree
  import opened Metric
  import opened RouterSpec
  import opened Forwarding

  /** Node `u` knows the true ancestry of `k`. */
  ghost predicate Knows(v: View, t: Infos, k: Key) {
    && k in t && Rooted(t, k)
    && forall a :: a in ChainOf(t, k) ==>
         && a in v.infos && a in t
         && v.infos[a].parent == t[a].parent && v.infos[a].port == t[a].port
  }

  /** One tree spans the network; each node knows the ancestries of itself and of its peers, and is
      linked to its parent and its children. */
  ghost predicate Converged(t: Infos, root: Key, net: map<Key, View>) {
    && OneTree(t, root)
    && |t| < 0x4000_0000_0000_0000
    && net.Keys == t.Keys
    && forall u :: u in net ==> NodeConverged(t, net[u], u)
  }

  ghost predicate NodeConverged(t: Infos, v: View, u: Key) {
    && v.self == u
    && Knows(v, t, u)
    && LinksExact(v.peers)
    && (forall p :: p in v.peers ==> Knows(v, t, p))
    && (forall w :: Adjacent(t, u, w) ==> w in v.peers)
  }

  /** The network in which every node knows the whole tree and has one link to each neighbour. */
  ghost function NetOf(t: Infos): map<Key, View> {
    map u | u in t :: View(u, t, map w | w in t && Adjacent(t, u, w) :: map[0 := Entry(0, w, 0, 0, 0)], map[])
  }

  /** Every tree is that of a converged network. */
  lemma EveryTreeConverges(t: Infos, root: Key)
    requires OneTree(t, root) && |t| < 0x4000_0000_0000_0000
    ensures Converged(t, root, NetOf(t))
  {
    forall u | u in t
      ensures NodeConverged(t, NetOf(t)[u], u)
    {
      var v := NetOf(t)[u];
      forall k | k in t
        ensures Knows(v, t, k)
      {
        ChainNoDup(t, ChainOf(t, k));
      }
      forall p | p in v.peers
        ensures exists id :: id in v.peers[p]
      {
        var id: PeerId := 0;
        assert id in v.peers[p];
      }
    }
  }

  /** What a converged node computes is the distance in the shared tree. */
  lemma KnownDist(t: Infos, root: Key, v: View, k: Key, dest: Key)
    requires OneTree(t, root) && Knows(v, t, v.self) && Knows(v, t, k) && dest in t
    ensures DistOf(v, CoordsOf(t, dest), k) == TreeDist(t, k, dest)
  {
    KnownChain(t, v, k);
    KnownChain(t, v, v.self);
  }

  lemma KnownChain(t: Infos, v: View, k: Key)
    requires Knows(v, t, k)
    ensures Rooted(v.infos, k) && RootOf(v.infos, k) == RootOf(t, k) && CoordsOf(v.infos, k) == CoordsOf(t, k)
  {
    var c := ChainOf(t, k);
    ChainTransfer(t, v.infos, c);
    assert ChainFrom(v.infos, k, c);
    ChainUnique(v.infos, c, ChainOf(v.infos, k));
  }

  lemma DistBounded(t: Infos, u: Key, w: Key)
    requires Rooted(t, u) && Rooted(t, w)
    ensures TreeDist(t, u, w) < 2 * |t|
  {
    ChainNoDup(t, ChainOf(t, u));
    ChainNoDup(t, ChainOf(t, w));
    NoDupBound(ChainOf(t, u), t.Keys);
    NoDupBound(ChainOf(t, w), t.Keys);
    assert |t| == |t.Keys|;
  }

  lemma ViewDist(t: Infos, root: Key, net: map<Key, View>, u: Key, k: Key, dest: Key)
    requires Converged(t, root, net) && u in t && dest in t && (k == u || k in net[u].peers)
    ensures k in t && net[u].self == u
    ensures DistOf(net[u], CoordsOf(t, dest), k) == TreeDist(t, k, dest)
  {
    assert NodeConverged(t, net[u], u);
    KnownDist(t, root, net[u], k, dest);
  }

  lemma CloserByPeer(v: View, path: seq<Port>, w: Key)
    requires LinksExact(v.peers) && w in v.peers && DistOf(v, path, w) < DistOf(v, path, v.self)
    ensures Closer(v, path) != {}
  {
    var id :| id in v.peers[w];
    assert v.peers[w][id] in Closer(v, path);
  }

  lemma CloserExists(t: Infos, root: Key, net: map<Key, View>, u: Key, dest: Key)
    requires Converged(t, root, net) && u in t && dest in t && u != dest
    ensures Closer(net[u], CoordsOf(t, dest)) != {}
  {
    var w := NextHop(t, root, u, dest);
    assert NodeConverged(t, net[u], u);
    ViewDist(t, root, net, u, u, dest);
    ViewDist(t, root, net, u, w, dest);
    CloserByPeer(net[u], CoordsOf(t, dest), w);
  }

  lemma CloserIs(t: Infos, root: Key, net: map<Key, View>, u: Key, dest: Key, e: Entry)
    requires Converged(t, root, net) && u in t && dest in t && e in Closer(net[u], CoordsOf(t, dest))
    ensures e.key in t && e.key in net[u].peers && e.id in net[u].peers[e.key]
    ensures TreeDist(t, e.key, dest) < TreeDist(t, u, dest)
  {
    assert NodeConverged(t, net[u], u);
    ViewDist(t, root, net, u, u, dest);
    ViewDist(t, root, net, u, e.key, dest);
  }

  /** At a node other than the target, every result of `lookup` forwards the packet to a node of
      the network strictly closer to the target, with a watermark that node will accept. */
  lemma HopProgress(t: Infos, root: Key, net: map<Key, View>, u: Key, dest: Key, wm: nat, res: Option<Entry>, wm': nat)
    requires Converged(t, root, net) && u in t && dest in t && u != dest
    requires wm > TreeDist(t, u, dest)
    requires LookupResult(net[u], CoordsOf(t, dest), wm, res, wm')
    ensures res.Some? && res.value.key in t
    ensures res.value.key in net[u].peers && res.value.id in net[u].peers[res.value.key]
    ensures TreeDist(t, res.value.key, dest) < wm' == TreeDist(t, u, dest)
  {
    ViewDist(t, root, net, u, u, dest);
    CloserExists(t, root, net, u, dest);
    LookupPicksCloser(net[u], CoordsOf(t, dest), wm, res, wm');
    CloserIs(t, root, net, u, dest, res.value);
  }

  /** At the target there is no next hop, so the packet is delivered. */
  lemma TargetDelivers(t: Infos, root: Key, net: map<Key, View>, dest: Key, wm: nat, res: Option<Entry>, wm': nat)
    requires Converged(t, root, net) && dest in t
    requires LookupResult(net[dest], CoordsOf(t, dest), wm, res, wm')
    ensures res == None
  {
    ViewDist(t, root, net, dest, dest, dest);
    DistMetric(CoordsOf(t, dest), CoordsOf(t, dest), []);
    LookupPicksCloser(net[dest], CoordsOf(t, dest), wm, res, wm');
  }

  // ---------------------------------------------------------------------------
  // Whole journeys
  // ---------------------------------------------------------------------------

  /** A packet for `dest` started at `route[0]` with the initial watermark and was forwarded along
      `route`; `wms[i]` is the watermark with which it arrived at `route[i]`. */
  ghost predicate Journey(t: Infos, net: map<Key, View>, dest: Key, route: seq<Key>, wms: seq<nat>)
    requires dest in t && Rooted(t, dest)
  {
    && |route| == |wms| > 0
    && route[0] in net
    && wms[0] == U64_MAX
    && forall i {:trigger HopAt(t, net, dest, route, wms, i)} :: 0 <= i < |route| - 1 ==> HopAt(t, net, dest, route, wms, i)
  }

  ghost predicate HopAt(t: Infos, net: map<Key, View>, dest: Key, route: seq<Key>, wms: seq<nat>, i: nat)
    requires dest in t && Rooted(t, dest)
  {
    && i + 1 < |route| == |wms| && route[i] in net
    && exists e :: LookupResult(net[route[i]], CoordsOf(t, dest), wms[i], Some(e), wms[i + 1]) && e.key == route[i + 1]
  }

  /** The packet arrived at `route[i]` closer to its target by a step for each hop, and with a
      watermark above the node's own distance. */
  ghost predicate OnCourse(t: Infos, dest: Key, route: seq<Key>, wms: seq<nat>, i: nat) {
    && i < |route| == |wms|
    && dest in t && Rooted(t, dest)
    && route[0] in t && Rooted(t, route[0])
    && route[i] in t && Rooted(t, route[i])
    && TreeDist(t, route[i], dest) + i <= TreeDist(t, route[0], dest)
    && TreeDist(t, route[i], dest) < wms[i]
  }

  lemma HopKeepsCourse(t: Infos, root: Key, net: map<Key, View>, dest: Key, route: seq<Key>, wms: seq<nat>, i: nat)
    requires Converged(t, root, net) && dest in t && HopAt(t, net, dest, route, wms, i)
    requires OnCourse(t, dest, route, wms, i)
    ensures route[i] != dest
    ensures OnCourse(t, dest, route, wms, i + 1)
  {
    var e :| LookupResult(net[route[i]], CoordsOf(t, dest), wms[i], Some(e), wms[i + 1]) && e.key == route[i + 1];
    if route[i] == dest {
      TargetDelivers(t, root, net, dest, wms[i], Some(e), wms[i + 1]);
    } else {
      HopProgress(t, root, net, route[i], dest, wms[i], Some(e), wms[i + 1]);
    }
  }

  lemma StartOnCourse(t: Infos, root: Key, net: map<Key, View>, dest: Key, route: seq<Key>, wms: seq<nat>)
    requires Converged(t, root, net) && dest in t && Journey(t, net, dest, route, wms)
    ensures OnCourse(t, dest, route, wms, 0)
  {
    DistBounded(t, route[0], dest);
  }

  lemma JourneyOnCourse(t: Infos, root: Key, net: map<Key, View>, dest: Key, route: seq<Key>, wms: seq<nat>, i: nat)
    requires Converged(t, root, net) && dest in t && Journey(t, net, dest, route, wms) && i < |route|
    ensures OnCourse(t, dest, route, wms, i)
  {
    StartOnCourse(t, root, net, dest, route, wms);
    var k := 0;
    while k < i
      invariant k <= i && OnCourse(t, dest, route, wms, k)
    {
      assert HopAt(t, net, dest, route, wms, k);
      HopKeepsCourse(t, root, net, dest, route, wms, k);
      k := k + 1;
    }
  }

  lemma JourneyAvoidsTarget(t: Infos, root: Key, net: map<Key, View>, dest: Key, route: seq<Key>, wms: seq<nat>, i: nat)
    requires Converged(t, root, net) && dest in t && Journey(t, net, dest, route, wms) && i < |route| - 1
    ensures route[i] != dest
  {
    JourneyOnCourse(t, root, net, dest, route, wms, i);
    assert HopAt(t, net, dest, route, wms, i);
    HopKeepsCourse(t, root, net, dest, route, wms, i);
  }

  lemma JourneyExtends(t: Infos, net: map<Key, View>, dest: Key, route: seq<Key>, wms: seq<nat>, n: nat, e: Entry, wm': nat)
    requires dest in t && Rooted(t, dest) && Journey(t, net, dest, route, wms) && |route| == n + 1 && route[n] in net
    requires LookupResult(net[route[n]], CoordsOf(t, dest), wms[n], Some(e), wm')
    ensures Journey(t, net, dest, route + [e.key], wms + [wm'])
  {
    var route', wms' := route + [e.key], wms + [wm'];
    forall i | 0 <= i < |route'| - 1
      ensures HopAt(t, net, dest, route', wms', i)
    {
      if i < n {
        assert HopAt(t, net, dest, route, wms, i);
      }
    }
  }

  lemma JourneyBounded(t: Infos, root: Key, net: map<Key, View>, dest: Key, route: seq<Key>, wms: seq<nat>, n: nat)
    requires Converged(t, root, net) && dest in t && Journey(t, net, dest, route, wms) && |route| == n + 1
    ensures n <= TreeDist(t, route[0], dest)
    ensures forall i :: 0 <= i < n ==> route[i] != dest
  {
    JourneyOnCourse(t, root, net, dest, route, wms, n);
    forall i | 0 <= i < n
      ensures route[i] != dest
    {
      JourneyAvoidsTarget(t, root, net, dest, route, wms, i);
    }
  }

  lemma LastHop(t: Infos, root: Key, net: map<Key, View>, dest: Key, u: Key, wm: nat, res: Option<Entry>, wm': nat)
    requires Converged(t, root, net) && dest in t && u in t && wm > TreeDist(t, u, dest)
    requires LookupResult(net[u], CoordsOf(t, dest), wm, res, wm')
    ensures res == None <==> u == dest
  {
    if u == dest {
      TargetDelivers(t, root, net, dest, wm, res, wm');
    } else {
      HopProgress(t, root, net, u, dest, wm, res, wm');
    }
  }

  /** What becomes of a packet at `u` whose watermark is above the node's distance. */
  lemma Handled(t: Infos, root: Key, net: map<Key, View>, dest: Key, u: Key, wm: nat, out: Outcome)
    requires Converged(t, root, net) && dest in t && u in t && wm > TreeDist(t, u, dest)
    requires RouteResult(net[u], CoordsOf(t, dest), dest, wm, out)
    ensures out.Arrived? <==> u == dest
    ensures out.Forward? <==> u != dest
    ensures out.Forward? ==> LookupResult(net[u], CoordsOf(t, dest), wm, Some(out.link), out.watermark)
  {
    var res: Option<Entry>, wm' :|
      && LookupResult(net[u], CoordsOf(t, dest), wm, res, wm')
      && out == match res
                case Some(e) => Forward(e, wm')
                case None => if dest == net[u].self then Arrived else Lost;
    LastHop(t, root, net, dest, u, wm, res, wm');
    assert NodeConverged(t, net[u], u);
  }

  lemma JourneyHandled(t: Infos, root: Key, net: map<Key, View>, dest: Key, route: seq<Key>, wms: seq<nat>, n: nat, out: Outcome)
    requires Converged(t, root, net) && dest in t && Journey(t, net, dest, route, wms) && n < |route| && route[n] in net
    requires RouteResult(net[route[n]], CoordsOf(t, dest), dest, wms[n], out)
    ensures out.Arrived? <==> route[n] == dest
    ensures out.Forward? <==> route[n] != dest
    ensures out.Forward? ==> LookupResult(net[route[n]], CoordsOf(t, dest), wms[n], Some(out.link), out.watermark)
  {
    JourneyOnCourse(t, root, net, dest, route, wms, n);
    Handled(t, root, net, dest, route[n], wms[n], out);
  }

  /** Greedy delivery. From every start node, whatever ties are broken however: after `n` hops, which are at
      most as many as the tree distance, a packet that is not yet at its target is forwarded and the journey
      goes on; at the target it is delivered; and it is never lost. */
  lemma GreedyDelivery(t: Infos, root: Key, net: map<Key, View>, dest: Key, route: seq<Key>, wms: seq<nat>, n: nat, out: Outcome)
    requires Converged(t, root, net) && dest in t && Journey(t, net, dest, route, wms) && |route| == n + 1 && route[n] in net
    requires RouteResult(net[route[n]], CoordsOf(t, dest), dest, wms[n], out)
    ensures n <= TreeDist(t, route[0], dest)
    ensures forall i :: 0 <= i < n ==> route[i] != dest
    ensures out.Arrived? <==> route[n] == dest
    ensures out.Forward? <==> route[n] != dest
    ensures out.Forward? ==> Journey(t, net, dest, route + [out.link.key], wms + [out.watermark])
  {
    JourneyBounded(t, root, net, dest, route, wms, n);
    JourneyHandled(t, root, net, dest, route, wms, n, out);
    if out.Forward? {
      JourneyExtends(t, net, dest, route, wms, n, out.link, out.watermark);
    }
  }
}
