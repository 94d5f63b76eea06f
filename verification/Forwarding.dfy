/** Greedy next-hop choice of a single node, specified on what the node knows. */
module Forwarding {
  import opened Basics
  import opened Tree
  import opened Metric
  import opened RouterSpec

  /** Distance of node `k` from the target coordinates, as a node named `self` judges it. Failed
      walks and foreign roots count as infinitely far. */
  ghost function DistFrom(infos: Infos, self: Key, path: seq<Port>, k: Key): nat {
    if Rooted(infos, k) && Rooted(infos, self) && RootOf(infos, k) == RootOf(infos, self)
    then Dist(CoordsOf(infos, k), path)
    else U64_MAX
  }

  /** The test `get_dist` applies to a cached walk tells failed walks from roots exactly. */
  lemma SelfParentTestExact(infos: Infos, k: Key)
    ensures var r := PathOf(infos, k).root;
            r in infos && infos[r].parent == r <==> Rooted(infos, k)
  {
    if Rooted(infos, k) {
      var c := ChainOf(infos, k);
      ChainSuffix(infos, c, |c| - 1);
    } else if k in infos {
      RootedParent(infos, k);
    }
  }

  /** Comparing cached roots decides whether coordinates are comparable. */
  lemma RootTestExact(infos: Infos, self: Key, k: Key)
    requires Rooted(infos, k)
    ensures PathOf(infos, k).root == PathOf(infos, self).root <==> Rooted(infos, self) && RootOf(infos, k) == RootOf(infos, self)
  {
    SelfParentTestExact(infos, k);
    SelfParentTestExact(infos, self);
  }

  // ---------------------------------------------------------------------------
  // Choosing among closer peers
  // ---------------------------------------------------------------------------

  /** What a node knows when it forwards. */
  datatype View = View(self: Key, infos: Infos, peers: map<Key, map<PeerId, Entry>>, lags: map<PeerId, nat>)

  ghost function DistOf(v: View, path: seq<Port>, k: Key): nat {
    DistFrom(v.infos, v.self, path, k)
  }

  /** Links to peers strictly closer to the target than this node. */
  ghost function Closer(v: View, path: seq<Port>): set<Entry> {
    set k, id | k in v.peers && id in v.peers[k] && DistOf(v, path, k) < DistOf(v, path, v.self) :: v.peers[k][id]
  }

  /** `e` is one of our links. */
  predicate IsLink(peers: map<Key, map<PeerId, Entry>>, e: Entry) {
    e.key in peers && e.id in peers[e.key] && peers[e.key][e.id] == e
  }

  lemma CloserLinks(v: View, path: seq<Port>, e: Entry)
    requires LinksExact(v.peers)
    ensures e in Closer(v, path) <==> IsLink(v.peers, e) && DistOf(v, path, e.key) < DistOf(v, path, v.self)
  {
  }

  /** Whether link `p`, at distance `d`, replaces the best link so far, at distance `bd`. */
  predicate Replaces(lags: map<PeerId, nat>, p: Entry, d: nat, b: Entry, bd: nat) {
    var cost, bcost := LinkLatency(lags, p.id), LinkLatency(lags, b.id);
    if p.key == b.key && p.prio < b.prio then true
    else if p.key == b.key && p.prio > b.prio then false
    else if SatMul(cost, d) != SatMul(bcost, bd) then SatMul(cost, d) < SatMul(bcost, bd)
    else if d != bd then d < bd
    else if cost != bcost then cost < bcost
    else p.order < b.order
  }

  ghost function Scan(v: View, path: seq<Port>, links: seq<Entry>): Option<Entry> {
    if links == [] then None
    else
      var p := Last(links);
      match Scan(v, path, links[..|links| - 1])
      case None => Some(p)
      case Some(b) =>
        if Replaces(v.lags, p, DistOf(v, path, p.key), b, DistOf(v, path, b.key)) then Some(p) else Some(b)
  }

  ghost predicate Enumerates(order: seq<Entry>, links: set<Entry>) {
    NoDup(order) && forall e :: e in order <==> e in links
  }

  lemma EnumeratesCloser(v: View, path: seq<Port>, links: seq<Entry>)
    requires LinksExact(v.peers) && NoDup(links)
    requires forall e :: e in links <==> IsLink(v.peers, e) && DistOf(v, path, e.key) < DistOf(v, path, v.self)
    ensures Enumerates(links, Closer(v, path))
  {
    forall e
      ensures e in links <==> e in Closer(v, path)
    {
      CloserLinks(v, path, e);
    }
  }

  /** Result of `lookup` on a message with watermark `wm`, for some order of visiting the links. */
  ghost predicate LookupResult(v: View, path: seq<Port>, wm: nat, res: Option<Entry>, wm': nat) {
    var d := DistOf(v, path, v.self);
    if d >= wm then res == None && wm' == wm
    else wm' == d && exists order :: Enumerates(order, Closer(v, path)) && res == Scan(v, path, order)
  }

  lemma {:induction false} ScanMember(v: View, path: seq<Port>, links: seq<Entry>)
    ensures Scan(v, path, links) == None <==> links == []
    ensures links != [] ==> Scan(v, path, links).value in links
  {
    if links == [] {
    } else {
      ScanMember(v, path, links[..|links| - 1]);
    }
  }

  /** The next hop is a strictly closer peer, and there is none only when no peer is closer. */
  lemma LookupPicksCloser(v: View, path: seq<Port>, wm: nat, res: Option<Entry>, wm': nat)
    requires LookupResult(v, path, wm, res, wm')
    ensures res.Some? ==> res.value in Closer(v, path) && wm' == DistOf(v, path, v.self) < wm
    ensures res == None <==> DistOf(v, path, v.self) >= wm || Closer(v, path) == {}
    ensures res == None ==> wm' == Min(wm, DistOf(v, path, v.self))
  {
    if DistOf(v, path, v.self) < wm {
      var order :| Enumerates(order, Closer(v, path)) && res == Scan(v, path, order);
      ScanMember(v, path, order);
      assert order != [] ==> order[0] in Closer(v, path);
    }
  }

  /** No key offers links of different priority. */
  ghost predicate UniformPrio(links: set<Entry>) {
    forall a, b :: a in links && b in links && a.key == b.key ==> a.prio == b.prio
  }

  lemma {:induction false} ScanMinimal(v: View, path: seq<Port>, links: seq<Entry>, p: Entry)
    requires p in links
    requires forall a, b :: a in links && b in links && a.key == b.key ==> a.prio == b.prio
    ensures Scan(v, path, links).Some?
    ensures var b := Scan(v, path, links).value;
            b in links && !Replaces(v.lags, p, DistOf(v, path, p.key), b, DistOf(v, path, b.key))
  {
    ScanMember(v, path, links);
    var init := links[..|links| - 1];
    assert links == init + [Last(links)];
    ScanMember(v, path, init);
    if init == [] {
    } else {
      if p in init {
        ScanMinimal(v, path, init, p);
      } else {
        ScanMinimal(v, path, init, init[0]);
      }
    }
  }

  /** Latency of a link in milliseconds, at least one. */
  ghost function Millis(lags: map<PeerId, nat>, id: PeerId): nat {
    Max(1, (if id in lags then lags[id] else UNKNOWN_LATENCY) / 1_000_000)
  }

  /** The product of latency and distance, as far as 64 bits reach. */
  ghost function Product(v: View, path: seq<Port>, e: Entry): int {
    Min(U64_MAX, Millis(v.lags, e.id) * DistOf(v, path, e.key))
  }

  /** Link `b` is no worse than `p` in latency times distance, then distance, then latency, then age. */
  ghost predicate NoWorse(v: View, path: seq<Port>, b: Entry, p: Entry) {
    && Product(v, path, b) <= Product(v, path, p)
    && (Product(v, path, b) == Product(v, path, p) ==> DistOf(v, path, b.key) <= DistOf(v, path, p.key))
    && (Product(v, path, b) == Product(v, path, p) && DistOf(v, path, b.key) == DistOf(v, path, p.key) ==>
          && Millis(v.lags, b.id) <= Millis(v.lags, p.id)
          && (Millis(v.lags, b.id) == Millis(v.lags, p.id) ==> b.order <= p.order))
  }

  lemma NotReplacedIsNoWorse(v: View, path: seq<Port>, b: Entry, p: Entry)
    requires p.key == b.key ==> p.prio == b.prio
    requires !Replaces(v.lags, p, DistOf(v, path, p.key), b, DistOf(v, path, b.key))
    ensures NoWorse(v, path, b, p)
  {
    SatMulIsProduct(LinkLatency(v.lags, b.id), DistOf(v, path, b.key));
    SatMulIsProduct(LinkLatency(v.lags, p.id), DistOf(v, path, p.key));
  }

  /** With one priority per key no closer link is better than the choice in latency times distance, then
      distance, then latency, then age. */
  lemma LookupPicksBest(v: View, path: seq<Port>, wm: nat, b: Entry, wm': nat, p: Entry)
    requires LookupResult(v, path, wm, Some(b), wm') && UniformPrio(Closer(v, path)) && p in Closer(v, path)
    ensures NoWorse(v, path, b, p)
  {
    var order :| Enumerates(order, Closer(v, path)) && Some(b) == Scan(v, path, order);
    ScanMinimal(v, path, order, p);
    NotReplacedIsNoWorse(v, path, b, p);
  }

  lemma {:induction false} ScanPriority(v: View, path: seq<Port>, links: seq<Entry>, p: Entry)
    requires p in links && forall a, b :: a in links && b in links ==> a.key == b.key
    ensures Scan(v, path, links).Some?
    ensures var b := Scan(v, path, links).value;
            b in links && b.prio <= p.prio && !Replaces(v.lags, p, DistOf(v, path, p.key), b, DistOf(v, path, b.key))
  {
    ScanMember(v, path, links);
    var init := links[..|links| - 1];
    assert links == init + [Last(links)];
    ScanMember(v, path, init);
    if init == [] {
    } else if p in init {
      ScanPriority(v, path, init, p);
    } else {
      ScanPriority(v, path, init, init[0]);
    }
  }

  /** Where all closer links lead to one peer, the smallest priority number is chosen, and among links of that
      priority the best one. */
  lemma LookupPicksPriority(v: View, path: seq<Port>, wm: nat, b: Entry, wm': nat, p: Entry)
    requires LookupResult(v, path, wm, Some(b), wm') && p in Closer(v, path)
    requires forall e, f :: e in Closer(v, path) && f in Closer(v, path) ==> e.key == f.key
    ensures b.prio <= p.prio
    ensures b.prio == p.prio ==> NoWorse(v, path, b, p)
  {
    var order :| Enumerates(order, Closer(v, path)) && Some(b) == Scan(v, path, order);
    ScanPriority(v, path, order, p);
    if b.prio == p.prio {
      NotReplacedIsNoWorse(v, path, b, p);
    }
  }

  /** What becomes of a message that steers towards coordinates and is meant for `target`. */
  datatype Outcome = Forward(link: Entry, watermark: nat) | Arrived | Lost

  ghost predicate RouteResult(v: View, path: seq<Port>, target: Key, wm: nat, out: Outcome) {
    exists res: Option<Entry>, wm' ::
      && LookupResult(v, path, wm, res, wm')
      && out == match res
                case Some(e) => Forward(e, wm')
                case None => if target == v.self then Arrived else Lost
  }

  // ---------------------------------------------------------------------------
  // Watermarks, with no assumption about what the nodes know
  // ---------------------------------------------------------------------------

  /** A message was forwarded by `views[0]`, then `views[1]`, and so on, with these watermarks. */
  ghost predicate Forwarded(path: seq<Port>, views: seq<View>, wms: seq<nat>) {
    && |wms| == |views| + 1
    && forall i :: 0 <= i < |views| ==> ForwardedAt(path, views, wms, i)
  }

  ghost predicate ForwardedAt(path: seq<Port>, views: seq<View>, wms: seq<nat>, i: nat) {
    i < |views| && i + 1 < |wms| && exists e :: LookupResult(views[i], path, wms[i], Some(e), wms[i + 1])
  }

  lemma {:induction false} WatermarkFalls(path: seq<Port>, views: seq<View>, wms: seq<nat>, i: nat)
    requires Forwarded(path, views, wms) && 1 <= i <= |views|
    ensures wms[i] + i <= wms[1] + 1
    ensures wms[i] < wms[i - 1]
  {
    assert ForwardedAt(path, views, wms, i - 1);
    var e :| LookupResult(views[i - 1], path, wms[i - 1], Some(e), wms[i]);
    LookupPicksCloser(views[i - 1], path, wms[i - 1], Some(e), wms[i]);
    if i <= 1 {
    } else {
      WatermarkFalls(path, views, wms, i - 1);
    }
  }

  /** A forwarder has a peer strictly closer than itself, so what it writes is not zero. */
  lemma WatermarkPositive(path: seq<Port>, views: seq<View>, wms: seq<nat>, i: nat)
    requires Forwarded(path, views, wms) && i < |views|
    ensures wms[i + 1] == DistOf(views[i], path, views[i].self) > 0
  {
    assert ForwardedAt(path, views, wms, i);
    var e :| LookupResult(views[i], path, wms[i], Some(e), wms[i + 1]);
    LookupPicksCloser(views[i], path, wms[i], Some(e), wms[i + 1]);
  }

  /** However inconsistent the nodes' views are, a message is forwarded at most `d` times, where `d` is the
      distance the first forwarder saw; a message with watermark 0 is never forwarded. */
  lemma ForwardingBounded(path: seq<Port>, views: seq<View>, wms: seq<nat>)
    requires Forwarded(path, views, wms) && views != []
    ensures wms[1] == DistOf(views[0], path, views[0].self)
    ensures |views| <= wms[1]
    ensures forall i :: 0 <= i < |views| ==> wms[i] > 0
  {
    WatermarkPositive(path, views, wms, 0);
    WatermarkPositive(path, views, wms, |views| - 1);
    WatermarkFalls(path, views, wms, |views|);
    forall i | 0 <= i < |views|
      ensures wms[i] > 0
    {
      WatermarkFalls(path, views, wms, i + 1);
    }
  }
}
