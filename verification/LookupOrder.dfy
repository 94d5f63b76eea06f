/** When the next hop depends on the order in which links are visited. */
module LookupOrder {
  import opened Basics
  import opened Tree
  import opened Metric
  import opened RouterSpec
  import opened Forwarding
  import PeerPorts

  /** Link `p` is taken over link `b` when they meet in a scan. */
  ghost predicate Beats(v: View, path: seq<Port>, p: Entry, b: Entry) {
    Replaces(v.lags, p, DistOf(v, path, p.key), b, DistOf(v, path, b.key))
  }

  /** No two links have the same place in the order of connecting. */
  ghost predicate DistinctOrder(links: set<Entry>) {
    forall a, b :: a in links && b in links && a != b ==> a.order != b.order
  }

  /** A link to a closer peer that beats every other one. */
  ghost predicate Champion(v: View, path: seq<Port>, b: Entry) {
    b in Closer(v, path) && forall p :: p in Closer(v, path) && p != b ==> Beats(v, path, b, p)
  }

  /** All orders of visiting give the same next hop. */
  ghost predicate Determined(v: View, path: seq<Port>, wm: nat) {
    forall a, wa, b, wb :: LookupResult(v, path, wm, a, wa) && LookupResult(v, path, wm, b, wb) ==> a == b
  }

  function HandleOf(e: Entry): PeerPorts.Handle {
    PeerPorts.Handle(e.id, e.key, e.port, e.prio, e.order)
  }

  /** The numbers handed out to connections are distinct. */
  lemma AllocatedDistinct(v: View, path: seq<Port>, handles: map<Key, PeerPorts.Links>, order: nat)
    requires LinksExact(v.peers) && PeerPorts.Ordered(handles, order)
    requires forall e :: IsLink(v.peers, e) ==> PeerPorts.IsHandle(handles, HandleOf(e))
    ensures DistinctOrder(Closer(v, path))
  {
    forall a, b | a in Closer(v, path) && b in Closer(v, path) && a != b
      ensures a.order != b.order
    {
      CloserLinks(v, path, a);
      CloserLinks(v, path, b);
      assert HandleOf(a) != HandleOf(b);
    }
  }

  /** When links of different age meet: priority decides between links to one peer, and otherwise the better link wins. */
  lemma BeatsIs(v: View, path: seq<Port>, a: Entry, b: Entry)
    requires a.order != b.order
    ensures Beats(v, path, a, b) <==> if a.key == b.key && a.prio != b.prio then a.prio < b.prio else NoWorse(v, path, a, b)
  {
    SatMulIsProduct(LinkLatency(v.lags, a.id), DistOf(v, path, a.key));
    SatMulIsProduct(LinkLatency(v.lags, b.id), DistOf(v, path, b.key));
  }

  /** Of two links exactly one beats the other. */
  lemma BeatsTotal(v: View, path: seq<Port>, a: Entry, b: Entry)
    requires a.order != b.order
    ensures Beats(v, path, a, b) <==> !Beats(v, path, b, a)
  {
  }

  lemma {:induction false} ChampionWins(v: View, path: seq<Port>, links: seq<Entry>, b: Entry)
    requires b in links && forall p :: p in links && p != b ==> Beats(v, path, b, p) && p.order != b.order
    ensures Scan(v, path, links) == Some(b)
  {
    var init, last := links[..|links| - 1], Last(links);
    assert links == init + [last];
    ScanMember(v, path, init);
    if b in init {
      ChampionWins(v, path, init, b);
      if last != b {
        BeatsTotal(v, path, last, b);
      }
    } else if init != [] {
      assert Scan(v, path, init).value in links;
    }
  }

  lemma {:induction false} Enumerated(links: set<Entry>) returns (order: seq<Entry>)
    ensures Enumerates(order, links)
    decreases |links|
  {
    if links == {} {
      order := [];
    } else {
      var e :| e in links;
      order := Enumerated(links - {e});
      order := order + [e];
    }
  }

  /** Some lookup visits a given link last. */
  lemma VisitedLast(v: View, path: seq<Port>, wm: nat, p: Entry) returns (init: seq<Entry>)
    requires DistOf(v, path, v.self) < wm && p in Closer(v, path)
    ensures p !in init && Enumerates(init + [p], Closer(v, path))
    ensures LookupResult(v, path, wm, Scan(v, path, init + [p]), DistOf(v, path, v.self))
  {
    init := Enumerated(Closer(v, path) - {p});
    assert Enumerates(init + [p], Closer(v, path));
  }

  /** If all lookups choose `b`, then it beats every other link: even one that is visited last. */
  lemma DeterminedBeats(v: View, path: seq<Port>, wm: nat, b: Entry, p: Entry)
    requires DistOf(v, path, v.self) < wm && DistinctOrder(Closer(v, path)) && Determined(v, path, wm)
    requires LookupResult(v, path, wm, Some(b), DistOf(v, path, v.self))
    requires b in Closer(v, path) && p in Closer(v, path) && p != b
    ensures Beats(v, path, b, p)
  {
    var init := VisitedLast(v, path, wm, p);
    assert Scan(v, path, init + [p]) == Some(b);
    assert (init + [p])[..|init|] == init;
    BeatsTotal(v, path, b, p);
  }

  /** The next hop does not depend on the order of visiting exactly when one link beats all others. */
  lemma DeterminedIffChampion(v: View, path: seq<Port>, wm: nat)
    requires DistOf(v, path, v.self) < wm && Closer(v, path) != {} && DistinctOrder(Closer(v, path))
    ensures Determined(v, path, wm) <==> exists b :: Champion(v, path, b)
  {
    if b :| Champion(v, path, b) {
      forall a, wa | LookupResult(v, path, wm, a, wa)
        ensures a == Some(b)
      {
        var order :| Enumerates(order, Closer(v, path)) && a == Scan(v, path, order);
        ChampionWins(v, path, order, b);
      }
    }
    if Determined(v, path, wm) {
      var order := Enumerated(Closer(v, path));
      ScanMember(v, path, order);
      var e :| e in Closer(v, path);
      assert e in order;
      var b := Scan(v, path, order).value;
      forall p | p in Closer(v, path) && p != b
        ensures Beats(v, path, b, p)
      {
        DeterminedBeats(v, path, wm, b, p);
      }
      assert Champion(v, path, b);
    }
  }

  /** Without a closer peer, or below the watermark, there is one result in any case. */
  lemma NoHopDetermined(v: View, path: seq<Port>, wm: nat)
    requires DistOf(v, path, v.self) >= wm || Closer(v, path) == {}
    ensures Determined(v, path, wm)
  {
    forall a, wa | LookupResult(v, path, wm, a, wa)
      ensures a == None
    {
      LookupPicksCloser(v, path, wm, a, wa);
    }
  }

  /** One priority per key is enough. */
  lemma UniformPrioDetermined(v: View, path: seq<Port>, wm: nat)
    requires UniformPrio(Closer(v, path)) && DistinctOrder(Closer(v, path))
    ensures Determined(v, path, wm)
  {
    forall a, wa, b, wb | LookupResult(v, path, wm, a, wa) && LookupResult(v, path, wm, b, wb)
      ensures a == b
    {
      LookupPicksCloser(v, path, wm, a, wa);
      LookupPicksCloser(v, path, wm, b, wb);
      if a.Some? {
        LookupPicksBest(v, path, wm, a.value, wa, b.value);
        LookupPicksBest(v, path, wm, b.value, wb, a.value);
      }
    }
  }

  lemma ScanThree(v: View, path: seq<Port>, a: Entry, b: Entry, c: Entry)
    ensures var w := if Beats(v, path, b, a) then b else a;
            Scan(v, path, [a, b, c]) == Some(if Beats(v, path, c, w) then c else w)
  {
    assert [a, b, c][..2] == [a, b] && [a, b][..1] == [a] && [a][..0] == [];
    assert Scan(v, path, [a]) == Some(a);
  }

  lemma EnumeratesThree(a: Entry, b: Entry, c: Entry, links: set<Entry>)
    requires a != b && b != c && c != a && links == {a, b, c}
    ensures Enumerates([a, b, c], links)
  {
  }

  /** Three links that beat each other in a circle give two results. */
  lemma CircleUndetermined(v: View, path: seq<Port>, wm: nat, a: Entry, b: Entry, c: Entry)
    requires a != b && b != c && c != a && Closer(v, path) == {a, b, c} && DistOf(v, path, v.self) < wm
    requires Beats(v, path, a, b) && Beats(v, path, b, c) && Beats(v, path, c, a)
    requires !Beats(v, path, b, a) && !Beats(v, path, a, c)
    ensures LookupResult(v, path, wm, Some(c), DistOf(v, path, v.self))
    ensures LookupResult(v, path, wm, Some(b), DistOf(v, path, v.self))
    ensures !Determined(v, path, wm)
  {
    ScanThree(v, path, a, b, c);
    ScanThree(v, path, c, a, b);
    EnumeratesThree(a, b, c, Closer(v, path));
    EnumeratesThree(c, a, b, Closer(v, path));
    assert LookupResult(v, path, wm, Some(c), DistOf(v, path, v.self));
    assert LookupResult(v, path, wm, Some(b), DistOf(v, path, v.self));
  }

  /** Between links to different keys the smaller product of latency and distance wins. */
  lemma CheaperBeats(v: View, path: seq<Port>, p: Entry, b: Entry, d: nat, e: nat)
    requires p.key != b.key && DistOf(v, path, p.key) == d && DistOf(v, path, b.key) == e
    requires SatMul(LinkLatency(v.lags, p.id), d) < SatMul(LinkLatency(v.lags, b.id), e)
    ensures Beats(v, path, p, b) && !Beats(v, path, b, p)
  {
  }

  // ---------------------------------------------------------------------------
  // A node whose next hop depends on the order
  // ---------------------------------------------------------------------------

  // The root, node 0, has two children: this node, 1, and node 2. There are two links to the root, the preferred
  // one the slower, and one link to node 2.

  function Child(port: Port): Info {
    Info(0, 1, 1, port, 0, 0)
  }

  const TREE: Infos := map[0 := Child(0), 1 := Child(8), 2 := Child(7)]
  const TARGET: seq<Port> := [7, 7]
  const PREFERRED := Entry(1, 0, 1, 0, 1)
  const BACKUP := Entry(2, 0, 1, 1, 2)
  const OTHER := Entry(3, 2, 2, 0, 3)

  const PEERS: map<Key, map<PeerId, Entry>> := map[0 := map[1 := PREFERRED, 2 := BACKUP], 2 := map[3 := OTHER]]

  /** Latencies of two, one and three milliseconds. */
  const LAGS: map<PeerId, nat> := map[1 := 2_000_000, 2 := 1_000_000, 3 := 3_000_000]

  const NODE := View(1, TREE, PEERS, LAGS)

  lemma CoordsOfRoot()
    ensures Rooted(TREE, 0) && RootOf(TREE, 0) == 0 && CoordsOf(TREE, 0) == []
  {
    RootedParent(TREE, 0);
  }

  lemma CoordsOfChild(k: Key)
    requires k == 1 || k == 2
    ensures Rooted(TREE, k) && RootOf(TREE, k) == 0 && CoordsOf(TREE, k) == [TREE[k].port]
  {
    CoordsOfRoot();
    RootedBelow(TREE, k);
  }

  lemma Distances()
    ensures DistOf(NODE, TARGET, 0) == 2 && DistOf(NODE, TARGET, 1) == 3 && DistOf(NODE, TARGET, 2) == 1
  {
    CoordsOfRoot();
    CoordsOfChild(1);
    CoordsOfChild(2);
    CommonIs([], TARGET, 0);
    CommonIs([8], TARGET, 0);
    CommonIs([7], TARGET, 1);
  }

  lemma PeersExact()
    ensures LinksExact(PEERS)
  {
    assert 1 in PEERS[0] && 3 in PEERS[2];
  }

  lemma LinksAre(e: Entry)
    ensures IsLink(PEERS, e) <==> e in {PREFERRED, BACKUP, OTHER}
  {
  }

  lemma CloserAre()
    ensures LinksExact(PEERS) && Closer(NODE, TARGET) == {PREFERRED, BACKUP, OTHER}
  {
    Distances();
    PeersExact();
    forall e
      ensures e in Closer(NODE, TARGET) <==> e in {PREFERRED, BACKUP, OTHER}
    {
      CloserLinks(NODE, TARGET, e);
      LinksAre(e);
    }
  }

  lemma Latencies()
    ensures LinkLatency(LAGS, 1) == 2 && LinkLatency(LAGS, 2) == 1 && LinkLatency(LAGS, 3) == 3
  {
  }

  lemma Costs()
    ensures SatMul(1, 2) == 2 && SatMul(3, 1) == 3 && SatMul(2, 2) == 4
  {
    SatMulIsProduct(1, 2);
    SatMulIsProduct(3, 1);
    SatMulIsProduct(2, 2);
  }

  lemma Contest()
    ensures Beats(NODE, TARGET, PREFERRED, BACKUP) && Beats(NODE, TARGET, BACKUP, OTHER) && Beats(NODE, TARGET, OTHER, PREFERRED)
    ensures !Beats(NODE, TARGET, BACKUP, PREFERRED) && !Beats(NODE, TARGET, PREFERRED, OTHER)
  {
    Distances();
    Latencies();
    Costs();
    CheaperBeats(NODE, TARGET, BACKUP, OTHER, 2, 1);
    CheaperBeats(NODE, TARGET, OTHER, PREFERRED, 1, 2);
  }

  lemma OrdersDiffer()
    ensures DistinctOrder({PREFERRED, BACKUP, OTHER})
  {
  }

  /** The preferred link keeps its sibling out when it is met first, and does not when the third link has
      displaced it: two lookups of the same node for the same message go different ways. */
  lemma LookupOrderMatters()
    ensures LinksExact(NODE.peers) && DistinctOrder(Closer(NODE, TARGET))
    ensures var d := DistOf(NODE, TARGET, NODE.self);
            LookupResult(NODE, TARGET, U64_MAX, Some(OTHER), d) && LookupResult(NODE, TARGET, U64_MAX, Some(BACKUP), d)
    ensures !Determined(NODE, TARGET, U64_MAX)
  {
    Distances();
    CloserAre();
    Contest();
    OrdersDiffer();
    CircleUndetermined(NODE, TARGET, U64_MAX, PREFERRED, BACKUP, OTHER);
  }
}
