/** Every operation keeps the queue's representation, and what it does to each flow's packets. */
module QueueRep {
  import opened Basics
  import opened Wire
  import opened QueueSpec

  // ---------------------------------------------------------------------------
  // Sums over the ring
  // ---------------------------------------------------------------------------

  lemma {:induction false} SumSame(ring: seq<FlowKey>, w: FlowKey -> int, v: FlowKey -> int)
    requires forall k :: k in ring ==> w(k) == v(k)
    ensures Sum(ring, w) == Sum(ring, v)
  {
    if ring == [] {
    } else {
      SumSame(ring[..|ring| - 1], w, v);
    }
  }

  lemma SumMore(ring: seq<FlowKey>, w: FlowKey -> int, v: FlowKey -> int, k: FlowKey)
    requires forall j :: j in ring ==> w(j) == v(j)
    ensures Sum(ring + [k], v) == Sum(ring, w) + v(k)
  {
    assert (ring + [k])[..|ring + [k]| - 1] == ring;
    SumSame(ring, w, v);
  }

  lemma {:induction false} SumReplace(ring: seq<FlowKey>, w: FlowKey -> int, i: nat, k: FlowKey)
    requires i < |ring|
    ensures Sum(ring[i := k], w) == Sum(ring, w) - w(ring[i]) + w(k)
  {
    var n := |ring| - 1;
    if i == n {
      assert ring[i := k][..n] == ring[..n];
    } else {
      assert ring[i := k][..n] == ring[..n][i := k];
      SumReplace(ring[..n], w, i, k);
    }
  }

  /** The weights differ at one element only. */
  lemma {:induction false} SumChange(ring: seq<FlowKey>, w: FlowKey -> int, v: FlowKey -> int, i: nat)
    requires i < |ring| && forall j :: 0 <= j < |ring| && j != i ==> w(ring[j]) == v(ring[j])
    ensures Sum(ring, v) == Sum(ring, w) - w(ring[i]) + v(ring[i])
  {
    var n := |ring| - 1;
    if i == n {
      SumSame(ring[..n], w, v);
    } else {
      SumChange(ring[..n], w, v, i);
    }
  }

  /** Moving the last element into place `i` and dropping the end removes what was at `i`. */
  lemma SumSwapRemove(ring: seq<FlowKey>, w: FlowKey -> int, i: nat)
    requires i < |ring|
    ensures Sum(ring[i := Last(ring)][..|ring| - 1], w) == Sum(ring, w) - w(ring[i])
  {
    SumReplace(ring, w, i, Last(ring));
  }

  // ---------------------------------------------------------------------------
  // Leaving the ring
  // ---------------------------------------------------------------------------

  /** What taking a flow out does to the map and to the ring. */
  lemma VacateFlows(s: Queue, k: FlowKey)
    requires Ring(s.flows, s.active) && k in s.flows
    ensures var s', i, moved := Vacate(s, k), s.flows[k].index.value, Last(s.active);
            && s'.flows.Keys == s.flows.Keys - {k}
            && forall j :: j in s'.flows ==> s'.flows[j] == s.flows[j].(index := if j == moved then Some(i) else s.flows[j].index)
  {
  }

  lemma VacateActive(s: Queue, k: FlowKey)
    requires Ring(s.flows, s.active) && k in s.flows
    ensures var s', i := Vacate(s, k), s.flows[k].index.value;
            && |s'.active| == |s.active| - 1
            && forall j :: 0 <= j < |s'.active| ==> s'.active[j] == if j == i then Last(s.active) else s.active[j]
  {
  }

  /** `Vacate` keeps ring and back-indices inverse to each other. */
  lemma VacateRing(s: Queue, k: FlowKey)
    requires Ring(s.flows, s.active) && k in s.flows
    ensures var s' := Vacate(s, k); Ring(s'.flows, s'.active) && s'.flows.Keys == s.flows.Keys - {k}
    ensures forall j :: j in Vacate(s, k).flows ==> Vacate(s, k).flows[j] == s.flows[j].(index := Vacate(s, k).flows[j].index)
  {
    VacateFlows(s, k);
    VacateActive(s, k);
    RingMoved(s.flows, s.active, Vacate(s, k).flows, Vacate(s, k).active, k);
  }

  lemma RingMoved(flows: map<FlowKey, Flow>, active: seq<FlowKey>, flows': map<FlowKey, Flow>, active': seq<FlowKey>, k: FlowKey)
    requires Ring(flows, active) && k in flows && flows'.Keys == flows.Keys - {k} && |active'| == |active| - 1
    requires forall j :: j in flows' ==>
               flows'[j] == flows[j].(index := if j == Last(active) then flows[k].index else flows[j].index)
    requires forall j :: 0 <= j < |active'| ==> active'[j] == if j == flows[k].index.value then Last(active) else active[j]
    ensures Ring(flows', active')
  {
    var last := |active| - 1;
    assert flows[active[last]].index == Some(last);
    forall i | 0 <= i < |active'|
      ensures active'[i] in flows' && flows'[active'[i]].index == Some(i)
    {
      assert flows[active[i]].index == Some(i);
    }
  }

  lemma VacateCursor(s: Queue, k: FlowKey)
    requires Ring(s.flows, s.active) && k in s.flows && CursorOk(s)
    ensures CursorOk(Vacate(s, k))
    ensures Vacate(s, k).active == [] ==> Vacate(s, k).next == None
  {
  }

  /** The cursor stays at its flow; if that flow goes, it moves to the one that takes the place, or to the first if it was
      the last. */
  lemma VacateKeepsTurn(s: Queue, k: FlowKey)
    requires Ring(s.flows, s.active) && k in s.flows && CursorOk(s) && s.next.Some? && |s.active| > 1
    ensures var s', i := Vacate(s, k), s.next.value;
            && s'.next.Some? && s'.next.value < |s'.active|
            && s'.active[s'.next.value]
               == if s.active[i] != k then s.active[i] else if i == |s.active| - 1 then s'.active[0] else Last(s.active)
  {
    VacateActive(s, k);
    assert s.flows[s.active[s.next.value]].index == Some(s.next.value);
  }

  lemma VacateSums(s: Queue, k: FlowKey)
    requires Ring(s.flows, s.active) && k in s.flows && s.flows[k].infos == [] && s.flows[k].size == 0
    ensures var s' := Vacate(s, k);
            && Sum(s'.active, SizeIn(s'.flows)) == Sum(s.active, SizeIn(s.flows))
            && Sum(s'.active, CountIn(s'.flows)) == Sum(s.active, CountIn(s.flows))
  {
    var s', i := Vacate(s, k), s.flows[k].index.value;
    VacateRing(s, k);
    SumSwapRemove(s.active, SizeIn(s.flows), i);
    SumSwapRemove(s.active, CountIn(s.flows), i);
    SumSame(s'.active, SizeIn(s.flows), SizeIn(s'.flows));
    SumSame(s'.active, CountIn(s.flows), CountIn(s'.flows));
  }

  lemma {:induction false} BytesTail(infos: seq<Queued>)
    requires infos != []
    ensures Bytes(infos) == infos[0].size + Bytes(infos[1..])
  {
    var n := |infos| - 1;
    if n == 0 {
    } else {
      BytesTail(infos[..n]);
      assert infos[..n][1..] == infos[1..][..n - 1];
    }
  }

  // ---------------------------------------------------------------------------
  // Dropping a head
  // ---------------------------------------------------------------------------

  /** The queue between removing the head of flow `k` and forgetting an emptied flow. */
  lemma BeheadedSums(q: nat, s: Queue, k: FlowKey)
    requires Rep(s) && k in s.flows
    ensures var b := Beheaded(q, s, k);
            && b.size == Sum(b.active, SizeIn(b.flows)) && b.count == Sum(b.active, CountIn(b.flows))
            && Ring(b.flows, b.active) && b.flows[k].size == Bytes(b.flows[k].infos)
  {
    var b, i := Beheaded(q, s, k), s.flows[k].index.value;
    BytesTail(s.flows[k].infos);
    SumChange(s.active, SizeIn(s.flows), SizeIn(b.flows), i);
    SumChange(s.active, CountIn(s.flows), CountIn(b.flows), i);
  }

  lemma BeheadedFlows(q: nat, s: Queue, k: FlowKey)
    requires FlowsOk(s.flows) && k in s.flows
    ensures forall j :: j in s.flows && (j != k || |s.flows[k].infos| > 1) ==> FlowOk(j, Beheaded(q, s, k).flows[j])
  {
    BytesTail(s.flows[k].infos);
  }

  lemma VacateRep(s: Queue, k: FlowKey)
    requires Ring(s.flows, s.active) && CursorOk(s) && k in s.flows
    requires s.size == Sum(s.active, SizeIn(s.flows)) && s.count == Sum(s.active, CountIn(s.flows))
    requires s.flows[k].infos == [] && s.flows[k].size == 0
    requires forall j :: j in s.flows && j != k ==> FlowOk(j, s.flows[j])
    ensures Rep(Vacate(s, k))
  {
    VacateRing(s, k);
    VacateCursor(s, k);
    VacateSums(s, k);
  }

  /** Removing the head of a flow keeps the representation. */
  lemma DropHeadRep(q: nat, s: Queue, k: FlowKey)
    requires Rep(s) && k in s.flows
    ensures Rep(DropHead(q, s, k))
  {
    var b := Beheaded(q, s, k);
    BeheadedSums(q, s, k);
    BeheadedFlows(q, s, k);
    if |s.flows[k].infos| == 1 {
      VacateRep(b, k);
    }
  }

  /** It removes exactly that packet. */
  lemma DropHeadFifo(q: nat, s: Queue, k: FlowKey, j: FlowKey)
    requires Rep(s) && k in s.flows
    ensures Fifo(DropHead(q, s, k), j) == if j == k then Fifo(s, k)[1..] else Fifo(s, j)
    ensures DropHead(q, s, k).size == s.size - s.flows[k].infos[0].size
    ensures DropHead(q, s, k).count == s.count - 1
  {
    if |s.flows[k].infos| == 1 {
      BeheadedSums(q, s, k);
      VacateRing(Beheaded(q, s, k), k);
    }
  }

  // ---------------------------------------------------------------------------
  // Sizes
  // ---------------------------------------------------------------------------

  lemma {:induction false} BytesPositive(infos: seq<Queued>)
    requires forall p :: p in infos ==> p.size == WireSize(p.packet)
    ensures infos != [] ==> Bytes(infos) > 0
  {
    if infos == [] {
    } else {
      BytesPositive(infos[..|infos| - 1]);
      assert Last(infos) in infos;
    }
  }

  lemma {:induction false} SumPositive(ring: seq<FlowKey>, w: FlowKey -> int)
    requires forall k :: k in ring ==> w(k) > 0
    ensures Sum(ring, w) >= |ring|
  {
    if ring == [] {
    } else {
      SumPositive(ring[..|ring| - 1], w);
    }
  }

  /** Empty in bytes, empty in packets and empty ring are the same. */
  lemma EmptyAgree(s: Queue)
    requires Rep(s)
    ensures s.size >= |s.active| && s.count >= |s.active|
    ensures s.size == 0 <==> s.active == []
    ensures s.count == 0 <==> s.active == []
    ensures s.active == [] <==> s.flows == map[]
  {
    forall k | k in s.active
      ensures SizeIn(s.flows)(k) > 0 && CountIn(s.flows)(k) > 0
    {
      assert FlowOk(k, s.flows[k]);
      BytesPositive(s.flows[k].infos);
    }
    SumPositive(s.active, SizeIn(s.flows));
    SumPositive(s.active, CountIn(s.flows));
  }
}
