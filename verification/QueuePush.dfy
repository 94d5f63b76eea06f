/** Admitting a packet: eviction under the two byte caps, and what survives it. */
module QueuePush {
  import opened Basics
  import opened Wire
  import opened QueueSpec
  import opened QueueRep

  /** Evict the flow's own oldest packets until `size` more bytes fit its cap. */
  ghost function TrimFlow(q: nat, s: Queue, k: FlowKey, size: nat): (r: Queue)
    requires Rep(s)
    ensures Rep(r)
    decreases |Fifo(s, k)|
  {
    if k !in s.flows || s.flows[k].size + size <= PER_FLOW_MULTIPLIER * q then s
    else
      DropHeadRep(q, s, k);
      DropHeadFifo(q, s, k, k);
      TrimFlow(q, DropHead(q, s, k), k, size)
  }

  /** The flow that loses a packet next when the whole queue is too large. */
  ghost function Victim(s: Queue): (k: FlowKey)
    requires Rep(s) && s.active != []
    ensures k in s.flows
  {
    Largest(s.flows, s.active).value
  }

  /** Drop the oldest packet of the largest flow. */
  ghost function Evict(q: nat, s: Queue): (r: Queue)
    requires Rep(s) && s.active != []
    ensures Rep(r) && r.count == s.count - 1
  {
    DropHeadRep(q, s, Victim(s));
    DropHeadFifo(q, s, Victim(s), Victim(s));
    DropHead(q, s, Victim(s))
  }

  ghost predicate Crowded(q: nat, s: Queue, size: nat)
    requires Rep(s)
    ensures Crowded(q, s, size) ==> s.active != [] && s.count > 0
  {
    EmptyAgree(s);
    s.size + size > TOTAL_MULTIPLIER * q && s.size > 0
  }

  /** Evict from the largest flow until `size` more bytes fit the total cap. */
  ghost function TrimAll(q: nat, s: Queue, size: nat): (r: Queue)
    requires Rep(s)
    ensures Rep(r)
    decreases if s.count > 0 then s.count else 0
  {
    if Crowded(q, s, size) then TrimAll(q, Evict(q, s), size) else s
  }

  /** Append to a flow, which joins the end of the ring if it was not in it. */
  function Enqueue(s: Queue, k: FlowKey, info: Queued): Queue {
    var f := if k in s.flows then s.flows[k] else Flow([], 0, 0, None);
    var f' := f.(infos := f.infos + [info], size := f.size + info.size,
                 index := if f.index.None? then Some(|s.active|) else f.index);
    s.(flows := s.flows[k := f'],
       active := if f.index.None? then s.active + [k] else s.active,
       size := s.size + info.size,
       count := s.count + 1)
  }

  predicate Admitted(q: nat, p: Packet) {
    WireSize(p) <= TOTAL_MULTIPLIER * q && WireSize(p) <= PER_FLOW_MULTIPLIER * q
  }

  ghost function Trimmed(q: nat, s: Queue, p: Packet): (r: Queue)
    requires Rep(s)
    ensures Rep(r)
  {
    TrimAll(q, TrimFlow(q, s, KeyOf(p), WireSize(p)), WireSize(p))
  }

  ghost function Push(q: nat, s: Queue, p: Packet, now: int): Queue
    requires Rep(s)
  {
    if Admitted(q, p) then Enqueue(Trimmed(q, s, p), KeyOf(p), Queued(p, WireSize(p), now)) else s
  }

  // ---------------------------------------------------------------------------
  // Eviction
  // ---------------------------------------------------------------------------

  /** The victim has the most bytes of all flows and, of those with as many, the oldest head. */
  lemma {:induction false} LargestIsLargest(flows: map<FlowKey, Flow>, ring: seq<FlowKey>, k: FlowKey)
    requires forall j :: j in ring ==> j in flows && flows[j].infos != []
    requires k in ring
    ensures Largest(flows, ring).Some?
    ensures var victim := flows[Largest(flows, ring).value];
            && flows[k].size <= victim.size
            && (flows[k].size == victim.size ==> victim.infos[0].time <= flows[k].infos[0].time)
  {
    var init := ring[..|ring| - 1];
    assert ring == init + [Last(ring)];
    if k in init {
      LargestIsLargest(flows, init, k);
    }
    if init == [] {
    } else {
      assert init[0] in init;
    }
  }

  /** Among flows that tie, the one furthest along the ring is the victim. */
  lemma {:induction false} LargestIsLatest(flows: map<FlowKey, Flow>, ring: seq<FlowKey>, i: nat)
    requires forall j :: j in ring ==> j in flows && flows[j].infos != []
    requires i < |ring|
    requires var victim, f := flows[Largest(flows, ring).value], flows[ring[i]];
             f.size == victim.size && f.infos[0].time == victim.infos[0].time
    ensures exists j :: i <= j < |ring| && ring[j] == Largest(flows, ring).value
  {
    var n := |ring| - 1;
    assert ring == ring[..n] + [ring[n]];
    if Largest(flows, ring).value == ring[n] {
    } else {
      LargestIsLatest(flows, ring[..n], i);
    }
  }

  ghost predicate Suffix(a: seq<Queued>, b: seq<Queued>) {
    |a| <= |b| && a == b[|b| - |a|..]
  }

  lemma SuffixTransitive(a: seq<Queued>, b: seq<Queued>, c: seq<Queued>)
    requires Suffix(a, b) && Suffix(b, c)
    ensures Suffix(a, c)
  {
  }

  /** One eviction removes at most the head of each flow. */
  lemma DropHeadSuffix(q: nat, s: Queue, k: FlowKey, j: FlowKey)
    requires Rep(s) && k in s.flows
    ensures Suffix(Fifo(DropHead(q, s, k), j), Fifo(s, j))
    ensures j != k ==> Fifo(DropHead(q, s, k), j) == Fifo(s, j)
  {
    DropHeadFifo(q, s, k, j);
  }

  lemma {:induction false} TrimFlowFifo(q: nat, s: Queue, k: FlowKey, size: nat, j: FlowKey)
    requires Rep(s)
    ensures j != k ==> Fifo(TrimFlow(q, s, k, size), j) == Fifo(s, j)
    ensures Suffix(Fifo(TrimFlow(q, s, k, size), j), Fifo(s, j))
    decreases |Fifo(s, k)|
  {
    if k !in s.flows || s.flows[k].size + size <= PER_FLOW_MULTIPLIER * q {
    } else {
      var s' := DropHead(q, s, k);
      DropHeadRep(q, s, k);
      DropHeadFifo(q, s, k, k);
      TrimFlowFifo(q, s', k, size, j);
      DropHeadSuffix(q, s, k, j);
      SuffixTransitive(Fifo(TrimFlow(q, s', k, size), j), Fifo(s', j), Fifo(s, j));
    }
  }

  lemma {:induction false} TrimAllFifo(q: nat, s: Queue, size: nat, j: FlowKey)
    requires Rep(s)
    ensures Suffix(Fifo(TrimAll(q, s, size), j), Fifo(s, j))
    decreases if s.count > 0 then s.count else 0
  {
    if !Crowded(q, s, size) {
    } else {
      var s' := Evict(q, s);
      TrimAllFifo(q, s', size, j);
      DropHeadSuffix(q, s, Victim(s), j);
      SuffixTransitive(Fifo(TrimAll(q, s', size), j), Fifo(s', j), Fifo(s, j));
    }
  }

  /** After eviction the packet fits both caps. */
  lemma {:induction false} TrimFlowFits(q: nat, s: Queue, k: FlowKey, size: nat)
    requires Rep(s)
    ensures var r := TrimFlow(q, s, k, size);
            k in r.flows ==> r.flows[k].size + size <= PER_FLOW_MULTIPLIER * q
    decreases |Fifo(s, k)|
  {
    if k !in s.flows || s.flows[k].size + size <= PER_FLOW_MULTIPLIER * q {
    } else {
      DropHeadRep(q, s, k);
      DropHeadFifo(q, s, k, k);
      TrimFlowFits(q, DropHead(q, s, k), k, size);
    }
  }

  lemma {:induction false} TrimAllFits(q: nat, s: Queue, size: nat)
    requires Rep(s) && size <= TOTAL_MULTIPLIER * q
    ensures TrimAll(q, s, size).size + size <= TOTAL_MULTIPLIER * q
    decreases if s.count > 0 then s.count else 0
  {
    if !Crowded(q, s, size) {
    } else {
      TrimAllFits(q, Evict(q, s), size);
    }
  }

  lemma {:induction false} SuffixBytes(a: seq<Queued>, b: seq<Queued>)
    requires Suffix(a, b)
    ensures Bytes(a) <= Bytes(b)
    decreases |b|
  {
    if |a| >= |b| {
    } else {
      SuffixBytes(a, b[1..]);
      BytesTail(b);
    }
  }

  // ---------------------------------------------------------------------------
  // Admission
  // ---------------------------------------------------------------------------

  lemma EnqueueRing(s: Queue, k: FlowKey, info: Queued)
    requires Ring(s.flows, s.active)
    ensures var s' := Enqueue(s, k, info); Ring(s'.flows, s'.active)
  {
  }

  lemma EnqueueOld(s: Queue, k: FlowKey, info: Queued)
    requires Rep(s) && k in s.flows
    ensures var s' := Enqueue(s, k, info);
            s'.size == Sum(s'.active, SizeIn(s'.flows)) && s'.count == Sum(s'.active, CountIn(s'.flows))
  {
    var s', i := Enqueue(s, k, info), s.flows[k].index.value;
    SumChange(s.active, SizeIn(s.flows), SizeIn(s'.flows), i);
    SumChange(s.active, CountIn(s.flows), CountIn(s'.flows), i);
  }

  lemma EnqueueNew(s: Queue, k: FlowKey, info: Queued)
    requires Rep(s) && k !in s.flows
    ensures var s' := Enqueue(s, k, info);
            s'.size == Sum(s'.active, SizeIn(s'.flows)) && s'.count == Sum(s'.active, CountIn(s'.flows))
  {
    var s' := Enqueue(s, k, info);
    SumMore(s.active, SizeIn(s.flows), SizeIn(s'.flows), k);
    SumMore(s.active, CountIn(s.flows), CountIn(s'.flows), k);
  }

  lemma EnqueueFlows(s: Queue, k: FlowKey, info: Queued)
    requires FlowsOk(s.flows) && info.size == WireSize(info.packet) && KeyOf(info.packet) == k
    ensures FlowsOk(Enqueue(s, k, info).flows)
  {
    var infos, s' := Fifo(s, k), Enqueue(s, k, info);
    assert (infos + [info])[..|infos|] == infos;
    assert Bytes(infos + [info]) == Bytes(infos) + info.size;
    assert k in s.flows ==> FlowOk(k, s.flows[k]);
    assert FlowOk(k, s'.flows[k]);
    assert forall j :: j in s.flows && j != k ==> s'.flows[j] == s.flows[j];
  }

  lemma EnqueueFifo(s: Queue, k: FlowKey, info: Queued, j: FlowKey)
    ensures Fifo(Enqueue(s, k, info), j) == if j == k then Fifo(s, k) + [info] else Fifo(s, j)
  {
  }

  lemma EnqueueRep(s: Queue, k: FlowKey, info: Queued)
    requires Rep(s) && info.size == WireSize(info.packet) && KeyOf(info.packet) == k
    ensures Rep(Enqueue(s, k, info))
  {
    EnqueueRing(s, k, info);
    EnqueueFlows(s, k, info);
    if k in s.flows {
      EnqueueOld(s, k, info);
    } else {
      EnqueueNew(s, k, info);
    }
  }

  /** Every push keeps the representation. */
  lemma PushRep(q: nat, s: Queue, p: Packet, now: int)
    requires Rep(s)
    ensures Rep(Push(q, s, p, now))
  {
    if Admitted(q, p) {
      EnqueueRep(Trimmed(q, s, p), KeyOf(p), Queued(p, WireSize(p), now));
    }
  }

  lemma TrimmedFifo(q: nat, s: Queue, p: Packet, j: FlowKey)
    requires Rep(s)
    ensures Suffix(Fifo(Trimmed(q, s, p), j), Fifo(s, j))
  {
    var t := TrimFlow(q, s, KeyOf(p), WireSize(p));
    TrimFlowFifo(q, s, KeyOf(p), WireSize(p), j);
    TrimAllFifo(q, t, WireSize(p), j);
    SuffixTransitive(Fifo(TrimAll(q, t, WireSize(p)), j), Fifo(t, j), Fifo(s, j));
  }

  /** A push evicts only from the old end of each flow; a packet that fits the cap of a flow becomes the newest of its
      flow; a larger one changes nothing. */
  lemma PushFifo(q: nat, s: Queue, p: Packet, now: int, j: FlowKey)
    requires Rep(s)
    ensures WireSize(p) > PER_FLOW_MULTIPLIER * q ==> Push(q, s, p, now) == s
    ensures WireSize(p) <= PER_FLOW_MULTIPLIER * q && j != KeyOf(p) ==> Suffix(Fifo(Push(q, s, p, now), j), Fifo(s, j))
    ensures WireSize(p) <= PER_FLOW_MULTIPLIER * q && j == KeyOf(p) ==>
              exists kept :: Suffix(kept, Fifo(s, j)) && Fifo(Push(q, s, p, now), j) == kept + [Queued(p, WireSize(p), now)]
  {
    TrimmedFifo(q, s, p, j);
    EnqueueFifo(Trimmed(q, s, p), KeyOf(p), Queued(p, WireSize(p), now), j);
  }

  /** Trimming never enlarges a flow. */
  lemma TrimmedFlowSize(q: nat, s: Queue, size: nat, k: FlowKey)
    requires Rep(s) && k in TrimAll(q, s, size).flows
    ensures k in s.flows && TrimAll(q, s, size).flows[k].size <= s.flows[k].size
  {
    var r := TrimAll(q, s, size);
    TrimAllFifo(q, s, size, k);
    assert FlowOk(k, r.flows[k]);
    SuffixBytes(Fifo(r, k), Fifo(s, k));
    assert FlowOk(k, s.flows[k]);
  }

  lemma TrimFlowFlowSize(q: nat, s: Queue, p: FlowKey, size: nat, k: FlowKey)
    requires Rep(s) && k in TrimFlow(q, s, p, size).flows
    ensures k in s.flows && TrimFlow(q, s, p, size).flows[k].size <= s.flows[k].size
  {
    var r := TrimFlow(q, s, p, size);
    TrimFlowFifo(q, s, p, size, k);
    assert FlowOk(k, r.flows[k]);
    SuffixBytes(Fifo(r, k), Fifo(s, k));
    assert FlowOk(k, s.flows[k]);
  }

  /** Both byte caps hold after every push. */
  lemma PushCapped(q: nat, s: Queue, p: Packet, now: int)
    requires Rep(s) && Capped(q, s)
    ensures Capped(q, Push(q, s, p, now))
  {
    if Admitted(q, p) {
      var k, size := KeyOf(p), WireSize(p);
      var t := TrimFlow(q, s, k, size);
      var r := Trimmed(q, s, p);
      TrimFlowFits(q, s, k, size);
      TrimAllFits(q, t, size);
      forall j | j in r.flows
        ensures r.flows[j].size <= PER_FLOW_MULTIPLIER * q
        ensures j == k ==> r.flows[j].size + size <= PER_FLOW_MULTIPLIER * q
      {
        TrimmedFlowSize(q, t, size, j);
        TrimFlowFlowSize(q, s, k, size, j);
      }
    }
  }

  /** Nothing is evicted when the packet fits both caps. */
  lemma PushWithinCaps(q: nat, s: Queue, p: Packet, now: int)
    requires Rep(s) && WireSize(p) <= PER_FLOW_MULTIPLIER * q
    requires s.size + WireSize(p) <= TOTAL_MULTIPLIER * q
    requires KeyOf(p) in s.flows ==> s.flows[KeyOf(p)].size + WireSize(p) <= PER_FLOW_MULTIPLIER * q
    ensures Push(q, s, p, now) == Enqueue(s, KeyOf(p), Queued(p, WireSize(p), now))
  {
  }
}
