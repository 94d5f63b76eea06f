/** What a push throws out: packets of the largest flows, when there is no room, and no more than it takes. */
module Eviction {
  import opened Basics
  import opened Wire
  import opened QueueSpec
  import opened QueueRep
  import opened QueuePush

  /** The victim has the most bytes of all flows in the queue and, of those with as many, the oldest head. */
  lemma VictimIsLargest(s: Queue, k: FlowKey)
    requires Rep(s) && s.active != [] && k in s.flows
    ensures var victim := s.flows[Victim(s)];
            && s.flows[k].size <= victim.size
            && (s.flows[k].size == victim.size ==> victim.infos[0].time <= s.flows[k].infos[0].time)
  {
    assert s.active[s.flows[k].index.value] == k;
    LargestIsLargest(s.flows, s.active, k);
  }

  lemma VictimBytes(s: Queue, k: FlowKey)
    requires Rep(s) && s.active != []
    ensures Bytes(Fifo(s, k)) <= Bytes(Fifo(s, Victim(s)))
  {
    assert FlowOk(Victim(s), s.flows[Victim(s)]);
    if k in s.flows {
      assert FlowOk(k, s.flows[k]);
      VictimIsLargest(s, k);
    }
  }

  /** Packets went from the old end of a flow. */
  ghost predicate Shrunk(before: seq<Queued>, after: seq<Queued>) {
    |after| < |before|
  }

  /** The one that went last. */
  ghost function LastGone(before: seq<Queued>, after: seq<Queued>): Queued
    requires Shrunk(before, after)
  {
    before[|before| - |after| - 1]
  }

  /** What went last does not depend on what went before. */
  lemma GoneSince(before: seq<Queued>, between: seq<Queued>, after: seq<Queued>)
    requires Suffix(between, before) && Shrunk(between, after)
    ensures Shrunk(before, after) && LastGone(before, after) == LastGone(between, after)
  {
  }

  /** If only the head went, it went last. */
  lemma GoneHead(before: seq<Queued>, after: seq<Queued>)
    requires before != [] && Suffix(after, before[1..]) && !Shrunk(before[1..], after)
    ensures after == before[1..] && LastGone(before, after) == before[0]
    ensures Bytes(before) == Bytes(after) + LastGone(before, after).size
  {
    BytesTail(before);
  }

  ghost predicate Loses(s: Queue, r: Queue, k: FlowKey) {
    Shrunk(Fifo(s, k), Fifo(r, k))
  }

  ghost function Lost(s: Queue, r: Queue, k: FlowKey): Queued
    requires Loses(s, r, k)
  {
    LastGone(Fifo(s, k), Fifo(r, k))
  }

  lemma EvictFifo(q: nat, s: Queue, k: FlowKey)
    requires Rep(s) && s.active != []
    ensures Fifo(s, Victim(s)) != [] && Evict(q, s).size == s.size - Fifo(s, Victim(s))[0].size
    ensures Fifo(Evict(q, s), k) == if k == Victim(s) then Fifo(s, k)[1..] else Fifo(s, k)
  {
    assert FlowOk(Victim(s), s.flows[Victim(s)]);
    DropHeadFifo(q, s, Victim(s), k);
  }

  /** Flow sizes around one eviction, with what came of flows `j` and `k` in the end. */
  lemma OneEviction(victim: bool, fj: seq<Queued>, tj: seq<Queued>, rj: seq<Queued>, fk: seq<Queued>, rk: seq<Queued>)
    requires Suffix(rj, tj) && Suffix(rk, fk) && Shrunk(fj, rj) && !Shrunk(tj, rj)
    requires if victim then fj != [] && tj == fj[1..] && Bytes(fk) <= Bytes(fj) else tj == fj
    ensures Bytes(rk) <= Bytes(rj) + LastGone(fj, rj).size
  {
    GoneHead(fj, rj);
    SuffixBytes(rk, fk);
  }

  /** With the last packet it lost, flow `j` would have as many bytes as flow `k` has left. */
  ghost predicate Outgrows(s: Queue, r: Queue, j: FlowKey, k: FlowKey) {
    Loses(s, r, j) && Bytes(Fifo(r, k)) <= Bytes(Fifo(r, j)) + Lost(s, r, j).size
  }

  lemma OutgrowsNow(q: nat, s: Queue, r: Queue, j: FlowKey, k: FlowKey)
    requires Rep(s) && s.active != [] && Loses(s, r, j) && !Loses(Evict(q, s), r, j)
    requires Suffix(Fifo(r, j), Fifo(Evict(q, s), j)) && Suffix(Fifo(r, k), Fifo(s, k))
    ensures Outgrows(s, r, j, k)
  {
    EvictFifo(q, s, j);
    VictimBytes(s, k);
    OneEviction(j == Victim(s), Fifo(s, j), Fifo(Evict(q, s), j), Fifo(r, j), Fifo(s, k), Fifo(r, k));
  }

  lemma OutgrowsSince(q: nat, s: Queue, r: Queue, j: FlowKey, k: FlowKey)
    requires Rep(s) && s.active != [] && Outgrows(Evict(q, s), r, j, k)
    ensures Outgrows(s, r, j, k)
  {
    DropHeadSuffix(q, s, Victim(s), j);
    GoneSince(Fifo(s, j), Fifo(Evict(q, s), j), Fifo(r, j));
  }

  /** A flow that makes room for others had the most bytes when its last packet went. */
  lemma {:induction false} TrimAllLargest(q: nat, s: Queue, size: nat, j: FlowKey, k: FlowKey)
    requires Rep(s) && Loses(s, TrimAll(q, s, size), j)
    ensures Outgrows(s, TrimAll(q, s, size), j, k)
    decreases if s.count > 0 then s.count else 0
  {
    if !Crowded(q, s, size) {
    } else {
      var t, r := Evict(q, s), TrimAll(q, s, size);
      if Loses(t, r, j) {
        TrimAllLargest(q, t, size, j, k);
        OutgrowsSince(q, s, r, j, k);
      } else {
        TrimAllFifo(q, t, size, j);
        TrimAllFifo(q, s, size, k);
        OutgrowsNow(q, s, r, j, k);
      }
    }
  }

  /** With the packet that went last, `size` more bytes would not have fitted. */
  ghost predicate Tight(q: nat, s: Queue, r: Queue, size: nat, k: FlowKey) {
    Loses(s, r, k) && r.size + Lost(s, r, k).size + size > TOTAL_MULTIPLIER * q
  }

  lemma EvictTight(q: nat, s: Queue, size: nat)
    requires Rep(s) && s.active != [] && s.size + size > TOTAL_MULTIPLIER * q
    ensures Tight(q, s, Evict(q, s), size, Victim(s))
  {
    var k := Victim(s);
    EvictFifo(q, s, k);
    assert Suffix(Fifo(Evict(q, s), k), Fifo(s, k)[1..]);
    GoneHead(Fifo(s, k), Fifo(Evict(q, s), k));
  }

  lemma TightSince(q: nat, s: Queue, r: Queue, size: nat, k: FlowKey)
    requires Rep(s) && s.active != [] && Tight(q, Evict(q, s), r, size, k)
    ensures Tight(q, s, r, size, k)
  {
    DropHeadSuffix(q, s, Victim(s), k);
    GoneSince(Fifo(s, k), Fifo(Evict(q, s), k), Fifo(r, k));
  }

  lemma {:induction false} TrimAllTight(q: nat, s: Queue, size: nat) returns (k: FlowKey)
    requires Rep(s) && Crowded(q, s, size)
    ensures Tight(q, s, TrimAll(q, s, size), size, k)
    decreases if s.count > 0 then s.count else 0
  {
    if Crowded(q, Evict(q, s), size) {
      k := TrimAllTight(q, Evict(q, s), size);
      TightSince(q, s, TrimAll(q, s, size), size, k);
    } else {
      k := Victim(s);
      EvictTight(q, s, size);
    }
  }

  lemma {:induction false} TrimFlowTight(q: nat, s: Queue, k: FlowKey, size: nat)
    requires Rep(s) && Loses(s, TrimFlow(q, s, k, size), k)
    ensures var r := TrimFlow(q, s, k, size);
            Bytes(Fifo(r, k)) + Lost(s, r, k).size + size > PER_FLOW_MULTIPLIER * q
    decreases |Fifo(s, k)|
  {
    if k !in s.flows || s.flows[k].size + size <= PER_FLOW_MULTIPLIER * q {
    } else {
      var t, r := DropHead(q, s, k), TrimFlow(q, s, k, size);
      assert FlowOk(k, s.flows[k]);
      DropHeadRep(q, s, k);
      DropHeadFifo(q, s, k, k);
      TrimFlowFifo(q, t, k, size, k);
      if Loses(t, r, k) {
        TrimFlowTight(q, t, k, size);
        GoneSince(Fifo(s, k), Fifo(t, k), Fifo(r, k));
      } else {
        GoneHead(Fifo(s, k), Fifo(r, k));
      }
    }
  }

  // ---------------------------------------------------------------------------
  // A push
  // ---------------------------------------------------------------------------

  /** A queue without the packet just pushed to it. */
  ghost function Without(s: Queue, p: Packet): Queue {
    var k := KeyOf(p);
    if Fifo(s, k) == [] then s
    else s.(flows := s.flows[k := s.flows[k].(infos := Fifo(s, k)[..|Fifo(s, k)| - 1])], size := s.size - WireSize(p))
  }

  /** What an admitted packet found when it was appended. */
  lemma WithoutIs(q: nat, s: Queue, p: Packet, now: int, k: FlowKey)
    requires Rep(s) && Admitted(q, p)
    ensures var r := Without(Push(q, s, p, now), p); Fifo(r, k) == Fifo(Trimmed(q, s, p), k) && r.size == Trimmed(q, s, p).size
  {
    var r, info := Trimmed(q, s, p), Queued(p, WireSize(p), now);
    EnqueueFifo(r, KeyOf(p), info, k);
    EnqueueFifo(r, KeyOf(p), info, KeyOf(p));
    assert (Fifo(r, KeyOf(p)) + [info])[..|Fifo(r, KeyOf(p))|] == Fifo(r, KeyOf(p));
  }

  /** A push takes packets from another flow only while that flow has the most bytes: with the last packet it
      lost, the flow would be as large as any that is left. */
  lemma PushEvictsLargest(q: nat, s: Queue, p: Packet, now: int, j: FlowKey, k: FlowKey)
    requires Rep(s) && Admitted(q, p) && j != KeyOf(p) && Loses(s, Without(Push(q, s, p, now), p), j)
    ensures Outgrows(s, Without(Push(q, s, p, now), p), j, k)
  {
    var t := TrimFlow(q, s, KeyOf(p), WireSize(p));
    TrimFlowFifo(q, s, KeyOf(p), WireSize(p), j);
    WithoutIs(q, s, p, now, j);
    WithoutIs(q, s, p, now, k);
    TrimAllLargest(q, t, WireSize(p), j, k);
  }

  /** A push takes packets from another flow only if the new packet does not fit the queue. */
  lemma PushEvictsForRoom(q: nat, s: Queue, p: Packet, now: int, j: FlowKey)
    requires Rep(s) && Admitted(q, p) && j != KeyOf(p) && Loses(s, Without(Push(q, s, p, now), p), j)
    ensures s.size + WireSize(p) > TOTAL_MULTIPLIER * q
  {
    var t := TrimFlow(q, s, KeyOf(p), WireSize(p));
    TrimFlowFifo(q, s, KeyOf(p), WireSize(p), j);
    WithoutIs(q, s, p, now, j);
    TrimFlowSize(q, s, KeyOf(p), WireSize(p));
  }

  lemma {:induction false} TrimFlowSize(q: nat, s: Queue, k: FlowKey, size: nat)
    requires Rep(s)
    ensures TrimFlow(q, s, k, size).size <= s.size
    decreases |Fifo(s, k)|
  {
    if k !in s.flows || s.flows[k].size + size <= PER_FLOW_MULTIPLIER * q {
    } else {
      DropHeadRep(q, s, k);
      DropHeadFifo(q, s, k, k);
      TrimFlowSize(q, DropHead(q, s, k), k, size);
    }
  }

  /** A push takes no more than it must: with some packet that it took, and took last from its flow, the new packet
      would exceed the cap of the queue or of its own flow. */
  lemma PushEvictsJustEnough(q: nat, s: Queue, p: Packet, now: int, j: FlowKey) returns (k: FlowKey)
    requires Rep(s) && Admitted(q, p) && Loses(s, Without(Push(q, s, p, now), p), j)
    ensures var r := Without(Push(q, s, p, now), p);
            && Loses(s, r, k)
            && (|| r.size + Lost(s, r, k).size + WireSize(p) > TOTAL_MULTIPLIER * q
                || (k == j == KeyOf(p) && Bytes(Fifo(r, k)) + Lost(s, r, k).size + WireSize(p) > PER_FLOW_MULTIPLIER * q))
  {
    var t := TrimFlow(q, s, KeyOf(p), WireSize(p));
    if Crowded(q, t, WireSize(p)) {
      k := TrimAllTight(q, t, WireSize(p));
      TrimFlowFifo(q, s, KeyOf(p), WireSize(p), k);
      GoneSince(Fifo(s, k), Fifo(t, k), Fifo(Trimmed(q, s, p), k));
      WithoutIs(q, s, p, now, k);
    } else {
      k := j;
      WithoutIs(q, s, p, now, j);
      TrimFlowFifo(q, s, KeyOf(p), WireSize(p), j);
      TrimFlowTight(q, s, KeyOf(p), WireSize(p));
    }
  }
}
