/** What holds of the packet queue over every run of pushes, pops and evictions. */
module QueueRuns {
  import opened Basics
  import opened Wire
  import opened QueueSpec
  import opened QueueRep
  import opened QueuePush
  import opened Drr
  import opened Fairness
  import PacketQueues

  /** A dequeue under CoDel is one or more `Fetch`es. */
  datatype Event = Arrive(packet: Packet, now: int) | Fetch | Shed

  ghost function Step(q: nat, s: Queue, e: Event): Queue
    requires Rep(s) && q > 0
  {
    match e
    case Arrive(p, now) => Push(q, s, p, now)
    case Fetch => Pop(q, s).queue
    case Shed => if s.active == [] then s else Evict(q, s)
  }

  ghost predicate Fit(q: nat, s: Queue) {
    Rep(s) && Capped(q, s)
  }

  lemma DropHeadTakes(q: nat, s: Queue, k: FlowKey)
    requires Rep(s) && k in s.flows
    ensures Rep(DropHead(q, s, k)) && Takes(s, s.flows[k].infos[0], DropHead(q, s, k))
  {
    DropHeadRep(q, s, k);
    DropHeadFifo(q, s, k, k);
    assert FlowOk(k, s.flows[k]);
    forall j
      ensures Fifo(DropHead(q, s, k), j) == if j == k then Fifo(s, j)[1..] else Fifo(s, j)
    {
      DropHeadFifo(q, s, k, j);
    }
  }

  lemma EvictTakes(q: nat, s: Queue) returns (p: Queued)
    requires Rep(s) && s.active != []
    ensures Takes(s, p, Evict(q, s))
  {
    DropHeadTakes(q, s, Victim(s));
    p := s.flows[Victim(s)].infos[0];
  }

  lemma StepFit(q: nat, s: Queue, e: Event)
    requires Fit(q, s) && q > 0
    ensures Fit(q, Step(q, s, e))
  {
    match e
    case Arrive(p, now) =>
      PushRep(q, s, p, now);
      PushCapped(q, s, p, now);
    case Fetch =>
      PopRep(q, s);
      PacketQueues.PopCapped(q, s);
    case Shed =>
      if s.active != [] {
        var p := EvictTakes(q, s);
        PacketQueues.TakesCapped(q, s, p, Evict(q, s));
      }
  }

  /** The queue after a series of events. The ring, the back-indices, the cursor, both totals and both byte
      caps are right in every state. */
  ghost function Run(q: nat, events: seq<Event>): (s: Queue)
    requires q > 0
    ensures Fit(q, s)
  {
    if events == [] then EMPTY
    else
      var s := Run(q, events[..|events| - 1]);
      StepFit(q, s, Last(events));
      Step(q, s, Last(events))
  }

  lemma RunSnoc(q: nat, events: seq<Event>, e: Event)
    requires q > 0
    ensures Run(q, events + [e]) == Step(q, Run(q, events), e)
  {
    assert (events + [e])[..|events|] == events;
  }

  // ---------------------------------------------------------------------------
  // Deficits over runs
  // ---------------------------------------------------------------------------

  ghost predicate Light(m: nat, e: Event) {
    e.Arrive? ==> WireSize(e.packet) <= m
  }

  lemma TakesSmall(m: nat, s: Queue, p: Queued, t: Queue)
    requires Takes(s, p, t) && Small(m, s)
    ensures Small(m, t)
  {
    forall k, x | k in t.flows && x in t.flows[k].infos
      ensures x.size <= m
    {
      assert x in Fifo(t, k) && x in Fifo(s, k);
    }
  }

  lemma PushMembers(q: nat, s: Queue, p: Packet, now: int, k: FlowKey, x: Queued)
    requires Rep(s) && x in Fifo(Push(q, s, p, now), k)
    ensures x in Fifo(s, k) || x == Queued(p, WireSize(p), now)
  {
    PushFifo(q, s, p, now, k);
    if Admitted(q, p) && k == KeyOf(p) {
      var kept :| Suffix(kept, Fifo(s, k)) && Fifo(Push(q, s, p, now), k) == kept + [Queued(p, WireSize(p), now)];
      assert x in kept ==> x in Fifo(s, k);
    }
  }

  lemma PushSmall(q: nat, m: nat, s: Queue, p: Packet, now: int)
    requires Rep(s) && Small(m, s) && WireSize(p) <= m
    ensures Small(m, Push(q, s, p, now))
  {
    var t := Push(q, s, p, now);
    forall k, x | k in t.flows && x in t.flows[k].infos
      ensures x.size <= m
    {
      PushMembers(q, s, p, now, k, x);
    }
  }

  lemma StepBounded(q: nat, m: nat, s: Queue, e: Event)
    requires Rep(s) && q > 0 && 0 < m <= 3 * q && Bounded(q, m, s) && Small(m, s) && Light(m, e)
    ensures Bounded(q, m, Step(q, s, e)) && Small(m, Step(q, s, e))
  {
    match e
    case Arrive(p, now) =>
      PushBounded(q, m, s, p, now);
      PushSmall(q, m, s, p, now);
    case Fetch =>
      PopBounded(q, m, s);
      if Pop(q, s).info.Some? {
        PopTakes(q, s);
        TakesSmall(m, s, Pop(q, s).info.value, Pop(q, s).queue);
      }
    case Shed =>
      if s.active != [] {
        DropHeadBounded(q, m, s, Victim(s));
        var p := EvictTakes(q, s);
        TakesSmall(m, s, p, Evict(q, s));
      }
  }

  /** With packets of at most three quanta no deficit ever reaches the clamp of four, so no charge wraps
      around: a flow holds less than one packet's worth, plus a quantum in its turn. */
  lemma {:induction false} RunBounded(q: nat, m: nat, events: seq<Event>)
    requires q > 0 && 0 < m <= 3 * q && forall i :: 0 <= i < |events| ==> Light(m, events[i])
    ensures Bounded(q, m, Run(q, events)) && Small(m, Run(q, events))
  {
    if events == [] {
    } else {
      var init := events[..|events| - 1];
      RunBounded(q, m, init);
      StepBounded(q, m, Run(q, init), Last(events));
    }
  }

  /** A queue of one flow with two packets. */
  ghost predicate Pair(s: Queue, k: FlowKey, info: Queued) {
    Rep(s) && s.active == [k] && k in s.flows && s.flows[k].infos == [info, info]
  }

  lemma PairCharged(q: nat, s: Queue, k: FlowKey, info: Queued)
    requires Pair(s, k, info) && q > 0 && 4 * q < info.size <= U64_MAX
    ensures var t := Pop(q, s).queue; k in t.flows && t.flows[k].deficit == 4 * q - info.size + U64_MAX + 1
  {
    var r := Ready(q, s);
    assert r.active[r.next.value] == k;
    ChargeExact(q, r);
  }

  /** A queue of one packet. */
  ghost predicate Single(s: Queue, k: FlowKey, info: Queued) {
    Rep(s) && s.active == [k] && k in s.flows && s.flows[k].infos == [info] && s.size == info.size && s.flows[k].size == info.size
  }

  lemma OnceArrived(q: nat, p: Packet, now: int)
    requires q > 0 && WireSize(p) <= 8 * q
    ensures Single(Run(q, [Arrive(p, now)]), KeyOf(p), Queued(p, WireSize(p), now))
  {
    var e := Arrive(p, now);
    PushWithinCaps(q, EMPTY, p, now);
    RunSnoc(q, [], e);
    assert [] + [e] == [e];
    assert [] + [Queued(p, WireSize(p), now)] == [Queued(p, WireSize(p), now)];
  }

  lemma SingleMore(q: nat, s: Queue, p: Packet, now: int)
    requires q > 0 && WireSize(p) <= 8 * q && Single(s, KeyOf(p), Queued(p, WireSize(p), now))
    ensures Pair(Push(q, s, p, now), KeyOf(p), Queued(p, WireSize(p), now))
  {
    var info := Queued(p, WireSize(p), now);
    PushRep(q, s, p, now);
    PushWithinCaps(q, s, p, now);
    assert [info] + [info] == [info, info];
  }

  lemma ArrivedAgain(q: nat, events: seq<Event>, p: Packet, now: int)
    requires q > 0 && WireSize(p) <= 8 * q && Single(Run(q, events), KeyOf(p), Queued(p, WireSize(p), now))
    ensures Pair(Run(q, events + [Arrive(p, now)]), KeyOf(p), Queued(p, WireSize(p), now))
  {
    SingleMore(q, Run(q, events), p, now);
    RunSnoc(q, events, Arrive(p, now));
  }

  /** A queue admits packets of up to sixteen quanta, and one of more than four is charged more than the
      clamp has left its flow: the deficit wraps around. */
  lemma OversizedWraps(q: nat, p: Packet, now: int)
    requires 4 * q < WireSize(p) <= 8 * q && WireSize(p) <= U64_MAX
    ensures var t := Pop(q, Run(q, [Arrive(p, now)] + [Arrive(p, now)])).queue;
            KeyOf(p) in t.flows && t.flows[KeyOf(p)].deficit == 4 * q - WireSize(p) + U64_MAX + 1
  {
    var once := [Arrive(p, now)];
    OnceArrived(q, p, now);
    ArrivedAgain(q, once, p, now);
    PairCharged(q, Run(q, once + [Arrive(p, now)]), KeyOf(p), Queued(p, WireSize(p), now));
  }
}
