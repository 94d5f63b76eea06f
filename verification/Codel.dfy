/** Controlled delay (section 5 of RFC 8289) on top of the round-robin scheduler: which packets are
    dropped at dequeue, and what the queue must have looked like for that. */
module Codels {
  import opened Basics
  import opened QueueSpec
  import opened QueueRep
  import opened Drr

  // ---------------------------------------------------------------------------
  // The scheduler below
  // ---------------------------------------------------------------------------

  /** A pop takes the head of one flow, and yields nothing only when there is nothing. */
  ghost predicate Fetches(s: Queue, r: Popped) {
    && Rep(r.queue)
    && (r.info.None? <==> s.count == 0)
    && (r.info.None? ==> r.queue == s.(next := None))
    && (r.info.Some? ==> Takes(s, r.info.value, r.queue))
  }

  type Scheduler = Queue -> Popped

  ghost predicate Sound(pop: Scheduler) {
    forall s {:trigger Fetches(s, pop(s))} :: Rep(s) ==> Fetches(s, pop(s))
  }

  /** Deficit round robin as a scheduler. */
  ghost function RoundRobin(q: nat): Scheduler
    requires q > 0
  {
    s => if Rep(s) then Pop(q, s) else Popped(None, s)
  }

  lemma PopFetches(q: nat, s: Queue)
    requires Rep(s) && q > 0
    ensures Fetches(s, Pop(q, s))
  {
    PopRep(q, s);
    PopSome(q, s);
    if Pop(q, s).info.Some? {
      PopTakes(q, s);
    }
  }

  lemma RoundRobinSound(q: nat)
    requires q > 0
    ensures Sound(RoundRobin(q))
  {
    forall s | Rep(s)
      ensures Fetches(s, RoundRobin(q)(s))
    {
      PopFetches(q, s);
    }
  }

  const TARGET: nat := 15_000_000
  const INTERVAL: nat := 100_000_000
  const U32: nat := 0x1_0000_0000

  /** Times are nanoseconds; `firstAbove` lies an interval after the sojourn first exceeded the target. */
  datatype Codel = Codel(firstAbove: Option<int>, dropNext: Option<int>, count: nat, lastCount: nat, dropping: bool)

  const IDLE := Codel(None, None, 0, 0, false)

  /** When to drop next, given when this drop was due and how many there were. */
  type Law = (int, nat) -> int

  // ---------------------------------------------------------------------------
  // Judging one packet
  // ---------------------------------------------------------------------------

  /** Whether a packet waited too long in front of at least two others. */
  predicate High(p: Queued, behind: int, now: int) {
    now - p.time >= TARGET && behind > 1
  }

  /** The clock after judging a packet. */
  function Clock(c: Codel, p: Queued, behind: int, now: int): Codel {
    c.(firstAbove := if !High(p, behind, now) then None else if c.firstAbove.None? then Some(now + INTERVAL) else c.firstAbove)
  }

  predicate Verdict(c: Codel, p: Queued, behind: int, now: int) {
    High(p, behind, now) && c.firstAbove.Some? && now > c.firstAbove.value
  }

  // ---------------------------------------------------------------------------
  // Dequeuing
  // ---------------------------------------------------------------------------

  /** A packet that was dequeued and judged, with the number of packets then left. */
  datatype Exam = Exam(info: Queued, behind: int, now: int, drop: bool)

  /** A dequeue: the packets examined in order, of which the last is delivered and the others dropped. */
  datatype Dequeue = Dequeue(queue: Queue, codel: Codel, seen: seq<Exam>)

  ghost predicate Holding(d: Dequeue) {
    Rep(d.queue) && d.seen != [] && (Last(d.seen).drop ==> d.queue.count > 1)
  }

  /** Dequeue and judge one more packet. */
  ghost function Examine(pop: Scheduler, s: Queue, c: Codel, seen: seq<Exam>, now: int): (d: Dequeue)
    requires Rep(s) && Sound(pop) && s.count > 0
    ensures Holding(d) && d.queue.count == s.count - 1
  {
    var r := pop(s);
    assert Fetches(s, r);
    var p, n := r.info.value, r.queue.count;
    Dequeue(r.queue, Clock(c, p, n, now), seen + [Exam(p, n, now, Verdict(c, p, n, now))])
  }

  predicate Due(c: Codel, now: int) {
    c.dropping && c.dropNext.Some? && now >= c.dropNext.value
  }

  /** One more drop. */
  function Counted(c: Codel): Codel {
    c.(count := (c.count + 1) % U32)
  }

  /** Schedule the next drop, or stop dropping if the packet at hand is to be delivered. */
  function Rescheduled(law: Law, c: Codel, drop: bool): Codel {
    c.(dropping := drop && c.dropping,
       dropNext := if drop && c.dropNext.Some? then Some(law(c.dropNext.value, c.count)) else c.dropNext)
  }

  /** Dequeue one more packet in place of one just dropped. */
  ghost function Again(pop: Scheduler, law: Law, d: Dequeue, now: int): (e: Dequeue)
    requires Holding(d) && Sound(pop) && Last(d.seen).drop
    ensures Holding(e) && e.queue.count < d.queue.count && (e.codel.dropping ==> Last(e.seen).drop)
  {
    var e := Examine(pop, d.queue, Counted(d.codel), d.seen, now);
    e.(codel := Rescheduled(law, e.codel, Last(e.seen).drop))
  }

  /** Keep dropping while drops are due and the next packet is to be dropped too. */
  ghost function DropWhileDue(pop: Scheduler, law: Law, d: Dequeue, now: int): (r: Dequeue)
    requires Holding(d) && Sound(pop) && (d.codel.dropping ==> Last(d.seen).drop)
    ensures Holding(r)
    decreases d.queue.count
  {
    if Due(d.codel, now) then DropWhileDue(pop, law, Again(pop, law, d, now), now) else d
  }

  /** Whether to start dropping: soon after the last drop, or after a whole further interval above target. */
  predicate Enters(c: Codel, now: int) {
    (c.dropNext.Some? && now - c.dropNext.value < INTERVAL) || (c.firstAbove.Some? && now - c.firstAbove.value >= INTERVAL)
  }

  /** The rate a new dropping state starts at: near the previous one if that ended recently. */
  function Resumed(law: Law, c: Codel, now: int): Codel {
    var delta := (c.count - c.lastCount) % U32;
    var n := if delta > 1 && c.dropNext.Some? && now - c.dropNext.value < 16 * INTERVAL then delta else 1;
    c.(dropping := true, count := n, lastCount := n, dropNext := Some(law(now, n)))
  }

  /** What follows the first packet of a dequeue. */
  ghost function Settle(pop: Scheduler, law: Law, d: Dequeue, now: int): (r: Dequeue)
    requires Holding(d) && Sound(pop)
    ensures Holding(r)
  {
    if d.codel.dropping && Last(d.seen).drop then DropWhileDue(pop, law, d, now)
    else if Last(d.seen).drop && Enters(d.codel, now) then
      var e := Examine(pop, d.queue, d.codel, d.seen, now);
      e.(codel := Resumed(law, e.codel, now))
    else d.(codel := d.codel.(dropping := false))
  }

  ghost function PopCodel(pop: Scheduler, law: Law, s: Queue, c: Codel, now: int): (d: Dequeue)
    requires Rep(s) && Sound(pop)
    ensures Rep(d.queue)
  {
    assert Fetches(s, pop(s));
    if pop(s).info.None? then Dequeue(pop(s).queue, c.(dropping := false), [])
    else
      EmptyAgree(s);
      Settle(pop, law, Examine(pop, s, c, [], now), now)
  }

  /** A dequeue over deficit round robin. */
  ghost function Dequeued(q: nat, law: Law, s: Queue, c: Codel, now: int): (d: Dequeue)
    requires Rep(s) && q > 0
  {
    RoundRobinSound(q);
    PopCodel(RoundRobin(q), law, s, c, now)
  }

  // ---------------------------------------------------------------------------
  // Nothing lost, nothing starved
  // ---------------------------------------------------------------------------

  /** The packets of flow `k` among those examined. */
  ghost function Of(seen: seq<Exam>, k: FlowKey): seq<Queued> {
    if seen == [] then []
    else
      var init := Of(seen[..|seen| - 1], k);
      if KeyOf(Last(seen).info.packet) == k then init + [Last(seen).info] else init
  }

  /** Packets examined and packets left make up the flow as it was in `s`. */
  ghost predicate Conserved(s: Queue, d: Dequeue, k: FlowKey) {
    Fifo(s, k) == Of(d.seen, k) + Fifo(d.queue, k) && s.count == |d.seen| + d.queue.count
  }

  /** All packets before the last were to be dropped. */
  ghost predicate Justified(seen: seq<Exam>) {
    forall i :: 0 <= i < |seen| - 1 ==> seen[i].drop
  }

  lemma OfAppend(seen: seq<Exam>, e: Exam, k: FlowKey)
    ensures Of(seen + [e], k) == if KeyOf(e.info.packet) == k then Of(seen, k) + [e.info] else Of(seen, k)
  {
    assert (seen + [e])[..|seen|] == seen;
  }

  lemma TakesConserves(s0: Queue, d: Dequeue, t: Queue, c: Codel, e: Exam, k: FlowKey)
    requires Takes(d.queue, e.info, t) && Conserved(s0, d, k)
    ensures Conserved(s0, Dequeue(t, c, d.seen + [e]), k)
  {
    OfAppend(d.seen, e, k);
    var was := Fifo(d.queue, k);
    if k == KeyOf(e.info.packet) {
      assert was == [was[0]] + was[1..];
    }
  }

  lemma ExamineConserves(pop: Scheduler, s0: Queue, s: Queue, c: Codel, seen: seq<Exam>, now: int, k: FlowKey)
    requires Rep(s) && Sound(pop) && s.count > 0
    requires Conserved(s0, Dequeue(s, c, seen), k)
    ensures Conserved(s0, Examine(pop, s, c, seen, now), k)
  {
    var d := Examine(pop, s, c, seen, now);
    assert Fetches(s, pop(s));
    TakesConserves(s0, Dequeue(s, c, seen), d.queue, d.codel, Last(d.seen), k);
  }

  lemma {:induction false} DropWhileConserves(pop: Scheduler, law: Law, s0: Queue, d: Dequeue, now: int, k: FlowKey)
    requires Holding(d) && Sound(pop) && (d.codel.dropping ==> Last(d.seen).drop) && Conserved(s0, d, k)
    ensures Conserved(s0, DropWhileDue(pop, law, d, now), k)
    decreases d.queue.count
  {
    if !Due(d.codel, now) {
    } else {
      ExamineConserves(pop, s0, d.queue, Counted(d.codel), d.seen, now, k);
      DropWhileConserves(pop, law, s0, Again(pop, law, d, now), now, k);
    }
  }

  lemma JustifiedMore(seen: seq<Exam>, e: Exam)
    requires seen != [] && Justified(seen) && Last(seen).drop
    ensures Justified(seen + [e])
  {
  }

  lemma AgainSeen(pop: Scheduler, law: Law, d: Dequeue, now: int)
    requires Holding(d) && Sound(pop) && Last(d.seen).drop
    ensures exists e :: Again(pop, law, d, now).seen == d.seen + [e]
  {
  }

  lemma AgainJustified(pop: Scheduler, law: Law, d: Dequeue, now: int)
    requires Holding(d) && Sound(pop) && Last(d.seen).drop && Justified(d.seen)
    ensures Justified(Again(pop, law, d, now).seen)
  {
    AgainSeen(pop, law, d, now);
    var e :| Again(pop, law, d, now).seen == d.seen + [e];
    JustifiedMore(d.seen, e);
  }

  lemma {:induction false} DropWhileJustified(pop: Scheduler, law: Law, d: Dequeue, now: int)
    requires Holding(d) && Sound(pop) && (d.codel.dropping ==> Last(d.seen).drop) && Justified(d.seen)
    ensures Justified(DropWhileDue(pop, law, d, now).seen)
    decreases d.queue.count
  {
    if !Due(d.codel, now) {
    } else {
      AgainJustified(pop, law, d, now);
      DropWhileJustified(pop, law, Again(pop, law, d, now), now);
    }
  }

  lemma SettleConserves(pop: Scheduler, law: Law, s: Queue, d: Dequeue, now: int, k: FlowKey)
    requires Holding(d) && Sound(pop) && Conserved(s, d, k)
    ensures Conserved(s, Settle(pop, law, d, now), k)
  {
    if Last(d.seen).drop {
      if d.codel.dropping {
        DropWhileConserves(pop, law, s, d, now, k);
      } else {
        ExamineConserves(pop, s, d.queue, d.codel, d.seen, now, k);
      }
    }
  }

  lemma SettleJustified(pop: Scheduler, law: Law, d: Dequeue, now: int)
    requires Holding(d) && Sound(pop) && Justified(d.seen)
    ensures Justified(Settle(pop, law, d, now).seen)
  {
    if d.codel.dropping && Last(d.seen).drop {
      DropWhileJustified(pop, law, d, now);
    } else if Last(d.seen).drop && Enters(d.codel, now) {
      AgainJustified(pop, law, d, now);
    }
  }

  lemma ConservedAtFirst(s: Queue, t: Queue, c: Codel, k: FlowKey)
    requires t.flows == s.flows && t.count == s.count
    ensures Conserved(s, Dequeue(t, c, []), k)
  {
    assert [] + Fifo(s, k) == Fifo(s, k);
  }

  /** Every packet is delivered, dropped or still queued, in order. */
  lemma PopCodelConserves(pop: Scheduler, law: Law, s: Queue, c: Codel, now: int, k: FlowKey)
    requires Rep(s) && Sound(pop)
    ensures Conserved(s, PopCodel(pop, law, s, c, now), k)
  {
    assert Fetches(s, pop(s));
    ConservedAtFirst(s, s, c, k);
    if pop(s).info.None? {
      ConservedAtFirst(s, s.(next := None), c.(dropping := false), k);
    } else {
      EmptyAgree(s);
      ExamineConserves(pop, s, s, c, [], now, k);
      SettleConserves(pop, law, s, Examine(pop, s, c, [], now), now, k);
    }
  }

  /** A packet is delivered unless the queue was empty, and only packets judged to be dropped are dropped. */
  lemma PopCodelDelivers(pop: Scheduler, law: Law, s: Queue, c: Codel, now: int)
    requires Rep(s) && Sound(pop)
    ensures var seen := PopCodel(pop, law, s, c, now).seen; Justified(seen) && (seen == [] <==> s.count == 0)
  {
    assert Fetches(s, pop(s));
    if pop(s).info.Some? {
      EmptyAgree(s);
      SettleJustified(pop, law, Examine(pop, s, c, [], now), now);
    }
  }

  // ---------------------------------------------------------------------------
  // Only a standing queue is dropped from
  // ---------------------------------------------------------------------------

  ghost predicate HighSince(hist: seq<Exam>, j: nat) {
    forall x :: j <= x < |hist| ==> High(hist[x].info, hist[x].behind, hist[x].now)
  }

  /** Every packet examined for more than an interval, up to the last one, had waited too long in front of
      at least two others. */
  ghost predicate Persistent(hist: seq<Exam>) {
    exists j: nat :: j < |hist| && HighSince(hist, j) && hist[j].now + INTERVAL < Last(hist).now
  }

  /** The clock was started by an examination since which all were high. */
  ghost predicate Tracks(c: Codel, hist: seq<Exam>) {
    c.firstAbove.Some? ==> exists j: nat :: j < |hist| && HighSince(hist, j) && hist[j].now + INTERVAL == c.firstAbove.value
  }

  ghost predicate Warranted(hist: seq<Exam>, i: nat)
    requires i < |hist|
  {
    hist[i].drop ==> Persistent(hist[..i + 1])
  }

  ghost predicate AllWarranted(c: Codel, hist: seq<Exam>) {
    Tracks(c, hist) && forall i :: 0 <= i < |hist| ==> Warranted(hist, i)
  }

  lemma HighSinceAppend(hist: seq<Exam>, j: nat, e: Exam)
    requires HighSince(hist, j) && High(e.info, e.behind, e.now)
    ensures HighSince(hist + [e], j)
  {
  }

  lemma ClockTracks(c: Codel, hist: seq<Exam>, e: Exam)
    requires Tracks(c, hist) && e.drop == Verdict(c, e.info, e.behind, e.now)
    ensures Tracks(Clock(c, e.info, e.behind, e.now), hist + [e])
    ensures e.drop ==> Persistent(hist + [e])
  {
    if High(e.info, e.behind, e.now) {
      if c.firstAbove.Some? {
        var j: nat :| j < |hist| && HighSince(hist, j) && hist[j].now + INTERVAL == c.firstAbove.value;
        HighSinceAppend(hist, j, e);
        assert (hist + [e])[j] == hist[j];
      } else {
        assert HighSince(hist + [e], |hist|) && (hist + [e])[|hist|] == e;
      }
    }
  }

  lemma ClockWarrants(c: Codel, hist: seq<Exam>, e: Exam)
    requires AllWarranted(c, hist) && e.drop == Verdict(c, e.info, e.behind, e.now)
    ensures AllWarranted(Clock(c, e.info, e.behind, e.now), hist + [e])
  {
    ClockTracks(c, hist, e);
    forall i | 0 <= i < |hist| + 1
      ensures Warranted(hist + [e], i)
    {
      if i < |hist| {
        assert Warranted(hist, i) && (hist + [e])[..i + 1] == hist[..i + 1];
      } else {
        assert (hist + [e])[..i + 1] == hist + [e];
      }
    }
  }

  /** Only the clock matters to what is warranted. */
  lemma SameClock(c: Codel, c': Codel, hist: seq<Exam>)
    requires AllWarranted(c, hist) && c'.firstAbove == c.firstAbove
    ensures AllWarranted(c', hist)
  {
  }

  lemma ExamineWarrants(pop: Scheduler, s: Queue, c: Codel, past: seq<Exam>, seen: seq<Exam>, now: int)
    requires Rep(s) && Sound(pop) && s.count > 0 && AllWarranted(c, past + seen)
    ensures var d := Examine(pop, s, c, seen, now); AllWarranted(d.codel, past + d.seen)
  {
    var d := Examine(pop, s, c, seen, now);
    ClockWarrants(c, past + seen, Last(d.seen));
    assert past + d.seen == past + seen + [Last(d.seen)];
  }

  lemma {:induction false} DropWhileWarrants(pop: Scheduler, law: Law, d: Dequeue, past: seq<Exam>, now: int)
    requires Holding(d) && Sound(pop) && (d.codel.dropping ==> Last(d.seen).drop) && AllWarranted(d.codel, past + d.seen)
    ensures var r := DropWhileDue(pop, law, d, now); AllWarranted(r.codel, past + r.seen)
    decreases d.queue.count
  {
    if !Due(d.codel, now) {
    } else {
      var c, e := Counted(d.codel), Again(pop, law, d, now);
      SameClock(d.codel, c, past + d.seen);
      ExamineWarrants(pop, d.queue, c, past, d.seen, now);
      SameClock(Examine(pop, d.queue, c, d.seen, now).codel, e.codel, past + e.seen);
      DropWhileWarrants(pop, law, e, past, now);
    }
  }

  lemma SettleWarrants(pop: Scheduler, law: Law, d: Dequeue, past: seq<Exam>, now: int)
    requires Holding(d) && Sound(pop) && AllWarranted(d.codel, past + d.seen)
    ensures var r := Settle(pop, law, d, now); AllWarranted(r.codel, past + r.seen)
  {
    var r := Settle(pop, law, d, now);
    if d.codel.dropping && Last(d.seen).drop {
      DropWhileWarrants(pop, law, d, past, now);
    } else if Last(d.seen).drop && Enters(d.codel, now) {
      var e := Examine(pop, d.queue, d.codel, d.seen, now);
      ExamineWarrants(pop, d.queue, d.codel, past, d.seen, now);
      SameClock(e.codel, r.codel, past + e.seen);
    } else {
      SameClock(d.codel, r.codel, past + d.seen);
    }
  }

  lemma PopCodelWarrants(pop: Scheduler, law: Law, s: Queue, c: Codel, past: seq<Exam>, now: int)
    requires Rep(s) && Sound(pop) && AllWarranted(c, past)
    ensures var d := PopCodel(pop, law, s, c, now); AllWarranted(d.codel, past + d.seen)
  {
    assert past + [] == past;
    assert Fetches(s, pop(s));
    if pop(s).info.None? {
      SameClock(c, c.(dropping := false), past);
    } else {
      EmptyAgree(s);
      ExamineWarrants(pop, s, c, past, [], now);
      SettleWarrants(pop, law, Examine(pop, s, c, [], now), past, now);
    }
  }

  // ---------------------------------------------------------------------------
  // Runs
  // ---------------------------------------------------------------------------

  /** A call of `pop_codel`: the queue it found, whatever happened to it since the last call, and the time. */
  datatype Call = Call(queue: Queue, now: int)

  /** The AQM state after a series of calls and all packets examined in them. */
  datatype Trace = Trace(codel: Codel, hist: seq<Exam>)

  ghost function Replay(pop: Scheduler, law: Law, calls: seq<Call>): Trace
    requires Sound(pop) && forall i :: 0 <= i < |calls| ==> Rep(calls[i].queue)
  {
    if calls == [] then Trace(IDLE, [])
    else
      var t := Replay(pop, law, calls[..|calls| - 1]);
      var d := PopCodel(pop, law, Last(calls).queue, t.codel, Last(calls).now);
      Trace(d.codel, t.hist + d.seen)
  }

  /** In every run, a packet is judged to be dropped only if every packet examined over more than an interval,
      itself included, had waited at least the target with at least two packets behind it. */
  lemma {:induction false} OnlyStandingQueuesDrop(pop: Scheduler, law: Law, calls: seq<Call>)
    requires Sound(pop) && forall i :: 0 <= i < |calls| ==> Rep(calls[i].queue)
    ensures AllWarranted(Replay(pop, law, calls).codel, Replay(pop, law, calls).hist)
  {
    if calls == [] {
    } else {
      var init := calls[..|calls| - 1];
      OnlyStandingQueuesDrop(pop, law, init);
      var t := Replay(pop, law, init);
      PopCodelWarrants(pop, law, Last(calls).queue, t.codel, t.hist, Last(calls).now);
    }
  }
}
