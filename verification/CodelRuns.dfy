/** When CoDel drops: which packets are judged to go, when dropping starts, how it is paced, and at what rate it
    starts again. */
module CodelRuns {
  import opened Basics
  import opened QueueSpec
  import opened QueueRep
  import opened Drr
  import opened Codels

  /** The packet had waited for the target time in front of at least two others. */
  ghost predicate Standing(e: Exam) {
    e.now - e.info.time >= TARGET && e.behind >= 2
  }

  /** Examination `j` began the stretch of standing packets that lasts to the end. */
  ghost predicate Began(hist: seq<Exam>, j: nat) {
    j < |hist| && (forall x :: j <= x < |hist| ==> Standing(hist[x])) && (j > 0 ==> !Standing(hist[j - 1]))
  }

  /** The stretch that lasts to the end began more than an interval ago. */
  ghost predicate Overdue(hist: seq<Exam>) {
    exists j: nat :: Began(hist, j) && hist[j].now + INTERVAL < Last(hist).now
  }

  ghost predicate RuleHolds(hist: seq<Exam>, i: nat)
    requires i < |hist|
  {
    hist[i].drop <==> Overdue(hist[..i + 1])
  }

  /** The clock runs exactly during a stretch, and shows when the stretch began. */
  ghost predicate ClockRight(c: Codel, hist: seq<Exam>) {
    && (c.firstAbove.Some? <==> hist != [] && Standing(Last(hist)))
    && (c.firstAbove.Some? ==> exists j: nat :: Began(hist, j))
    && (forall j: nat :: Began(hist, j) ==> c.firstAbove == Some(hist[j].now + INTERVAL))
  }

  lemma BeganMore(hist: seq<Exam>, e: Exam, j: nat)
    ensures Began(hist + [e], j) <==>
              Standing(e) && if hist != [] && Standing(Last(hist)) then Began(hist, j) else j == |hist|
  {
    var more := hist + [e];
    assert more[|hist|] == e && forall x :: 0 <= x < |hist| ==> more[x] == hist[x];
    if Began(more, j) && hist != [] && Standing(Last(hist)) {
      assert more[|hist| - 1] == Last(hist);
    }
  }

  /** A packet that is not standing stops the clock. */
  lemma ClockStops(c: Codel, hist: seq<Exam>, e: Exam)
    requires !Standing(e) && c.firstAbove == None
    ensures ClockRight(c, hist + [e]) && !Overdue(hist + [e])
  {
    forall j: nat
      ensures !Began(hist + [e], j)
    {
      BeganMore(hist, e, j);
    }
    assert Last(hist + [e]) == e;
  }

  lemma BeganOnce(hist: seq<Exam>, i: nat, j: nat)
    requires Began(hist, i) && Began(hist, j)
    ensures i == j
  {
  }

  /** The clock shows when a stretch began that began at `j`. */
  lemma ClockAt(c: Codel, hist: seq<Exam>, j: nat)
    requires Began(hist, j) && c.firstAbove == Some(hist[j].now + INTERVAL)
    ensures ClockRight(c, hist)
    ensures Overdue(hist) <==> Last(hist).now > c.firstAbove.value
  {
    assert Standing(hist[|hist| - 1]);
    forall i: nat | Began(hist, i)
      ensures i == j
    {
      BeganOnce(hist, i, j);
    }
  }

  /** The first standing packet starts the clock. */
  lemma ClockStarts(c: Codel, hist: seq<Exam>, e: Exam)
    requires Standing(e) && (hist == [] || !Standing(Last(hist))) && c.firstAbove == Some(e.now + INTERVAL)
    ensures ClockRight(c, hist + [e]) && !Overdue(hist + [e])
  {
    BeganMore(hist, e, |hist|);
    assert (hist + [e])[|hist|] == e && Last(hist + [e]) == e;
    ClockAt(c, hist + [e], |hist|);
  }

  lemma ClockShows(c: Codel, hist: seq<Exam>) returns (j: nat)
    requires ClockRight(c, hist) && hist != [] && Standing(Last(hist))
    ensures Began(hist, j) && c.firstAbove == Some(hist[j].now + INTERVAL)
  {
    j :| Began(hist, j);
  }

  lemma StretchOn(hist: seq<Exam>, e: Exam, j: nat)
    requires Began(hist, j) && Standing(e)
    ensures Began(hist + [e], j) && (hist + [e])[j] == hist[j] && Last(hist + [e]) == e
  {
    BeganMore(hist, e, j);
  }

  /** A further one leaves it running. */
  lemma ClockRuns(c: Codel, c': Codel, hist: seq<Exam>, e: Exam)
    requires ClockRight(c, hist) && Standing(e) && hist != [] && Standing(Last(hist)) && c'.firstAbove == c.firstAbove
    ensures ClockRight(c', hist + [e]) && c.firstAbove.Some?
    ensures Overdue(hist + [e]) <==> e.now > c.firstAbove.value
  {
    var j := ClockShows(c, hist);
    StretchOn(hist, e, j);
    ClockAt(c', hist + [e], j);
  }

  lemma ClockStep(c: Codel, hist: seq<Exam>, e: Exam)
    requires ClockRight(c, hist) && e.drop == Verdict(c, e.info, e.behind, e.now)
    ensures ClockRight(Clock(c, e.info, e.behind, e.now), hist + [e])
    ensures e.drop <==> Overdue(hist + [e])
  {
    var c' := Clock(c, e.info, e.behind, e.now);
    if !Standing(e) {
      ClockStops(c', hist, e);
    } else if hist == [] || !Standing(Last(hist)) {
      ClockStarts(c', hist, e);
    } else {
      ClockRuns(c, c', hist, e);
    }
  }

  /** The clock is right and every verdict so far followed the rule. */
  ghost predicate Judged(c: Codel, hist: seq<Exam>) {
    ClockRight(c, hist) && forall i :: 0 <= i < |hist| ==> RuleHolds(hist, i)
  }

  lemma JudgedMore(c: Codel, hist: seq<Exam>, e: Exam)
    requires Judged(c, hist) && e.drop == Verdict(c, e.info, e.behind, e.now)
    ensures Judged(Clock(c, e.info, e.behind, e.now), hist + [e])
  {
    ClockStep(c, hist, e);
    var more := hist + [e];
    forall i | 0 <= i < |more|
      ensures RuleHolds(more, i)
    {
      if i < |hist| {
        assert RuleHolds(hist, i) && more[..i + 1] == hist[..i + 1];
      } else {
        assert more[..i + 1] == more;
      }
    }
  }

  /** Only the clock matters to the verdicts. */
  lemma SameJudged(c: Codel, c': Codel, hist: seq<Exam>)
    requires Judged(c, hist) && c'.firstAbove == c.firstAbove
    ensures Judged(c', hist)
  {
  }

  lemma ExamineJudged(pop: Scheduler, s: Queue, c: Codel, past: seq<Exam>, seen: seq<Exam>, now: int)
    requires Rep(s) && Sound(pop) && s.count > 0 && Judged(c, past + seen)
    ensures var d := Examine(pop, s, c, seen, now); Judged(d.codel, past + d.seen)
  {
    var d := Examine(pop, s, c, seen, now);
    JudgedMore(c, past + seen, Last(d.seen));
    assert past + d.seen == past + seen + [Last(d.seen)];
  }

  lemma {:induction false} DropWhileJudged(pop: Scheduler, law: Law, d: Dequeue, past: seq<Exam>, now: int)
    requires Holding(d) && Sound(pop) && (d.codel.dropping ==> Last(d.seen).drop) && Judged(d.codel, past + d.seen)
    ensures var r := DropWhileDue(pop, law, d, now); Judged(r.codel, past + r.seen)
    decreases d.queue.count
  {
    if !Due(d.codel, now) {
    } else {
      var c, e := Counted(d.codel), Again(pop, law, d, now);
      SameJudged(d.codel, c, past + d.seen);
      ExamineJudged(pop, d.queue, c, past, d.seen, now);
      SameJudged(Examine(pop, d.queue, c, d.seen, now).codel, e.codel, past + e.seen);
      DropWhileJudged(pop, law, e, past, now);
    }
  }

  lemma SettleJudged(pop: Scheduler, law: Law, d: Dequeue, past: seq<Exam>, now: int)
    requires Holding(d) && Sound(pop) && Judged(d.codel, past + d.seen)
    ensures var r := Settle(pop, law, d, now); Judged(r.codel, past + r.seen)
  {
    var r := Settle(pop, law, d, now);
    if d.codel.dropping && Last(d.seen).drop {
      DropWhileJudged(pop, law, d, past, now);
    } else if Last(d.seen).drop && Enters(d.codel, now) {
      ExamineJudged(pop, d.queue, d.codel, past, d.seen, now);
      SameJudged(Examine(pop, d.queue, d.codel, d.seen, now).codel, r.codel, past + r.seen);
    } else {
      SameJudged(d.codel, r.codel, past + d.seen);
    }
  }

  lemma PopCodelJudged(pop: Scheduler, law: Law, s: Queue, c: Codel, past: seq<Exam>, now: int)
    requires Rep(s) && Sound(pop) && Judged(c, past)
    ensures var d := PopCodel(pop, law, s, c, now); Judged(d.codel, past + d.seen)
  {
    assert past + [] == past;
    assert Fetches(s, pop(s));
    if pop(s).info.None? {
      SameJudged(c, c.(dropping := false), past);
    } else {
      EmptyAgree(s);
      ExamineJudged(pop, s, c, past, [], now);
      SettleJudged(pop, law, Examine(pop, s, c, [], now), past, now);
    }
  }

  /** In every run, a packet is judged to be dropped exactly if it ends a stretch of standing packets that began more
      than an interval ago. */
  lemma {:induction false} DropsExactlyStanding(pop: Scheduler, law: Law, calls: seq<Call>)
    requires Sound(pop) && forall i :: 0 <= i < |calls| ==> Rep(calls[i].queue)
    ensures Judged(Replay(pop, law, calls).codel, Replay(pop, law, calls).hist)
  {
    if calls == [] {
    } else {
      var init := calls[..|calls| - 1];
      DropsExactlyStanding(pop, law, init);
      var t := Replay(pop, law, init);
      PopCodelJudged(pop, law, Last(calls).queue, t.codel, t.hist, Last(calls).now);
    }
  }

  // ---------------------------------------------------------------------------
  // Starting to drop
  // ---------------------------------------------------------------------------

  ghost predicate Callable(pop: Scheduler, calls: seq<Call>, call: Call) {
    Sound(pop) && (forall i :: 0 <= i < |calls| ==> Rep(calls[i].queue)) && Rep(call.queue)
  }

  /** What a further call does after a series of calls. */
  ghost function Answer(pop: Scheduler, law: Law, calls: seq<Call>, call: Call): Dequeue
    requires Callable(pop, calls, call)
  {
    PopCodel(pop, law, call.queue, Replay(pop, law, calls).codel, call.now)
  }

  /** The stretch that lasts to the end began two intervals ago or earlier. */
  ghost predicate LongOverdue(hist: seq<Exam>) {
    exists j: nat :: Began(hist, j) && hist[j].now + 2 * INTERVAL <= Last(hist).now
  }

  ghost predicate Recently(due: Option<int>, now: int) {
    due.Some? && now < due.value + INTERVAL
  }

  lemma FirstExam(pop: Scheduler, s: Queue, c: Codel, now: int)
    requires Rep(s) && Sound(pop) && s.count > 0
    ensures var e := Examine(pop, s, c, [], now);
            |e.seen| == 1 && e.seen[0].now == now && e.codel == c.(firstAbove := e.codel.firstAbove)
  {
  }

  lemma AnswerIs(pop: Scheduler, law: Law, s: Queue, c: Codel, now: int)
    requires Rep(s) && Sound(pop) && s.count > 0
    ensures PopCodel(pop, law, s, c, now) == Settle(pop, law, Examine(pop, s, c, [], now), now)
  {
    assert Fetches(s, pop(s));
  }

  /** The test for starting to drop, in terms of what was examined. */
  lemma EntersIff(c: Codel, hist: seq<Exam>)
    requires hist != [] && Judged(c, hist)
    ensures Last(hist).drop <==> Overdue(hist)
    ensures Overdue(hist) ==> (Enters(c, Last(hist).now) <==> Recently(c.dropNext, Last(hist).now) || LongOverdue(hist))
  {
    assert RuleHolds(hist, |hist| - 1) && hist[..|hist|] == hist;
    if Overdue(hist) {
      var j: nat :| Began(hist, j) && hist[j].now + INTERVAL < Last(hist).now;
      assert c.firstAbove == Some(hist[j].now + INTERVAL);
    }
  }

  lemma SettleStarts(pop: Scheduler, law: Law, e: Dequeue, past: seq<Exam>, now: int)
    requires Holding(e) && Sound(pop) && |e.seen| == 1 && e.seen[0].now == now && !e.codel.dropping
    requires Judged(e.codel, past + [e.seen[0]])
    ensures var hist := past + [e.seen[0]];
            Starts(hist, e.codel.dropNext, now, e.seen[0], Settle(pop, law, e, now))
  {
    EntersIff(e.codel, past + [e.seen[0]]);
    assert Last(past + [e.seen[0]]) == e.seen[0];
    var r := SettleIdle(pop, law, e, now);
  }

  lemma SettleIdle(pop: Scheduler, law: Law, e: Dequeue, now: int) returns (r: Dequeue)
    requires Holding(e) && Sound(pop) && |e.seen| == 1 && !e.codel.dropping
    ensures r == Settle(pop, law, e, now) && r.seen != [] && r.seen[0] == e.seen[0]
    ensures |r.seen| == if e.seen[0].drop && Enters(e.codel, now) then 2 else 1
    ensures r.codel.dropping <==> |r.seen| == 2
  {
    r := Settle(pop, law, e, now);
  }

  /** What a call made while not dropping does, if the packets examined up to its first are `hist`. */
  ghost predicate Starts(hist: seq<Exam>, due: Option<int>, now: int, first: Exam, d: Dequeue) {
    var starts := Overdue(hist) && (Recently(due, now) || LongOverdue(hist));
    && |d.seen| == (if starts then 2 else 1) && d.seen[0] == first
    && (d.codel.dropping <==> starts)
  }

  /** In every run, a call made while not dropping drops one packet exactly if the first packet it examines ends a
      stretch that began more than an interval ago, and either a drop was scheduled less than an interval ago or later,
      or the stretch began two intervals ago. It then goes on dropping, and otherwise delivers what it examined. */
  lemma StartsExactly(pop: Scheduler, law: Law, calls: seq<Call>, call: Call)
    requires Callable(pop, calls, call) && call.queue.count > 0 && !Replay(pop, law, calls).codel.dropping
    ensures var t, d := Replay(pop, law, calls), Answer(pop, law, calls, call);
            d.seen != [] && d.seen[0].now == call.now && Starts(t.hist + [d.seen[0]], t.codel.dropNext, call.now, d.seen[0], d)
  {
    var t := Replay(pop, law, calls);
    DropsExactlyStanding(pop, law, calls);
    StartsFrom(pop, law, call.queue, t.codel, t.hist, call.now);
  }

  lemma StartsFrom(pop: Scheduler, law: Law, s: Queue, c: Codel, past: seq<Exam>, now: int)
    requires Rep(s) && Sound(pop) && s.count > 0 && !c.dropping && Judged(c, past)
    ensures var d := PopCodel(pop, law, s, c, now);
            d.seen != [] && d.seen[0].now == now && Starts(past + [d.seen[0]], c.dropNext, now, d.seen[0], d)
  {
    var e := Examine(pop, s, c, [], now);
    FirstExam(pop, s, c, now);
    AnswerIs(pop, law, s, c, now);
    assert past + [] == past;
    ExamineJudged(pop, s, c, past, [], now);
    assert e.seen == [e.seen[0]];
    SettleStarts(pop, law, e, past, now);
  }

  /** A standing queue is dropped from: if packets have been standing for two intervals and the next one is too, it
      goes, and another is delivered in its place. */
  lemma StandingQueueDrops(pop: Scheduler, law: Law, calls: seq<Call>, call: Call, j: nat)
    requires Callable(pop, calls, call) && call.queue.count > 0 && !Replay(pop, law, calls).codel.dropping
    requires var hist := Replay(pop, law, calls).hist; Began(hist, j) && hist[j].now + 2 * INTERVAL <= call.now
    requires Answer(pop, law, calls, call).seen != [] && Standing(Answer(pop, law, calls, call).seen[0])
    ensures var d := Answer(pop, law, calls, call); |d.seen| == 2 && d.codel.dropping
  {
    var t, d := Replay(pop, law, calls), Answer(pop, law, calls, call);
    StartsExactly(pop, law, calls, call);
    StretchGoesOn(t.hist, d.seen[0], j);
  }

  lemma StretchGoesOn(hist: seq<Exam>, e: Exam, j: nat)
    requires Began(hist, j) && Standing(e) && hist[j].now + 2 * INTERVAL <= e.now
    ensures Overdue(hist + [e]) && LongOverdue(hist + [e])
  {
    StretchOn(hist, e, j);
  }

  // ---------------------------------------------------------------------------
  // The pace of dropping
  // ---------------------------------------------------------------------------

  /** When the drop after `i` more is due, if the next one is due at `due` and `n` were counted before. */
  ghost function DueAt(law: Law, due: int, n: nat, i: nat): int
    decreases i
  {
    if i == 0 then due else DueAt(law, law(due, (n + 1) % U32), (n + 1) % U32, i - 1)
  }

  /** The packet at `first + i` was to go, and the drop after `i` more was due. */
  ghost predicate DropAt(law: Law, due: int, n: nat, seen: seq<Exam>, first: nat, i: nat, now: int) {
    first + i < |seen| && seen[first + i].drop && DueAt(law, due, n, i) <= now
  }

  /** From `first` on, `m` packets were dropped: as long as drops were due by `now` and the packet at hand was to go. */
  ghost predicate Paced(law: Law, due: int, n: nat, seen: seq<Exam>, first: nat, m: nat, r: Codel, now: int) {
    && |seen| == first + m + 1
    && (forall i: nat :: i < m ==> DropAt(law, due, n, seen, first, i, now))
    && (r.dropping <==> seen[first + m].drop)
    && (r.dropping ==> DueAt(law, due, n, m) > now)
    && r.dropNext == Some(DueAt(law, due, n, if r.dropping || m == 0 then m else m - 1))
  }

  lemma DueLater(law: Law, due: int, n: nat, i: nat)
    requires i > 0
    ensures DueAt(law, due, n, i) == DueAt(law, law(due, (n + 1) % U32), (n + 1) % U32, i - 1)
  {
  }

  /** One drop, and then a paced series of drops. */
  lemma PacedMore(law: Law, due: int, n: nat, seen: seq<Exam>, first: nat, m: nat, r: Codel, now: int)
    requires Paced(law, law(due, (n + 1) % U32), (n + 1) % U32, seen, first + 1, m, r, now)
    requires seen[first].drop && due <= now && (m == 0 ==> r.dropping)
    ensures Paced(law, due, n, seen, first, m + 1, r, now)
  {
    DueLater(law, due, n, m + 1);
    if !r.dropping && m > 0 {
      DueLater(law, due, n, m);
    }
    assert seen[first + (m + 1)] == seen[first + 1 + m];
    forall i: nat | i < m + 1
      ensures DropAt(law, due, n, seen, first, i, now)
    {
      if i > 0 {
        DueLater(law, due, n, i);
        assert DropAt(law, law(due, (n + 1) % U32), (n + 1) % U32, seen, first + 1, i - 1, now);
      }
    }
  }

  lemma PacedNone(law: Law, due: int, n: nat, seen: seq<Exam>, first: nat, r: Codel, now: int)
    requires |seen| == first + 1 && seen[first].drop && now < due && r.dropping && r.dropNext == Some(due)
    ensures Paced(law, due, n, seen, first, 0, r, now)
  {
  }

  lemma PacedOnce(law: Law, due: int, n: nat, seen: seq<Exam>, first: nat, r: Codel, now: int)
    requires |seen| == first + 2 && seen[first].drop && due <= now && !seen[first + 1].drop && !r.dropping && r.dropNext == Some(due)
    ensures Paced(law, due, n, seen, first, 1, r, now)
  {
    forall i: nat | i < 1
      ensures DropAt(law, due, n, seen, first, i, now)
    {
    }
  }

  lemma AgainIs(pop: Scheduler, law: Law, d: Dequeue, now: int)
    requires Holding(d) && Sound(pop) && d.codel.dropping && d.codel.dropNext.Some? && Last(d.seen).drop
    ensures var e, n := Again(pop, law, d, now), (d.codel.count + 1) % U32;
            && |e.seen| == |d.seen| + 1 && d.seen <= e.seen && e.codel.count == n
            && (e.codel.dropping <==> Last(e.seen).drop)
            && e.codel.dropNext == if e.codel.dropping then Some(law(d.codel.dropNext.value, n)) else d.codel.dropNext
  {
  }

  /** A scheduled drop: the packet at hand is to go, and the next drop has a due time. */
  ghost predicate Scheduled(d: Dequeue, first: nat) {
    d.codel.dropping && d.codel.dropNext.Some? && |d.seen| == first + 1 && d.seen[first].drop
  }

  /** What `r` made of `d`. */
  ghost predicate PacedFrom(law: Law, d: Dequeue, first: nat, m: nat, r: Dequeue, now: int)
    requires Scheduled(d, first)
  {
    d.seen <= r.seen && Paced(law, d.codel.dropNext.value, d.codel.count, r.seen, first, m, r.codel, now)
  }

  /** One drop, after which dropping goes on or ends. */
  lemma PacedStep(law: Law, d: Dequeue, e: Dequeue, first: nat, k: nat, r: Dequeue, now: int)
    requires Scheduled(d, first) && d.codel.dropNext.value <= now && d.seen <= e.seen && |e.seen| == first + 2
    requires e.codel.dropping ==> && Scheduled(e, first + 1) && e.codel.count == (d.codel.count + 1) % U32
                                  && e.codel.dropNext == Some(law(d.codel.dropNext.value, e.codel.count))
                                  && PacedFrom(law, e, first + 1, k, r, now)
    requires !e.codel.dropping ==> r == e && k == 0 && !e.seen[first + 1].drop && e.codel.dropNext == d.codel.dropNext
    ensures PacedFrom(law, d, first, k + 1, r, now)
  {
    assert r.seen[first] == e.seen[first] == d.seen[first];
    if e.codel.dropping {
      PacedMore(law, d.codel.dropNext.value, d.codel.count, r.seen, first, k, r.codel, now);
    } else {
      PacedOnce(law, d.codel.dropNext.value, d.codel.count, r.seen, first, r.codel, now);
    }
  }

  lemma DropWhileNone(pop: Scheduler, law: Law, d: Dequeue, first: nat, now: int)
    requires Holding(d) && Sound(pop) && Scheduled(d, first) && now < d.codel.dropNext.value
    ensures DropWhileDue(pop, law, d, now) == d && PacedFrom(law, d, first, 0, d, now)
  {
    PacedNone(law, d.codel.dropNext.value, d.codel.count, d.seen, first, d.codel, now);
  }

  lemma DropWhileOnce(pop: Scheduler, law: Law, d: Dequeue, first: nat, now: int) returns (e: Dequeue)
    requires Holding(d) && Sound(pop) && Scheduled(d, first) && now >= d.codel.dropNext.value
    ensures Holding(e) && e.queue.count < d.queue.count && d.seen <= e.seen && |e.seen| == first + 2
    ensures e.codel.dropping ==> Scheduled(e, first + 1)
    ensures e.codel.dropping ==> && e.codel.count == (d.codel.count + 1) % U32
                                 && e.codel.dropNext == Some(law(d.codel.dropNext.value, e.codel.count))
    ensures e.codel.dropping ==> DropWhileDue(pop, law, d, now) == DropWhileDue(pop, law, e, now)
    ensures !e.codel.dropping ==> e.codel.dropNext == d.codel.dropNext
    ensures !e.codel.dropping ==> DropWhileDue(pop, law, d, now) == e && !e.seen[first + 1].drop
  {
    e := Again(pop, law, d, now);
    AgainIs(pop, law, d, now);
  }

  lemma {:induction false} DropWhilePaced(pop: Scheduler, law: Law, d: Dequeue, first: nat, now: int) returns (m: nat, r: Dequeue)
    requires Holding(d) && Sound(pop) && Scheduled(d, first)
    ensures r == DropWhileDue(pop, law, d, now) && PacedFrom(law, d, first, m, r, now)
    decreases d.queue.count
  {
    if now < d.codel.dropNext.value {
      DropWhileNone(pop, law, d, first, now);
      m, r := 0, d;
    } else {
      var e := DropWhileOnce(pop, law, d, first, now);
      m, r := 0, e;
      if e.codel.dropping {
        m, r := DropWhilePaced(pop, law, e, first + 1, now);
      }
      PacedStep(law, d, e, first, m, r, now);
      m := m + 1;
    }
  }

  /** A call made while dropping, from a state where a drop is scheduled. */
  lemma DropsFrom(pop: Scheduler, law: Law, s: Queue, c: Codel, now: int) returns (m: nat)
    requires Rep(s) && Sound(pop) && s.count > 0 && c.dropping && c.dropNext.Some?
    ensures var d := PopCodel(pop, law, s, c, now); Paced(law, c.dropNext.value, c.count, d.seen, 0, m, d.codel, now)
  {
    var e := Examine(pop, s, c, [], now);
    FirstExam(pop, s, c, now);
    AnswerIs(pop, law, s, c, now);
    m := 0;
    if Last(e.seen).drop {
      var r;
      m, r := DropWhilePaced(pop, law, e, 0, now);
    }
  }

  lemma StaysScheduled(pop: Scheduler, law: Law, s: Queue, c: Codel, now: int)
    requires Rep(s) && Sound(pop) && (c.dropping ==> c.dropNext.Some?)
    ensures var d := PopCodel(pop, law, s, c, now); d.codel.dropping ==> d.codel.dropNext.Some?
  {
    assert Fetches(s, pop(s));
    if s.count > 0 {
      EmptyAgree(s);
      if c.dropping {
        var m := DropsFrom(pop, law, s, c, now);
      } else {
        AnswerIs(pop, law, s, c, now);
      }
    }
  }

  lemma {:induction false} DroppingScheduled(pop: Scheduler, law: Law, calls: seq<Call>)
    requires Sound(pop) && forall i :: 0 <= i < |calls| ==> Rep(calls[i].queue)
    ensures var c := Replay(pop, law, calls).codel; c.dropping ==> c.dropNext.Some?
  {
    if calls == [] {
    } else {
      var init := calls[..|calls| - 1];
      DroppingScheduled(pop, law, init);
      StaysScheduled(pop, law, Last(calls).queue, Replay(pop, law, init).codel, Last(calls).now);
    }
  }

  /** In every run, a call made while dropping drops packets, the first examined first, until the packet at hand is not
      to be dropped, which ends the dropping, or until the next drop is not yet due. */
  lemma DropsWhenDue(pop: Scheduler, law: Law, calls: seq<Call>, call: Call) returns (m: nat)
    requires Callable(pop, calls, call) && call.queue.count > 0 && Replay(pop, law, calls).codel.dropping
    ensures var c, d := Replay(pop, law, calls).codel, Answer(pop, law, calls, call);
            c.dropNext.Some? && Paced(law, c.dropNext.value, c.count, d.seen, 0, m, d.codel, call.now)
  {
    DroppingScheduled(pop, law, calls);
    m := DropsFrom(pop, law, call.queue, Replay(pop, law, calls).codel, call.now);
  }

  /** An empty queue ends the dropping and leaves the clock alone. */
  lemma EmptyStops(pop: Scheduler, law: Law, calls: seq<Call>, call: Call)
    requires Callable(pop, calls, call) && call.queue.count == 0
    ensures var c, d := Replay(pop, law, calls).codel, Answer(pop, law, calls, call);
            d.seen == [] && d.codel == c.(dropping := false)
  {
    assert Fetches(call.queue, pop(call.queue));
  }

  // ---------------------------------------------------------------------------
  // The rate at which dropping starts
  // ---------------------------------------------------------------------------

  /** A counter that stood at `n`, after counting `m` more; it wraps around at 32 bits. */
  ghost function CountOn(n: nat, m: nat): nat
    decreases m
  {
    if m == 0 then n else CountOn((n + 1) % U32, m - 1)
  }

  lemma {:induction false} CountOnMore(n: nat, m: nat, k: nat)
    ensures CountOn(CountOn(n, m), k) == CountOn(n, m + k)
    decreases m
  {
    if m == 0 {
    } else {
      CountOnMore((n + 1) % U32, m - 1, k);
    }
  }

  lemma {:induction false} CountOnIs(n: nat, m: nat)
    requires n < U32
    ensures CountOn(n, m) == (n + m) % U32
    decreases m
  {
    if m == 0 {
    } else if n + 1 < U32 {
      CountOnIs(n + 1, m - 1);
    } else {
      CountOnIs(0, m - 1);
      assert (m - 1 + U32) % U32 == (m - 1) % U32;
    }
  }

  lemma {:induction false} WholeLaps(a: nat, laps: nat)
    ensures (a + laps * U32) % U32 == a % U32
  {
    if laps == 0 {
    } else {
      WholeLaps(a, laps - 1);
      assert (a + (laps - 1) * U32 + U32) % U32 == (a + (laps - 1) * U32) % U32;
    }
  }

  /** Adding within one lap and taking back. */
  lemma LapBack(n: nat, r: nat)
    requires n < U32 && r < U32
    ensures ((n + r) % U32 - n) % U32 == r
  {
    if n + r < U32 {
      assert (n + r) % U32 == n + r;
    } else {
      assert (n + r) % U32 == n + r - U32;
    }
  }

  lemma Laps(m: nat)
    ensures m == m % U32 + m / U32 * U32
  {
  }

  lemma CountedBack(n: nat, m: nat)
    requires n < U32
    ensures (CountOn(n, m) - n) % U32 == m % U32
  {
    var r, laps := m % U32, m / U32;
    CountOnIs(n, m);
    Laps(m);
    WholeLaps(n + r, laps);
    LapBack(n, r);
    assert n + m == n + r + laps * U32;
  }

  /** The packets dropped since dropping last started, without the one that started it. */
  ghost function Drops(pop: Scheduler, law: Law, calls: seq<Call>): nat
    requires Sound(pop) && forall i :: 0 <= i < |calls| ==> Rep(calls[i].queue)
  {
    if calls == [] then 0
    else
      var init, last := calls[..|calls| - 1], Last(calls);
      var c := Replay(pop, law, init).codel;
      DropsAfter(Drops(pop, law, init), c, PopCodel(pop, law, last.queue, c, last.now))
  }

  ghost function DropsAfter(drops: nat, c: Codel, d: Dequeue): nat {
    if !c.dropping && d.codel.dropping then 0
    else drops + if c.dropping && d.seen != [] then |d.seen| - 1 else 0
  }

  lemma AgainCounts(pop: Scheduler, law: Law, d: Dequeue, now: int)
    requires Holding(d) && Sound(pop) && Last(d.seen).drop
    ensures var e := Again(pop, law, d, now);
            |e.seen| == |d.seen| + 1 && e.codel.lastCount == d.codel.lastCount && e.codel.count == CountOn(d.codel.count, 1)
  {
    assert CountOn((d.codel.count + 1) % U32, 0) == (d.codel.count + 1) % U32;
  }

  /** A dequeue counts on from `d` to `r`. */
  ghost predicate CountsOn(d: Dequeue, r: Dequeue) {
    |d.seen| <= |r.seen| && r.codel.lastCount == d.codel.lastCount && r.codel.count == CountOn(d.codel.count, |r.seen| - |d.seen|)
  }

  lemma CountsOnTransitive(d: Dequeue, e: Dequeue, r: Dequeue)
    requires CountsOn(d, e) && CountsOn(e, r)
    ensures CountsOn(d, r)
  {
    CountOnMore(d.codel.count, |e.seen| - |d.seen|, |r.seen| - |e.seen|);
  }

  lemma {:induction false} DropWhileCounts(pop: Scheduler, law: Law, d: Dequeue, now: int)
    requires Holding(d) && Sound(pop) && (d.codel.dropping ==> Last(d.seen).drop)
    ensures CountsOn(d, DropWhileDue(pop, law, d, now))
    decreases d.queue.count
  {
    if !Due(d.codel, now) {
    } else {
      var e := Again(pop, law, d, now);
      AgainCounts(pop, law, d, now);
      DropWhileCounts(pop, law, e, now);
      CountsOnTransitive(d, e, DropWhileDue(pop, law, e, now));
    }
  }

  /** What a dequeue does to the two counters. */
  ghost predicate Tallied(c: Codel, d: Dequeue) {
    if !c.dropping && d.codel.dropping then d.codel.count == d.codel.lastCount < U32
    else
      && d.codel.lastCount == c.lastCount
      && d.codel.count == CountOn(c.count, if c.dropping && d.seen != [] then |d.seen| - 1 else 0)
  }

  /** A first packet led to `r`: by drops that were due, by starting to drop, or not at all. */
  ghost predicate Follows(law: Law, e: Dequeue, r: Dequeue, now: int) {
    || (e.codel.dropping && CountsOn(e, r))
    || (!e.codel.dropping && r.codel.dropping && r.codel == Resumed(law, e.codel.(firstAbove := r.codel.firstAbove), now))
    || (r.seen == e.seen && r.codel == e.codel.(dropping := false))
  }

  lemma SettleIs(pop: Scheduler, law: Law, e: Dequeue, now: int) returns (r: Dequeue)
    requires Holding(e) && Sound(pop)
    ensures r == Settle(pop, law, e, now) && Follows(law, e, r, now)
  {
    r := Settle(pop, law, e, now);
    if e.codel.dropping && Last(e.seen).drop {
      DropWhileCounts(pop, law, e, now);
    }
  }

  lemma FollowsTallied(law: Law, e: Dequeue, r: Dequeue, now: int)
    requires Follows(law, e, r, now) && |e.seen| == 1
    ensures Tallied(e.codel, r)
  {
    if e.codel.dropping && CountsOn(e, r) {
      assert |r.seen| - |e.seen| == |r.seen| - 1;
    } else {
      assert CountOn(e.codel.count, 0) == e.codel.count;
    }
  }

  lemma SettleTallied(pop: Scheduler, law: Law, e: Dequeue, now: int)
    requires Holding(e) && Sound(pop) && |e.seen| == 1
    ensures Tallied(e.codel, Settle(pop, law, e, now))
  {
    var r := SettleIs(pop, law, e, now);
    FollowsTallied(law, e, r, now);
  }

  lemma CallTallied(pop: Scheduler, law: Law, s: Queue, c: Codel, now: int)
    requires Rep(s) && Sound(pop)
    ensures Tallied(c, PopCodel(pop, law, s, c, now))
  {
    assert Fetches(s, pop(s));
    if s.count > 0 {
      FirstExam(pop, s, c, now);
      AnswerIs(pop, law, s, c, now);
      SettleTallied(pop, law, Examine(pop, s, c, [], now), now);
    }
  }

  lemma TalliedDrops(drops: nat, c: Codel, d: Dequeue)
    requires Tallied(c, d) && c.lastCount < U32 && c.count == CountOn(c.lastCount, drops)
    ensures d.codel.lastCount < U32 && d.codel.count == CountOn(d.codel.lastCount, DropsAfter(drops, c, d))
  {
    CountOnMore(c.lastCount, drops, if c.dropping && d.seen != [] then |d.seen| - 1 else 0);
  }

  /** The counters tell how many packets were dropped since dropping last started. */
  lemma {:induction false} CountsDrops(pop: Scheduler, law: Law, calls: seq<Call>)
    requires Sound(pop) && forall i :: 0 <= i < |calls| ==> Rep(calls[i].queue)
    ensures var c := Replay(pop, law, calls).codel; c.lastCount < U32 && c.count == CountOn(c.lastCount, Drops(pop, law, calls))
  {
    if calls == [] {
    } else {
      var init, last := calls[..|calls| - 1], Last(calls);
      CountsDrops(pop, law, init);
      var c := Replay(pop, law, init).codel;
      CallTallied(pop, law, last.queue, c, last.now);
      TalliedDrops(Drops(pop, law, init), c, PopCodel(pop, law, last.queue, c, last.now));
    }
  }

  /** The rate and the schedule that dropping starts with. */
  ghost predicate StartsWith(law: Law, c: Codel, drops: nat, now: int, r: Codel) {
    && r.count == (if drops > 1 && c.dropNext.Some? && now < c.dropNext.value + 16 * INTERVAL then drops else 1)
    && r.dropNext == Some(law(now, r.count))
  }

  lemma ResumedStartsWith(law: Law, c: Codel, drops: nat, now: int)
    requires c.lastCount < U32 && c.count == CountOn(c.lastCount, drops)
    ensures StartsWith(law, c, drops % U32, now, Resumed(law, c, now))
  {
    CountedBack(c.lastCount, drops);
  }

  lemma FollowsStartsWith(law: Law, e: Dequeue, r: Dequeue, drops: nat, now: int)
    requires Follows(law, e, r, now) && !e.codel.dropping && r.codel.dropping
    requires e.codel.lastCount < U32 && e.codel.count == CountOn(e.codel.lastCount, drops)
    ensures StartsWith(law, e.codel, drops % U32, now, r.codel)
  {
    ResumedStartsWith(law, e.codel.(firstAbove := r.codel.firstAbove), drops, now);
  }

  lemma StartsAtRateFrom(pop: Scheduler, law: Law, s: Queue, c: Codel, drops: nat, now: int)
    requires Rep(s) && Sound(pop) && !c.dropping && PopCodel(pop, law, s, c, now).codel.dropping
    requires c.lastCount < U32 && c.count == CountOn(c.lastCount, drops)
    ensures StartsWith(law, c, drops % U32, now, PopCodel(pop, law, s, c, now).codel)
  {
    assert Fetches(s, pop(s));
    if s.count > 0 {
      FirstExam(pop, s, c, now);
      AnswerIs(pop, law, s, c, now);
      var e := Examine(pop, s, c, [], now);
      var r := SettleIs(pop, law, e, now);
      FollowsStartsWith(law, e, r, drops, now);
    }
  }

  /** In every run, dropping starts at the rate that the previous dropping had reached, as counted by the packets it
      dropped, if a drop was scheduled less than sixteen intervals ago or later; and at the lowest rate otherwise. */
  lemma StartsAtRate(pop: Scheduler, law: Law, calls: seq<Call>, call: Call)
    requires Callable(pop, calls, call) && !Replay(pop, law, calls).codel.dropping && Answer(pop, law, calls, call).codel.dropping
    ensures var c, d := Replay(pop, law, calls).codel, Answer(pop, law, calls, call);
            StartsWith(law, c, Drops(pop, law, calls) % U32, call.now, d.codel)
  {
    var c := Replay(pop, law, calls).codel;
    CountsDrops(pop, law, calls);
    StartsAtRateFrom(pop, law, call.queue, c, Drops(pop, law, calls), call.now);
  }
}
