/** Fairness over the runs of a queue: any stretch of pushes, pops and evictions in which the ring stands. */
module FairRuns {
  import opened Basics
  import opened QueueSpec
  import opened QueuePush
  import opened Drr
  import opened Fairness
  import opened QueueRuns

  /** The event takes no flow out of the ring, not even to put it back, and adds none. */
  ghost predicate Stands(q: nat, s: Queue, e: Event)
    requires Rep(s) && q > 0
  {
    match e
    case Arrive(p, now) => !Admitted(q, p) || (KeyOf(p) in s.flows && |Trimmed(q, s, p).active| == |s.active|)
    case Fetch => Pop(q, s).queue.active == s.active
    case Shed => s.active == [] || |Evict(q, s).active| == |s.active|
  }

  /** What an event takes out to be sent. */
  ghost function Output(q: nat, s: Queue, e: Event): Option<Queued>
    requires Rep(s) && q > 0
  {
    if e.Fetch? then Pop(q, s).info else None
  }

  lemma StandingStep(q: nat, m: nat, s: Queue, e: Event)
    requires Rep(s) && q > 0 && m <= 3 * q && Bounded(q, m, s) && Stands(q, s, e)
    ensures Step(q, s, e).active == s.active && RunStep(q, s, Output(q, s, e), Step(q, s, e))
  {
    match e
    case Arrive(p, now) => PushSchedule(q, m, s, p, now);
    case Fetch =>
    case Shed =>
      if s.active != [] {
        DropHeadSchedule(q, m, s, Victim(s));
      }
  }

  /** The queue after `before` and the first `i` events of `stretch`. */
  ghost function At(q: nat, before: seq<Event>, stretch: seq<Event>, i: nat): (s: Queue)
    requires q > 0 && i <= |stretch|
    ensures Rep(s)
  {
    Run(q, before + stretch[..i])
  }

  lemma AtNext(q: nat, before: seq<Event>, stretch: seq<Event>, i: nat)
    requires q > 0 && i < |stretch|
    ensures At(q, before, stretch, i + 1) == Step(q, At(q, before, stretch, i), stretch[i])
  {
    assert before + stretch[..i + 1] == before + stretch[..i] + [stretch[i]];
    RunSnoc(q, before + stretch[..i], stretch[i]);
  }

  ghost predicate Steady(q: nat, before: seq<Event>, stretch: seq<Event>)
    requires q > 0
  {
    forall i {:trigger At(q, before, stretch, i)} :: 0 <= i < |stretch| ==> Stands(q, At(q, before, stretch, i), stretch[i])
  }

  ghost function States(q: nat, before: seq<Event>, stretch: seq<Event>): (states: seq<Queue>)
    requires q > 0
    ensures |states| == |stretch| + 1
  {
    seq(|stretch| + 1, i requires 0 <= i <= |stretch| => At(q, before, stretch, i))
  }

  ghost function Outputs(q: nat, before: seq<Event>, stretch: seq<Event>): (outs: seq<Option<Queued>>)
    requires q > 0
    ensures |outs| == |stretch|
  {
    seq(|stretch|, i requires 0 <= i < |stretch| => Output(q, At(q, before, stretch, i), stretch[i]))
  }

  lemma AtBounded(q: nat, m: nat, before: seq<Event>, stretch: seq<Event>, i: nat)
    requires q > 0 && 0 < m <= 3 * q && i <= |stretch|
    requires (forall e :: e in before ==> Light(m, e)) && (forall e :: e in stretch ==> Light(m, e))
    ensures Bounded(q, m, At(q, before, stretch, i)) && Small(m, At(q, before, stretch, i))
  {
    RunBounded(q, m, before + stretch[..i]);
  }

  lemma RingStep(q: nat, m: nat, before: seq<Event>, stretch: seq<Event>, i: nat)
    requires q > 0 && 0 < m <= 3 * q && i < |stretch| && Steady(q, before, stretch)
    requires (forall e :: e in before ==> Light(m, e)) && (forall e :: e in stretch ==> Light(m, e))
    ensures At(q, before, stretch, i + 1).active == At(q, before, stretch, i).active
    ensures RunStep(q, At(q, before, stretch, i), Output(q, At(q, before, stretch, i), stretch[i]), At(q, before, stretch, i + 1))
  {
    AtBounded(q, m, before, stretch, i);
    AtNext(q, before, stretch, i);
    StandingStep(q, m, At(q, before, stretch, i), stretch[i]);
  }

  lemma {:induction false} AllSame(rings: seq<seq<FlowKey>>, i: nat)
    requires i < |rings| && forall n :: 0 <= n < |rings| - 1 ==> rings[n] == rings[n + 1]
    ensures rings[i] == rings[0]
  {
    if i == 0 {
    } else {
      AllSame(rings, i - 1);
      assert rings[i - 1] == rings[i - 1 + 1];
    }
  }

  lemma RingStands(q: nat, m: nat, before: seq<Event>, stretch: seq<Event>, i: nat)
    requires q > 0 && 0 < m <= 3 * q && i <= |stretch| && Steady(q, before, stretch)
    requires (forall e :: e in before ==> Light(m, e)) && (forall e :: e in stretch ==> Light(m, e))
    ensures At(q, before, stretch, i).active == At(q, before, stretch, 0).active
  {
    var rings := seq(|stretch| + 1, n requires 0 <= n <= |stretch| => At(q, before, stretch, n).active);
    forall n | 0 <= n < |rings| - 1
      ensures rings[n] == rings[n + 1]
    {
      RingStep(q, m, before, stretch, n);
    }
    AllSame(rings, i);
  }

  lemma StretchStep(q: nat, m: nat, before: seq<Event>, stretch: seq<Event>, i: nat)
    requires q > 0 && 0 < m <= 3 * q && i < |stretch| && Steady(q, before, stretch)
    requires (forall e :: e in before ==> Light(m, e)) && (forall e :: e in stretch ==> Light(m, e))
    ensures StepAt(q, States(q, before, stretch), Outputs(q, before, stretch), i)
  {
    RingStep(q, m, before, stretch, i);
  }

  lemma StretchRingRun(q: nat, m: nat, before: seq<Event>, stretch: seq<Event>)
    requires q > 0 && 0 < m <= 3 * q && Steady(q, before, stretch) && At(q, before, stretch, 0).active != []
    requires (forall e :: e in before ==> Light(m, e)) && (forall e :: e in stretch ==> Light(m, e))
    ensures RingRun(q, m, States(q, before, stretch), Outputs(q, before, stretch))
  {
    var states, outs := States(q, before, stretch), Outputs(q, before, stretch);
    forall i | 0 <= i < |states|
      ensures Standing(m, states[0].active, states[i])
    {
      RingStands(q, m, before, stretch, i);
      AtBounded(q, m, before, stretch, i);
    }
    forall i | 0 <= i < |outs|
      ensures StepAt(q, states, outs, i)
    {
      StretchStep(q, m, before, stretch, i);
    }
  }

  /** In every run of a queue with packets of at most three quanta, over every stretch in which the ring stands, the
      bytes sent for two flows of the ring differ by at most three quanta and two packets. */
  lemma FairStretch(q: nat, m: nat, before: seq<Event>, stretch: seq<Event>, k: FlowKey, j: FlowKey)
    requires q > 0 && 0 < m <= 3 * q && Steady(q, before, stretch)
    requires (forall e :: e in before ==> Light(m, e)) && (forall e :: e in stretch ==> Light(m, e))
    requires k in At(q, before, stretch, 0).active && j in At(q, before, stretch, 0).active
    ensures var log := Log(Outputs(q, before, stretch)); Sent(log, k) <= Sent(log, j) + 3 * q + 2 * m
  {
    StretchRingRun(q, m, before, stretch);
    AtBounded(q, m, before, stretch, 0);
    Fair(q, m, States(q, before, stretch), Outputs(q, before, stretch), k, j);
  }
}
