/** Deficits stay bounded, and no flow in a fixed ring is served much more than another. */
module Fairness {
  import opened Basics
  import opened Wire
  import opened QueueSpec
  import opened QueueRep
  import opened QueuePush
  import opened Drr

  // ---------------------------------------------------------------------------
  // Bounded deficits
  // ---------------------------------------------------------------------------

  /** No queued packet is larger than `m`. */
  ghost predicate Small(m: nat, s: Queue) {
    forall k, p :: k in s.flows && p in s.flows[k].infos ==> p.size <= m
  }

  predicate UnderCursor(s: Queue, k: FlowKey) {
    s.next.Some? && s.next.value < |s.active| && s.active[s.next.value] == k
  }

  /** The credit a flow may hold: less than one packet, plus a quantum while it has its turn. */
  ghost predicate Bounded(q: nat, m: nat, s: Queue) {
    forall k :: k in s.flows ==> s.flows[k].deficit < m + (if UnderCursor(s, k) then q else 0)
  }

  lemma VacateBounded(q: nat, m: nat, s: Queue, k: FlowKey)
    requires Ring(s.flows, s.active) && CursorOk(s) && k in s.flows && Bounded(q, m, s)
    ensures Bounded(q, m, Vacate(s, k))
  {
    var s' := Vacate(s, k);
    VacateRing(s, k);
    forall j | j in s'.flows
      ensures s'.flows[j].deficit < m + (if UnderCursor(s', j) then q else 0)
    {
      assert UnderCursor(s, j) ==> UnderCursor(s', j);
    }
  }

  lemma DropHeadBounded(q: nat, m: nat, s: Queue, k: FlowKey)
    requires Rep(s) && k in s.flows && Bounded(q, m, s)
    ensures Bounded(q, m, DropHead(q, s, k))
  {
    var b := Beheaded(q, s, k);
    assert Bounded(q, m, b);
    if |s.flows[k].infos| == 1 {
      BeheadedSums(q, s, k);
      VacateBounded(q, m, b, k);
    }
  }

  lemma {:induction false} TrimFlowBounded(q: nat, m: nat, s: Queue, k: FlowKey, size: nat)
    requires Rep(s) && Bounded(q, m, s)
    ensures Bounded(q, m, TrimFlow(q, s, k, size))
    decreases |Fifo(s, k)|
  {
    if k !in s.flows || s.flows[k].size + size <= PER_FLOW_MULTIPLIER * q {
    } else {
      DropHeadRep(q, s, k);
      DropHeadFifo(q, s, k, k);
      DropHeadBounded(q, m, s, k);
      TrimFlowBounded(q, m, DropHead(q, s, k), k, size);
    }
  }

  lemma {:induction false} TrimAllBounded(q: nat, m: nat, s: Queue, size: nat)
    requires Rep(s) && Bounded(q, m, s)
    ensures Bounded(q, m, TrimAll(q, s, size))
    decreases if s.count > 0 then s.count else 0
  {
    if !Crowded(q, s, size) {
    } else {
      DropHeadBounded(q, m, s, Victim(s));
      TrimAllBounded(q, m, Evict(q, s), size);
    }
  }

  lemma EnqueueBounded(q: nat, m: nat, s: Queue, k: FlowKey, info: Queued)
    requires CursorOk(s) && Bounded(q, m, s) && m > 0
    ensures Bounded(q, m, Enqueue(s, k, info))
  {
    assert forall j :: UnderCursor(s, j) ==> UnderCursor(Enqueue(s, k, info), j);
  }

  /** A push keeps the bound. */
  lemma PushBounded(q: nat, m: nat, s: Queue, p: Packet, now: int)
    requires Rep(s) && Bounded(q, m, s) && m > 0
    ensures Bounded(q, m, Push(q, s, p, now))
  {
    if Admitted(q, p) {
      var t := TrimFlow(q, s, KeyOf(p), WireSize(p));
      TrimFlowBounded(q, m, s, KeyOf(p), WireSize(p));
      TrimAllBounded(q, m, t, WireSize(p));
      EnqueueBounded(q, m, Trimmed(q, s, p), KeyOf(p), Queued(p, WireSize(p), now));
    }
  }

  lemma VisitBounded(q: nat, m: nat, s: Queue, t: Queue, i: nat)
    requires Visits(q, s, t, i) && forall k :: k in s.flows ==> s.flows[k].deficit < m
    ensures Bounded(q, m, t)
  {
    assert UnderCursor(t, s.active[i]);
  }

  lemma SameBacklogSmall(m: nat, s: Queue, t: Queue)
    requires SameBacklog(s, t) && Small(m, s)
    ensures Small(m, t)
  {
    assert forall k :: k in t.flows ==> t.flows[k].infos == s.flows[k].infos;
  }

  /** A flow that cannot send holds less than a packet. */
  lemma AdvanceBounded(q: nat, m: nat, s: Queue)
    requires AtCursor(s) && !Serveable(Current(s)) && Bounded(q, m, s) && Small(m, s)
    ensures AtCursor(Advance(q, s)) && Bounded(q, m, Advance(q, s)) && Small(m, Advance(q, s))
  {
    AdvanceFacts(q, s);
    SameBacklogSmall(m, s, Advance(q, s));
    assert FlowOk(s.active[s.next.value], Current(s));
    assert Current(s).infos[0] in Current(s).infos;
    VisitBounded(q, m, s, Advance(q, s), After(s.next.value, |s.active|));
  }

  lemma {:induction false} RotateBounded(q: nat, m: nat, s: Queue)
    requires AtCursor(s) && q > 0 && Bounded(q, m, s) && Small(m, s)
    ensures Bounded(q, m, Rotate(q, s))
    decreases Shortfall(s), if Serveable(Current(s)) then 0 else 1
  {
    if Serveable(Current(s)) {
    } else {
      AdvanceProgress(q, s);
      AdvanceBounded(q, m, s);
      RotateBounded(q, m, Advance(q, s));
    }
  }

  lemma StartBounded(q: nat, m: nat, s: Queue)
    requires Rep(s) && s.active != [] && Bounded(q, m, s) && Small(m, s)
    ensures Bounded(q, m, Start(q, s)) && Small(m, Start(q, s))
  {
    if s.next.None? {
      CreditVisits(q, s, 0);
      VisitBounded(q, m, s, Start(q, s), 0);
    }
    SameBacklogSmall(m, s, Start(q, s));
  }

  lemma ReadyBounded(q: nat, m: nat, s: Queue)
    requires Rep(s) && s.active != [] && q > 0 && Bounded(q, m, s) && Small(m, s)
    ensures Bounded(q, m, Ready(q, s))
  {
    StartBounded(q, m, s);
    RotateBounded(q, m, Start(q, s));
  }

  lemma ServeKept(q: nat, s: Queue)
    requires AtCursor(s) && |Current(s).infos| > 1
    ensures var k, t := s.active[s.next.value], Serve(q, s);
            k in t.flows && t.flows[k].deficit == WrapSub(Min(Current(s).deficit, 4 * q), Current(s).infos[0].size)
  {
  }

  lemma ServeEmptied(q: nat, s: Queue)
    requires AtCursor(s) && |Current(s).infos| == 1
    ensures s.active[s.next.value] !in Serve(q, s).flows
  {
    VacateRing(Beheaded(q, s, s.active[s.next.value]), s.active[s.next.value]);
  }

  /** The deficit a served flow is left with when it keeps a backlog. The charge wraps around exactly
      when the packet is larger than the four quanta the deficit is clamped to. */
  lemma ChargeExact(q: nat, s: Queue)
    requires AtCursor(s) && Serveable(Current(s)) && |Current(s).infos| > 1 && Current(s).infos[0].size <= U64_MAX
    ensures var k, size, t := s.active[s.next.value], Current(s).infos[0].size, Serve(q, s);
            && k in t.flows
            && (size <= 4 * q ==> t.flows[k].deficit == Min(Current(s).deficit, 4 * q) - size)
            && (size > 4 * q ==> t.flows[k].deficit == 4 * q - size + U64_MAX + 1)
  {
    ServeKept(q, s);
    WrapSubIs(Min(Current(s).deficit, 4 * q), Current(s).infos[0].size);
  }

  /** Below the clamp a served flow is charged exactly what it sent. */
  lemma ServeCharges(q: nat, m: nat, s: Queue)
    requires AtCursor(s) && Serveable(Current(s)) && Bounded(q, m, s) && m <= 3 * q
    ensures var k, t := s.active[s.next.value], Serve(q, s);
            k in t.flows ==> t.flows[k].deficit == Current(s).deficit - Current(s).infos[0].size
  {
    assert UnderCursor(s, s.active[s.next.value]);
    if |Current(s).infos| == 1 {
      ServeEmptied(q, s);
    } else {
      ServeKept(q, s);
    }
  }

  lemma ChargeBounded(q: nat, m: nat, s: Queue, k: FlowKey, size: nat)
    requires Bounded(q, m, s) && (k in s.flows ==> s.flows[k].deficit >= size)
    ensures Bounded(q, m, Charge(s, k, size))
  {
    assert forall j :: UnderCursor(s, j) ==> UnderCursor(Charge(s, k, size), j);
  }

  lemma ServeBounded(q: nat, m: nat, s: Queue)
    requires AtCursor(s) && Serveable(Current(s)) && Bounded(q, m, s) && m <= 3 * q
    ensures Bounded(q, m, Serve(q, s))
  {
    var k := s.active[s.next.value];
    assert UnderCursor(s, k);
    DropHeadBounded(q, m, s, k);
    if |s.flows[k].infos| == 1 {
      VacateRing(Beheaded(q, s, k), k);
    }
    ChargeBounded(q, m, DropHead(q, s, k), k, s.flows[k].infos[0].size);
  }

  /** A pop keeps the bound. */
  lemma PopBounded(q: nat, m: nat, s: Queue)
    requires Rep(s) && q > 0 && Bounded(q, m, s) && Small(m, s) && m <= 3 * q
    ensures Bounded(q, m, Pop(q, s).queue)
  {
    if s.active != [] {
      ReadyBounded(q, m, s);
      ServeBounded(q, m, Ready(q, s));
    }
  }

  // ---------------------------------------------------------------------------
  // Fairness over a fixed ring
  // ---------------------------------------------------------------------------

  /** A queue as its scheduler sees it: the ring, whose turn it is, and the deficits along the ring. */
  datatype Account = Account(ring: seq<FlowKey>, turn: nat, held: seq<nat>)

  ghost predicate Sound(a: Account) {
    a.turn < |a.ring| && |a.held| == |a.ring|
  }

  /** A queue without a cursor is about to begin at 0. */
  ghost function AccountOf(s: Queue): (a: Account)
    requires Ring(s.flows, s.active) && CursorOk(s) && s.active != []
    ensures Sound(a)
  {
    Account(s.active, if s.next.Some? then s.next.value else |s.active| - 1,
            seq(|s.active|, i requires 0 <= i < |s.active| => s.flows[s.active[i]].deficit))
  }

  /** The turn passes to the next flow, which is credited. */
  ghost function Turned(q: nat, a: Account): Account
    requires Sound(a)
  {
    var i := After(a.turn, |a.ring|);
    a.(turn := i, held := a.held[i := a.held[i] + q])
  }

  lemma VisitAccount(q: nat, s: Queue, t: Queue, c: nat)
    requires Ring(s.flows, s.active) && CursorOk(s) && Ring(t.flows, t.active) && Visits(q, s, t, c)
    requires c == After(AccountOf(s).turn, |s.active|)
    ensures AccountOf(t) == Turned(q, AccountOf(s))
  {
    assert forall i :: 0 <= i < |s.active| ==> s.flows[s.active[i]].index == Some(i);
    assert AccountOf(t).held == Turned(q, AccountOf(s)).held;
  }

  lemma AdvanceAccount(q: nat, s: Queue)
    requires AtCursor(s)
    ensures AtCursor(Advance(q, s)) && AccountOf(Advance(q, s)) == Turned(q, AccountOf(s))
  {
    AdvanceFacts(q, s);
    VisitAccount(q, s, Advance(q, s), After(s.next.value, |s.active|));
  }

  lemma StartAccount(q: nat, s: Queue)
    requires Rep(s) && s.active != []
    ensures AccountOf(Start(q, s)) == if s.next.Some? then AccountOf(s) else Turned(q, AccountOf(s))
  {
    if s.next.None? {
      CreditVisits(q, s, 0);
      VisitAccount(q, s, Start(q, s), 0);
    }
  }

  lemma RingNoDup(s: Queue)
    requires Rep(s)
    ensures NoDup(s.active)
  {
    assert forall i :: 0 <= i < |s.active| ==> s.flows[s.active[i]].index == Some(i);
  }

  lemma ServeStands(q: nat, s: Queue)
    requires AtCursor(s) && Serve(q, s).active == s.active
    ensures var k := s.active[s.next.value]; |Current(s).infos| > 1 && DropHead(q, s, k) == Beheaded(q, s, k)
  {
    var k := s.active[s.next.value];
    assert |Vacate(Beheaded(q, s, k), k).active| == |s.active| - 1;
  }

  /** While the ring stands, serving only takes what was sent off the deficit of the flow served. */
  lemma ServeHeld(q: nat, m: nat, s: Queue, i: nat)
    requires AtCursor(s) && Serveable(Current(s)) && Bounded(q, m, s) && m <= 3 * q && Serve(q, s).active == s.active
    requires i < |s.active|
    ensures s.active[i] in s.flows && s.active[i] in Serve(q, s).flows && Serve(q, s).next == s.next
    ensures Serve(q, s).flows[s.active[i]].deficit
            == s.flows[s.active[i]].deficit - if i == s.next.value then Current(s).infos[0].size else 0
  {
    ServeStands(q, s);
    ServeCharges(q, m, s);
    assert s.flows[s.active[i]].index == Some(i);
  }

  lemma ServeHeldAll(q: nat, m: nat, s: Queue)
    requires AtCursor(s) && Serveable(Current(s)) && Bounded(q, m, s) && m <= 3 * q && Serve(q, s).active == s.active
    ensures Serve(q, s).next == s.next
    ensures forall i :: 0 <= i < |s.active| ==> s.active[i] in Serve(q, s).flows
    ensures forall i :: 0 <= i < |s.active| ==>
              Serve(q, s).flows[s.active[i]].deficit
              == if i == s.next.value then Current(s).deficit - Current(s).infos[0].size else s.flows[s.active[i]].deficit
  {
    ServeHeld(q, m, s, s.next.value);
    forall i | 0 <= i < |s.active|
      ensures s.active[i] in Serve(q, s).flows
      ensures Serve(q, s).flows[s.active[i]].deficit
           == if i == s.next.value then Current(s).deficit - Current(s).infos[0].size else s.flows[s.active[i]].deficit
    {
      ServeHeld(q, m, s, i);
    }
  }

  lemma PaidAccount(s: Queue, t: Queue, c: nat, left: nat)
    requires Ring(s.flows, s.active) && Ring(t.flows, t.active) && t.active == s.active
    requires s.next == t.next == Some(c) && c < |s.active|
    requires forall i :: 0 <= i < |s.active| ==>
               t.flows[s.active[i]].deficit == if i == c then left else s.flows[s.active[i]].deficit
    ensures AccountOf(t) == AccountOf(s).(held := AccountOf(s).held[c := left])
  {
    assert AccountOf(t).held == AccountOf(s).held[c := left];
  }

  /** Whether a turn going round from `a` to `b` has reached `i`. */
  predicate Passed(a: nat, b: nat, i: nat) {
    if a <= b then a < i <= b else i > a || i <= b
  }

  /** Bytes of flow `k` in a log of served packets. */
  ghost function Sent(log: seq<Queued>, k: FlowKey): nat {
    if log == [] then 0 else Sent(log[..|log| - 1], k) + (if KeyOf(Last(log).packet) == k then Last(log).size else 0)
  }

  /** What a flow has sent and still holds is what it held at first plus its credit: as much as every other
      flow got, and one quantum more if the turn has reached it in the current round. */
  ghost predicate Books(q: nat, first: Account, a: Account, log: seq<Queued>, credit: nat)
    requires Sound(first) && Sound(a) && a.ring == first.ring
  {
    forall i :: 0 <= i < |a.ring| ==>
      Sent(log, a.ring[i]) + a.held[i] == first.held[i] + credit + (if Passed(first.turn, a.turn, i) then q else 0)
  }

  lemma TurnedBooks(q: nat, first: Account, a: Account, log: seq<Queued>, credit: nat) returns (credit': nat)
    requires Sound(first) && Sound(a) && a.ring == first.ring && Books(q, first, a, log, credit)
    ensures Books(q, first, Turned(q, a), log, credit')
  {
    credit' := credit + (if Turned(q, a).turn == first.turn then q else 0);
  }

  lemma {:induction false} RotateBooks(q: nat, first: Account, s: Queue, log: seq<Queued>, credit: nat) returns (credit': nat)
    requires Sound(first) && AtCursor(s) && q > 0 && s.active == first.ring && Books(q, first, AccountOf(s), log, credit)
    ensures Rotate(q, s).active == first.ring && Books(q, first, AccountOf(Rotate(q, s)), log, credit')
    decreases Shortfall(s), if Serveable(Current(s)) then 0 else 1
  {
    credit' := credit;
    if Serveable(Current(s)) {
    } else {
      AdvanceProgress(q, s);
      AdvanceAccount(q, s);
      credit' := TurnedBooks(q, first, AccountOf(s), log, credit);
      credit' := RotateBooks(q, first, Advance(q, s), log, credit');
    }
  }

  lemma ReadyBooks(q: nat, first: Account, s: Queue, log: seq<Queued>, credit: nat) returns (credit': nat)
    requires Sound(first) && Rep(s) && q > 0 && s.active == first.ring && Books(q, first, AccountOf(s), log, credit)
    ensures Books(q, first, AccountOf(Ready(q, s)), log, credit')
  {
    credit' := credit;
    StartAccount(q, s);
    if s.next.None? {
      credit' := TurnedBooks(q, first, AccountOf(s), log, credit);
    }
    credit' := RotateBooks(q, first, Start(q, s), log, credit');
  }

  lemma SentBooks(q: nat, first: Account, a: Account, log: seq<Queued>, credit: nat, head: Queued)
    requires Sound(first) && Sound(a) && a.ring == first.ring && NoDup(a.ring) && Books(q, first, a, log, credit)
    requires KeyOf(head.packet) == a.ring[a.turn] && head.size <= a.held[a.turn]
    ensures Books(q, first, a.(held := a.held[a.turn := a.held[a.turn] - head.size]), log + [head], credit)
  {
    assert (log + [head])[..|log|] == log;
  }

  lemma PaidBooks(q: nat, first: Account, s: Queue, t: Queue, c: nat, log: seq<Queued>, credit: nat, head: Queued)
    requires Sound(first) && Ring(s.flows, s.active) && Ring(t.flows, t.active) && t.active == s.active == first.ring
    requires t.next == s.next == Some(c) && c < |s.active| && NoDup(s.active)
    requires KeyOf(head.packet) == s.active[c] && head.size <= s.flows[s.active[c]].deficit
    requires forall i :: 0 <= i < |s.active| ==>
               t.flows[s.active[i]].deficit
               == if i == c then s.flows[s.active[c]].deficit - head.size else s.flows[s.active[i]].deficit
    requires Books(q, first, AccountOf(s), log, credit)
    ensures Books(q, first, AccountOf(t), log + [head], credit)
  {
    PaidAccount(s, t, c, s.flows[s.active[c]].deficit - head.size);
    SentBooks(q, first, AccountOf(s), log, credit, head);
  }

  lemma ServeBooks(q: nat, m: nat, first: Account, s: Queue, log: seq<Queued>, credit: nat)
    requires Sound(first) && AtCursor(s) && Serveable(Current(s)) && Bounded(q, m, s) && m <= 3 * q
    requires s.active == first.ring == Serve(q, s).active && Books(q, first, AccountOf(s), log, credit)
    ensures Rep(Serve(q, s)) && Books(q, first, AccountOf(Serve(q, s)), log + [Current(s).infos[0]], credit)
  {
    ServeFacts(q, s);
    ServeHeldAll(q, m, s);
    ServeFifo(q, s, s.active[s.next.value]);
    RingNoDup(s);
    PaidBooks(q, first, s, Serve(q, s), s.next.value, log, credit, Current(s).infos[0]);
  }

  /** A pop under a standing ring keeps the books. */
  lemma PopBooks(q: nat, m: nat, first: Account, s: Queue, log: seq<Queued>, credit: nat) returns (credit': nat)
    requires Sound(first) && Rep(s) && q > 0 && m <= 3 * q && s.active == first.ring
    requires Bounded(q, m, s) && Small(m, s) && Books(q, first, AccountOf(s), log, credit)
    requires Pop(q, s).queue.active == s.active
    ensures Rep(Pop(q, s).queue) && Pop(q, s).info.Some?
    ensures Books(q, first, AccountOf(Pop(q, s).queue), log + [Pop(q, s).info.value], credit')
  {
    credit' := ReadyBooks(q, first, s, log, credit);
    ReadyBounded(q, m, s);
    ServeBooks(q, m, first, Ready(q, s), log, credit');
  }

  /** Two flows with balanced books have sent nearly the same. */
  lemma BooksFair(q: nat, m: nat, first: Account, a: Account, log: seq<Queued>, credit: nat, i: nat, j: nat)
    requires Sound(first) && Sound(a) && a.ring == first.ring && Books(q, first, a, log, credit)
    requires forall x :: 0 <= x < |a.ring| ==> a.held[x] < m + q && first.held[x] < m + q
    requires i < |a.ring| && j < |a.ring|
    ensures Sent(log, a.ring[i]) <= Sent(log, a.ring[j]) + 3 * q + 2 * m
  {
  }

  // ---------------------------------------------------------------------------
  // Runs
  // ---------------------------------------------------------------------------

  /** The scheduler's view is the same: what a push does when it evicts no whole flow. */
  ghost predicate SameSchedule(s: Queue, t: Queue) {
    t.active == s.active && t.next == s.next
    && forall k :: k in s.flows ==> k in t.flows && t.flows[k].deficit == s.flows[k].deficit
  }

  /** One event of a run: a packet popped, or `None` for an arrival. */
  ghost predicate RunStep(q: nat, s: Queue, event: Option<Queued>, t: Queue)
    requires Rep(s) && q > 0
  {
    if event.Some? then Pop(q, s) == Popped(event, t) else SameSchedule(s, t)
  }

  ghost predicate Standing(m: nat, ring: seq<FlowKey>, s: Queue) {
    Rep(s) && s.active == ring && Small(m, s)
  }

  ghost predicate StepAt(q: nat, states: seq<Queue>, events: seq<Option<Queued>>, i: nat)
    requires q > 0 && i < |events| < |states|
  {
    Rep(states[i]) && RunStep(q, states[i], events[i], states[i + 1])
  }

  /** A run of pops and arrivals under which the ring stands and packets stay within `m` bytes. */
  ghost predicate RingRun(q: nat, m: nat, states: seq<Queue>, events: seq<Option<Queued>>)
    requires q > 0
  {
    && |states| == |events| + 1 && states[0].active != []
    && (forall i :: 0 <= i < |states| ==> Standing(m, states[0].active, states[i]))
    && (forall i :: 0 <= i < |events| ==> StepAt(q, states, events, i))
  }

  /** The packets a run served. */
  ghost function Log(events: seq<Option<Queued>>): seq<Queued> {
    if events == [] then []
    else
      var log := Log(events[..|events| - 1]);
      if Last(events).Some? then log + [Last(events).value] else log
  }

  lemma SameScheduleKeeps(q: nat, m: nat, s: Queue, t: Queue)
    requires Rep(s) && Rep(t) && SameSchedule(s, t) && s.active != [] && Bounded(q, m, s)
    ensures AccountOf(t) == AccountOf(s) && Bounded(q, m, t)
  {
    assert AccountOf(t).held == AccountOf(s).held;
    forall k | k in t.flows
      ensures t.flows[k].deficit < m + (if UnderCursor(t, k) then q else 0)
    {
      assert t.active[t.flows[k].index.value] == k;
      assert UnderCursor(s, k) == UnderCursor(t, k);
    }
  }

  lemma StepBooks(q: nat, m: nat, first: Account, s: Queue, event: Option<Queued>, t: Queue, log: seq<Queued>, credit: nat)
    returns (credit': nat)
    requires Sound(first) && Rep(s) && Rep(t) && q > 0 && m <= 3 * q && s.active == first.ring == t.active
    requires Bounded(q, m, s) && Small(m, s) && Books(q, first, AccountOf(s), log, credit)
    requires RunStep(q, s, event, t)
    ensures Bounded(q, m, t)
    ensures Books(q, first, AccountOf(t), if event.Some? then log + [event.value] else log, credit')
  {
    if event.Some? {
      PopBounded(q, m, s);
      credit' := PopBooks(q, m, first, s, log, credit);
    } else {
      SameScheduleKeeps(q, m, s, t);
      credit' := credit;
    }
  }

  lemma LogStep(events: seq<Option<Queued>>, i: nat)
    requires i < |events|
    ensures var log := Log(events[..i]);
            Log(events[..i + 1]) == if events[i].Some? then log + [events[i].value] else log
  {
    assert events[..i + 1][..i] == events[..i];
  }

  /** Over a run the books balance. */
  lemma RunBooks(q: nat, m: nat, states: seq<Queue>, events: seq<Option<Queued>>, n: nat) returns (credit: nat)
    requires q > 0 && m <= 3 * q && RingRun(q, m, states, events) && Bounded(q, m, states[0]) && n <= |events|
    ensures Standing(m, states[0].active, states[0]) && Standing(m, states[0].active, states[n]) && Bounded(q, m, states[n])
    ensures Books(q, AccountOf(states[0]), AccountOf(states[n]), Log(events[..n]), credit)
  {
    assert Standing(m, states[0].active, states[0]);
    if n == 0 {
      credit := 0;
      assert events[..0] == [];
    } else {
      var i := n - 1;
      credit := RunBooks(q, m, states, events, i);
      assert StepAt(q, states, events, i) && Standing(m, states[0].active, states[n]);
      LogStep(events, i);
      credit := StepBooks(q, m, AccountOf(states[0]), states[i], events[i], states[n], Log(events[..i]), credit);
    }
  }

  lemma HeldBounded(q: nat, m: nat, s: Queue)
    requires Rep(s) && s.active != [] && Bounded(q, m, s)
    ensures forall x :: 0 <= x < |s.active| ==> AccountOf(s).held[x] < m + q
  {
  }

  /** Over any run with a fixed ring, however long, the bytes served to two flows differ by at most three
      quanta and two packets. */
  lemma Fair(q: nat, m: nat, states: seq<Queue>, events: seq<Option<Queued>>, k: FlowKey, j: FlowKey)
    requires q > 0 && m <= 3 * q && RingRun(q, m, states, events) && Bounded(q, m, states[0])
    requires k in states[0].active && j in states[0].active
    ensures Sent(Log(events), k) <= Sent(Log(events), j) + 3 * q + 2 * m
  {
    var credit := RunBooks(q, m, states, events, |events|);
    assert events[..|events|] == events;
    var first, a := AccountOf(states[0]), AccountOf(Last(states));
    HeldBounded(q, m, states[0]);
    HeldBounded(q, m, Last(states));
    var x: nat :| x < |first.ring| && first.ring[x] == k;
    var y: nat :| y < |first.ring| && first.ring[y] == j;
    BooksFair(q, m, first, a, Log(events), credit, x, y);
  }

  // ---------------------------------------------------------------------------
  // Arrivals
  // ---------------------------------------------------------------------------

  lemma DropHeadSchedule(q: nat, m: nat, s: Queue, k: FlowKey)
    requires Rep(s) && k in s.flows && Bounded(q, m, s) && m <= 3 * q
    ensures |DropHead(q, s, k).active| <= |s.active|
    ensures |DropHead(q, s, k).active| == |s.active| ==> SameSchedule(s, DropHead(q, s, k))
  {
    assert s.flows[k].deficit <= 4 * q;
    assert |Vacate(Beheaded(q, s, k), k).active| == |s.active| - 1;
  }

  lemma SameScheduleTransitive(s: Queue, t: Queue, u: Queue)
    requires SameSchedule(s, t) && SameSchedule(t, u)
    ensures SameSchedule(s, u)
  {
  }

  lemma {:induction false} TrimFlowSchedule(q: nat, m: nat, s: Queue, k: FlowKey, size: nat)
    requires Rep(s) && Bounded(q, m, s) && m <= 3 * q
    ensures |TrimFlow(q, s, k, size).active| <= |s.active|
    ensures |TrimFlow(q, s, k, size).active| == |s.active| ==> SameSchedule(s, TrimFlow(q, s, k, size))
    decreases |Fifo(s, k)|
  {
    if k !in s.flows || s.flows[k].size + size <= PER_FLOW_MULTIPLIER * q {
    } else {
      var t := DropHead(q, s, k);
      DropHeadRep(q, s, k);
      DropHeadFifo(q, s, k, k);
      DropHeadBounded(q, m, s, k);
      DropHeadSchedule(q, m, s, k);
      TrimFlowSchedule(q, m, t, k, size);
      if |TrimFlow(q, s, k, size).active| == |s.active| {
        SameScheduleTransitive(s, t, TrimFlow(q, t, k, size));
      }
    }
  }

  lemma {:induction false} TrimAllSchedule(q: nat, m: nat, s: Queue, size: nat)
    requires Rep(s) && Bounded(q, m, s) && m <= 3 * q
    ensures |TrimAll(q, s, size).active| <= |s.active|
    ensures |TrimAll(q, s, size).active| == |s.active| ==> SameSchedule(s, TrimAll(q, s, size))
    decreases if s.count > 0 then s.count else 0
  {
    if !Crowded(q, s, size) {
    } else {
      var t := Evict(q, s);
      DropHeadBounded(q, m, s, Victim(s));
      DropHeadSchedule(q, m, s, Victim(s));
      TrimAllSchedule(q, m, t, size);
      if |TrimAll(q, s, size).active| == |s.active| {
        SameScheduleTransitive(s, t, TrimAll(q, t, size));
      }
    }
  }

  lemma EnqueueSchedule(s: Queue, k: FlowKey, info: Queued)
    requires Rep(s) && k in s.flows
    ensures SameSchedule(s, Enqueue(s, k, info))
  {
  }

  /** A push to a flow of the ring leaves the schedule alone, as long as making room takes no flow out. */
  lemma PushSchedule(q: nat, m: nat, s: Queue, p: Packet, now: int)
    requires Rep(s) && Bounded(q, m, s) && m <= 3 * q
    requires !Admitted(q, p) || (KeyOf(p) in s.flows && |Trimmed(q, s, p).active| == |s.active|)
    ensures SameSchedule(s, Push(q, s, p, now))
  {
    if Admitted(q, p) {
      var k, size := KeyOf(p), WireSize(p);
      var t := TrimFlow(q, s, k, size);
      TrimFlowSchedule(q, m, s, k, size);
      TrimFlowBounded(q, m, s, k, size);
      TrimAllSchedule(q, m, t, size);
      SameScheduleTransitive(s, t, Trimmed(q, s, p));
      EnqueueSchedule(Trimmed(q, s, p), k, Queued(p, size, now));
      SameScheduleTransitive(s, Trimmed(q, s, p), Push(q, s, p, now));
    }
  }
}
