/** Deficit round robin: which flow is served next, that the search for it ends, and fairness. */
module Drr {
  import opened Basics
  import opened QueueSpec
  import opened QueueRep

  // ---------------------------------------------------------------------------
  // The scheduler
  // ---------------------------------------------------------------------------

  predicate Serveable(f: Flow) {
    f.infos != [] && f.infos[0].size <= f.deficit
  }

  function Credit(q: nat, s: Queue, k: FlowKey): Queue {
    if k in s.flows then s.(flows := s.flows[k := s.flows[k].(deficit := s.flows[k].deficit + q)]) else s
  }

  /** Where the cursor goes from `i`. */
  function After(i: nat, n: nat): nat {
    if i + 1 >= n then 0 else i + 1
  }

  /** Move the cursor on by one and credit the flow it reaches. */
  function Advance(q: nat, s: Queue): Queue
    requires s.next.Some? && s.active != []
  {
    var i := After(s.next.value, |s.active|);
    Credit(q, s.(next := Some(i)), s.active[i])
  }

  ghost predicate AtCursor(s: Queue) {
    Rep(s) && s.next.Some?
  }

  ghost function Current(s: Queue): Flow
    requires AtCursor(s)
  {
    s.flows[s.active[s.next.value]]
  }

  /** Credit a flow lacks to send its head. */
  ghost function Lack(f: Flow): nat {
    if f.infos != [] && f.infos[0].size > f.deficit then f.infos[0].size - f.deficit else 0
  }

  ghost function LackIn(flows: map<FlowKey, Flow>): FlowKey -> int {
    k => if k in flows then Lack(flows[k]) else 0
  }

  /** Nothing but deficits and the cursor differs. */
  ghost predicate SameBacklog(s: Queue, t: Queue) {
    && t.active == s.active && t.size == s.size && t.count == s.count && t.flows.Keys == s.flows.Keys
    && forall k :: k in s.flows ==> t.flows[k] == s.flows[k].(deficit := t.flows[k].deficit)
  }

  lemma SameBacklogRep(s: Queue, t: Queue)
    requires Rep(s) && SameBacklog(s, t) && CursorOk(t)
    ensures Rep(t)
  {
    SumSame(s.active, SizeIn(s.flows), SizeIn(t.flows));
    SumSame(s.active, CountIn(s.flows), CountIn(t.flows));
    assert Ring(t.flows, t.active);
    forall k | k in t.flows
      ensures FlowOk(k, t.flows[k])
    {
      assert FlowOk(k, s.flows[k]);
    }
  }

  /** `t` is `s` with the cursor at `i` and the flow there credited. */
  ghost predicate Visits(q: nat, s: Queue, t: Queue, i: nat) {
    && SameBacklog(s, t) && i < |s.active| && t.next == Some(i)
    && forall k :: k in s.flows ==> t.flows[k].deficit == s.flows[k].deficit + (if k == s.active[i] then q else 0)
  }

  lemma CreditVisits(q: nat, s: Queue, i: nat)
    requires Rep(s) && i < |s.active|
    ensures var t := Credit(q, s.(next := Some(i)), s.active[i]); Visits(q, s, t, i) && AtCursor(t)
  {
    SameBacklogRep(s, Credit(q, s.(next := Some(i)), s.active[i]));
  }

  lemma AdvanceFacts(q: nat, s: Queue)
    requires AtCursor(s)
    ensures Visits(q, s, Advance(q, s), After(s.next.value, |s.active|)) && AtCursor(Advance(q, s))
  {
    CreditVisits(q, s, After(s.next.value, |s.active|));
  }

  ghost function Shortfall(s: Queue): (n: nat)
    requires Rep(s)
  {
    SumNonNegative(s.active, LackIn(s.flows));
    Sum(s.active, LackIn(s.flows))
  }

  lemma {:induction false} SumNonNegative(ring: seq<FlowKey>, w: FlowKey -> int)
    requires forall k :: k in ring ==> w(k) >= 0
    ensures Sum(ring, w) >= 0
  {
    if ring == [] {
    } else {
      SumNonNegative(ring[..|ring| - 1], w);
    }
  }

  /** Each step lowers the total credit lacking, or reaches a flow that can be served. */
  lemma AdvanceProgress(q: nat, s: Queue)
    requires AtCursor(s) && q > 0
    ensures AtCursor(Advance(q, s))
    ensures var t := Advance(q, s);
            Shortfall(t) < Shortfall(s) || (Shortfall(t) == Shortfall(s) && Serveable(Current(t)))
  {
    var t, i := Advance(q, s), After(s.next.value, |s.active|);
    AdvanceFacts(q, s);
    SumChange(s.active, LackIn(s.flows), LackIn(t.flows), i);
    assert FlowOk(s.active[i], s.flows[s.active[i]]);
  }

  /** Go round the ring until the flow at the cursor can send its head. */
  ghost function Rotate(q: nat, s: Queue): (r: Queue)
    requires AtCursor(s) && q > 0
    ensures AtCursor(r) && Serveable(Current(r))
    decreases Shortfall(s), if Serveable(Current(s)) then 0 else 1
  {
    if Serveable(Current(s)) then s
    else
      AdvanceProgress(q, s);
      Rotate(q, Advance(q, s))
  }

  lemma {:induction false} RotateSame(q: nat, s: Queue)
    requires AtCursor(s) && q > 0
    ensures SameBacklog(s, Rotate(q, s))
    decreases Shortfall(s), if Serveable(Current(s)) then 0 else 1
  {
    if Serveable(Current(s)) {
    } else {
      AdvanceProgress(q, s);
      AdvanceFacts(q, s);
      RotateSame(q, Advance(q, s));
    }
  }

  // ---------------------------------------------------------------------------
  // Popping
  // ---------------------------------------------------------------------------

  /** `u64` subtraction that wraps around. */
  function WrapSub(a: nat, b: nat): (r: nat) {
    if a >= b then a - b else (a - b) % (U64_MAX + 1)
  }

  lemma WrapSubIs(a: nat, b: nat)
    requires b <= U64_MAX
    ensures WrapSub(a, b) == if a >= b then a - b else a - b + U64_MAX + 1
  {
  }

  /** Take what was sent off a flow's deficit, if it still has a backlog. */
  function Charge(s: Queue, k: FlowKey, size: nat): Queue {
    if k in s.flows then s.(flows := s.flows[k := s.flows[k].(deficit := WrapSub(s.flows[k].deficit, size))]) else s
  }

  /** Serve the flow at the cursor: remove its head and charge it. */
  ghost function Serve(q: nat, s: Queue): Queue
    requires AtCursor(s)
  {
    var k := s.active[s.next.value];
    Charge(DropHead(q, s, k), k, s.flows[k].infos[0].size)
  }

  /** Where the search starts: at the cursor, or at the first flow, which is then credited. */
  ghost function Start(q: nat, s: Queue): (t: Queue)
    requires Rep(s) && s.active != []
    ensures AtCursor(t) && SameBacklog(s, t)
  {
    if s.next.Some? then s
    else
      CreditVisits(q, s, 0);
      Credit(q, s.(next := Some(0)), s.active[0])
  }

  ghost function Ready(q: nat, s: Queue): (r: Queue)
    requires Rep(s) && s.active != [] && q > 0
    ensures AtCursor(r) && Serveable(Current(r)) && SameBacklog(s, r)
  {
    RotateSame(q, Start(q, s));
    Rotate(q, Start(q, s))
  }

  datatype Popped = Popped(info: Option<Queued>, queue: Queue)

  ghost function Pop(q: nat, s: Queue): Popped
    requires Rep(s) && q > 0
  {
    if s.active == [] then Popped(None, s.(next := None))
    else Popped(Some(Current(Ready(q, s)).infos[0]), Serve(q, Ready(q, s)))
  }

  lemma ChargeSame(s: Queue, k: FlowKey, size: nat)
    requires Rep(s)
    ensures Rep(Charge(s, k, size)) && SameBacklog(s, Charge(s, k, size)) && Charge(s, k, size).next == s.next
  {
    SameBacklogRep(s, Charge(s, k, size));
  }

  lemma ServeFacts(q: nat, s: Queue)
    requires AtCursor(s)
    ensures var d := DropHead(q, s, s.active[s.next.value]);
            Rep(Serve(q, s)) && SameBacklog(d, Serve(q, s)) && Serve(q, s).next == d.next
  {
    var k := s.active[s.next.value];
    DropHeadRep(q, s, k);
    ChargeSame(DropHead(q, s, k), k, s.flows[k].infos[0].size);
  }

  /** A queue `t` is `s` without `p`, which was the head of its flow. */
  ghost predicate Takes(s: Queue, p: Queued, t: Queue) {
    && t.count == s.count - 1 && t.size == s.size - p.size
    && Fifo(s, KeyOf(p.packet)) != [] && p == Fifo(s, KeyOf(p.packet))[0]
    && forall k :: Fifo(t, k) == if k == KeyOf(p.packet) then Fifo(s, k)[1..] else Fifo(s, k)
  }

  /** Serving removes the head of the flow at the cursor and nothing else. */
  lemma ServeFifo(q: nat, s: Queue, j: FlowKey)
    requires AtCursor(s)
    ensures var head := Current(s).infos[0];
            && KeyOf(head.packet) == s.active[s.next.value]
            && Serve(q, s).size == s.size - head.size && Serve(q, s).count == s.count - 1
            && Fifo(Serve(q, s), j) == if j == s.active[s.next.value] then Fifo(s, j)[1..] else Fifo(s, j)
  {
    var k := s.active[s.next.value];
    ServeFacts(q, s);
    DropHeadFifo(q, s, k, j);
    assert FlowOk(k, s.flows[k]) && s.flows[k].infos[0] in s.flows[k].infos;
    assert Fifo(Serve(q, s), j) == Fifo(DropHead(q, s, k), j);
  }

  lemma ServeTakes(q: nat, s: Queue)
    requires AtCursor(s)
    ensures Takes(s, Current(s).infos[0], Serve(q, s))
  {
    var k := s.active[s.next.value];
    ServeFifo(q, s, k);
    forall j
      ensures Fifo(Serve(q, s), j) == if j == k then Fifo(s, j)[1..] else Fifo(s, j)
    {
      ServeFifo(q, s, j);
    }
  }

  lemma SameBacklogTakes(s: Queue, r: Queue, p: Queued, t: Queue)
    requires SameBacklog(s, r) && Takes(r, p, t)
    ensures Takes(s, p, t)
  {
    assert forall k :: Fifo(s, k) == Fifo(r, k);
  }

  /** Every pop keeps the representation. */
  lemma PopRep(q: nat, s: Queue)
    requires Rep(s) && q > 0
    ensures Rep(Pop(q, s).queue)
  {
    if s.active != [] {
      ServeFacts(q, Ready(q, s));
    } else {
      SameBacklogRep(s, s.(next := None));
    }
  }

  /** A pop yields a packet unless the queue is empty. */
  lemma PopSome(q: nat, s: Queue)
    requires Rep(s) && q > 0
    ensures Pop(q, s).info.None? <==> s.count == 0
    ensures Pop(q, s).info.None? ==> Pop(q, s).queue == s.(next := None)
  {
    EmptyAgree(s);
  }

  /** What is popped is the head of its flow, and it leaves that flow and nothing else. */
  lemma PopTakes(q: nat, s: Queue)
    requires Rep(s) && q > 0 && Pop(q, s).info.Some?
    ensures Takes(s, Pop(q, s).info.value, Pop(q, s).queue)
  {
    ServeTakes(q, Ready(q, s));
    SameBacklogTakes(s, Ready(q, s), Current(Ready(q, s)).infos[0], Serve(q, Ready(q, s)));
  }
}
