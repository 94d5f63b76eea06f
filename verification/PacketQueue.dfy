/** The packet queue as the object that traffic goes through. */
module PacketQueues {
  import opened Basics
  import opened Wire
  import opened QueueSpec
  import opened QueueRep
  import opened QueuePush
  import opened Eviction
  import opened Drr
  import opened Codels

  const DEFAULT_QUANTUM: nat := 1024 * 1024

  lemma TakesCapped(q: nat, s: Queue, p: Queued, t: Queue)
    requires Rep(s) && Rep(t) && Takes(s, p, t) && Capped(q, s)
    ensures Capped(q, t)
  {
    forall k | k in t.flows
      ensures t.flows[k].size <= PER_FLOW_MULTIPLIER * q
    {
      assert FlowOk(k, t.flows[k]);
      assert Suffix(Fifo(t, k), Fifo(s, k));
      SuffixBytes(Fifo(t, k), Fifo(s, k));
      assert FlowOk(k, s.flows[k]);
    }
  }

  lemma PopCapped(q: nat, s: Queue)
    requires Rep(s) && Capped(q, s) && q > 0
    ensures Capped(q, Pop(q, s).queue)
  {
    if Pop(q, s).info.Some? {
      PopRep(q, s);
      PopTakes(q, s);
      TakesCapped(q, s, Pop(q, s).info.value, Pop(q, s).queue);
    }
  }

  /** `pop` is deficit round robin with quantum `q`, on the queue `s`. */
  ghost predicate RunsAt(pop: Scheduler, q: nat, s: Queue) {
    q > 0 && Rep(s) ==> pop(s) == Pop(q, s)
  }

  ghost predicate Runs(pop: Scheduler, q: nat) {
    Sound(pop) && forall s {:trigger RunsAt(pop, q, s)} :: RunsAt(pop, q, s)
  }

  lemma LargestNext(flows: map<FlowKey, Flow>, active: seq<FlowKey>, i: nat)
    requires i < |active| && forall k :: k in active ==> k in flows && flows[k].infos != []
    ensures Largest(flows, active[..i + 1])
         == match Largest(flows, active[..i])
            case None => Some(active[i])
            case Some(b) => if Outranks(flows[b], flows[active[i]]) then Some(b) else Some(active[i])
  {
    assert active[..i + 1][..i] == active[..i];
  }

  class PacketQueue {
    var flows: map<FlowKey, Flow>
    var active: seq<FlowKey>
    var next: Option<nat>
    var size: int
    var count: int
    var codel: Codel
    const quantum: nat

    ghost function Value(): Queue
      reads this`flows, this`active, this`next, this`size, this`count
    {
      Queue(flows, active, next, size, count)
    }

    ghost predicate Valid()
      reads this`flows, this`active, this`next, this`size, this`count
    {
      quantum > 0 && Rep(Value()) && Capped(quantum, Value())
    }

    constructor (quantum: nat)
      ensures Valid() && Value() == EMPTY && codel == IDLE
      ensures this.quantum == if quantum == 0 then DEFAULT_QUANTUM else quantum
    {
      flows, active, next, size, count, codel := map[], [], None, 0, 0, IDLE;
      this.quantum := if quantum == 0 then DEFAULT_QUANTUM else quantum;
    }

    /** Take a flow out of the ring and forget it. */
    method RemoveFlow(key: FlowKey)
      requires Ring(flows, active) && key in flows
      modifies this`flows, this`active, this`next
      ensures Value() == Vacate(old(Value()), key)
    {
      var idx, last := flows[key].index.value, |active| - 1;
      var moved := active[last];
      ghost var was := Value();
      if idx != last {
        active := active[idx := moved];
        if moved in flows {
          flows := flows[moved := flows[moved].(index := Some(idx))];
        }
      }
      active := active[..last];
      flows := flows - {key};
      if active == [] {
        next := None;
      } else {
        if next == Some(last) {
          next := Some(idx);
        }
        if next.Some? && next.value >= |active| {
          next := Some(0);
        }
      }
      assert flows == Vacate(was, key).flows;
    }

    method Behead(key: FlowKey) returns (info: Queued)
      requires key in flows && flows[key].infos != []
      modifies this`flows, this`size, this`count
      ensures info == old(flows[key]).infos[0] && Value() == Beheaded(quantum, old(Value()), key)
    {
      var f := flows[key];
      info := f.infos[0];
      flows := flows[key := f.(infos := f.infos[1..], size := f.size - info.size, deficit := Min(f.deficit, 4 * quantum))];
      size, count := size - info.size, count - 1;
    }

    /** Remove the head of a flow, and the flow once it is empty. */
    method DropFrom(key: FlowKey) returns (info: Option<Queued>)
      requires Rep(Value())
      modifies this`flows, this`active, this`next, this`size, this`count
      ensures key !in old(flows) ==> info == None && Value() == old(Value())
      ensures key in old(flows) ==> info == Some(old(flows[key]).infos[0]) && Value() == DropHead(quantum, old(Value()), key)
    {
      if key !in flows {
        return None;
      }
      BeheadedSums(quantum, Value(), key);
      var head := Behead(key);
      if flows[key].infos == [] {
        RemoveFlow(key);
      }
      info := Some(head);
    }

    /** The flow with the most bytes; the oldest head breaks ties. */
    method LargestFlow() returns (k: Option<FlowKey>)
      requires Rep(Value())
      ensures k == Largest(flows, active)
      ensures k.None? <==> active == []
      ensures k.Some? ==> k.value in flows && forall j :: j in flows ==>
                && flows[j].size <= flows[k.value].size
                && (flows[j].size == flows[k.value].size ==> flows[k.value].infos[0].time <= flows[j].infos[0].time)
    {
      k := LargestOf(flows, active);
      forall j | k.Some? && j in flows
        ensures flows[j].size <= flows[k.value].size
        ensures flows[j].size == flows[k.value].size ==> flows[k.value].infos[0].time <= flows[j].infos[0].time
      {
        VictimIsLargest(Value(), j);
      }
    }

    static method LargestOf(flows: map<FlowKey, Flow>, active: seq<FlowKey>) returns (k: Option<FlowKey>)
      requires forall j :: j in active ==> j in flows && flows[j].infos != []
      ensures k == Largest(flows, active)
    {
      k := None;
      var i := 0;
      while i < |active|
        invariant i <= |active| && k == Largest(flows, active[..i])
      {
        LargestNext(flows, active, i);
        if k.None? || !Outranks(flows[k.value], flows[active[i]]) {
          k := Some(active[i]);
        }
        i := i + 1;
      }
      assert active[..i] == active;
    }

    /** Drop the oldest packet of the largest flow. */
    method DropLargest() returns (dropped: bool)
      requires Rep(Value())
      modifies this`flows, this`active, this`next, this`size, this`count
      ensures dropped == (old(active) != [])
      ensures if dropped then Value() == Evict(quantum, old(Value())) else Value() == old(Value())
    {
      var k := LargestFlow();
      dropped := k.Some?;
      if dropped {
        var info := DropFrom(k.value);
        dropped := info.Some?;
      }
    }

    /** Evict the flow's own packets until `size` more bytes fit it. */
    method MakeRoomInFlow(key: FlowKey, size: nat)
      requires Rep(Value())
      modifies this`flows, this`active, this`next, this`size, this`count
      ensures Value() == TrimFlow(quantum, old(Value()), key, size)
    {
      ghost var was := Value();
      while key in flows && flows[key].size + size > PER_FLOW_MULTIPLIER * quantum
        invariant Rep(Value()) && TrimFlow(quantum, was, key, size) == TrimFlow(quantum, Value(), key, size)
        decreases |Fifo(Value(), key)|
      {
        ghost var s := Value();
        DropHeadRep(quantum, s, key);
        DropHeadFifo(quantum, s, key, key);
        var _ := DropFrom(key);
      }
    }

    /** Evict from the largest flow until `size` more bytes fit the queue. */
    method MakeRoom(size: nat)
      requires Rep(Value())
      modifies this`flows, this`active, this`next, this`size, this`count
      ensures Value() == TrimAll(quantum, old(Value()), size)
    {
      ghost var was := Value();
      while this.size + size > TOTAL_MULTIPLIER * quantum && this.size > 0
        invariant Rep(Value()) && TrimAll(quantum, was, size) == TrimAll(quantum, Value(), size)
        decreases count
      {
        assert Crowded(quantum, Value(), size);
        var _ := DropLargest();
      }
    }

    /** Append to a flow, activating it if it is not in the ring. */
    method Append(key: FlowKey, info: Queued)
      modifies this`flows, this`active, this`size, this`count
      ensures Value() == Enqueue(old(Value()), key, info)
    {
      var f := if key in flows then flows[key] else Flow([], 0, 0, None);
      f := f.(infos := f.infos + [info], size := f.size + info.size);
      size, count := size + info.size, count + 1;
      if f.index.None? {
        f := f.(index := Some(|active|));
        active := active + [key];
      }
      flows := flows[key := f];
    }

    /** Add a packet, evicting what the byte caps leave no room for. */
    method Push(packet: Packet, now: int)
      requires Valid()
      modifies this`flows, this`active, this`next, this`size, this`count
      ensures Valid() && Value() == QueuePush.Push(quantum, old(Value()), packet, now)
    {
      PushRep(quantum, Value(), packet, now);
      PushCapped(quantum, Value(), packet, now);
      var wireSize := WireSize(packet);
      if wireSize <= TOTAL_MULTIPLIER * quantum && wireSize <= PER_FLOW_MULTIPLIER * quantum {
        MakeRoomInFlow(KeyOf(packet), wireSize);
        MakeRoom(wireSize);
        Append(KeyOf(packet), Queued(packet, wireSize, now));
      }
    }

    method Grant(key: FlowKey)
      requires key in flows
      modifies this`flows
      ensures Value() == Credit(quantum, old(Value()), key)
    {
      flows := flows[key := flows[key].(deficit := flows[key].deficit + quantum)];
    }

    /** Move the cursor to the next flow and credit it. */
    method MoveOn()
      requires AtCursor(Value())
      modifies this`flows, this`next
      ensures Value() == Advance(quantum, old(Value()))
    {
      var idx := next.value + 1;
      if idx >= |active| {
        idx := 0;
      }
      next := Some(idx);
      Grant(active[idx]);
    }

    /** Advance the cursor until the flow under it can send its head. */
    method FindServeable()
      requires AtCursor(Value()) && quantum > 0
      modifies this`flows, this`next
      ensures Value() == Rotate(quantum, old(Value()))
    {
      ghost var was, s := Value(), Value();
      while !Serveable(flows[active[next.value]])
        invariant s == Value() && AtCursor(s) && Rotate(quantum, was) == Rotate(quantum, s)
        decreases Shortfall(s), if Serveable(Current(s)) then 0 else 1
      {
        AdvanceProgress(quantum, s);
        MoveOn();
        s := Advance(quantum, s);
      }
    }

    /** Make sure there is a cursor; a new one credits the first flow. */
    method Begin()
      requires Rep(Value()) && active != []
      modifies this`flows, this`next
      ensures Value() == Start(quantum, old(Value()))
    {
      if next.None? {
        next := Some(0);
        Grant(active[0]);
      }
    }

    /** Send the head of the flow at the cursor. */
    method ServeCurrent() returns (head: Queued)
      requires AtCursor(Value())
      modifies this`flows, this`active, this`next, this`size, this`count
      ensures head == old(Current(Value())).infos[0] && Value() == Serve(quantum, old(Value()))
    {
      var key := active[next.value];
      var info := DropFrom(key);
      head := info.value;
      if key in flows {
        flows := flows[key := flows[key].(deficit := WrapSub(flows[key].deficit, head.size))];
      }
    }

    /** Remove the next packet in deficit round robin order. */
    method PopInfo() returns (info: Option<Queued>)
      requires Valid()
      modifies this`flows, this`active, this`next, this`size, this`count
      ensures Valid() && Popped(info, Value()) == Pop(quantum, old(Value()))
    {
      EmptyAgree(Value());
      PopRep(quantum, Value());
      PopCapped(quantum, Value());
      if size == 0 || active == [] {
        next := None;
        return None;
      }
      Begin();
      FindServeable();
      var head := ServeCurrent();
      info := Some(head);
    }

    /** Judge a packet just dequeued, and keep the clock of how long the queue has been standing. */
    method ShouldDrop(info: Option<Queued>, now: int) returns (drop: bool)
      modifies this`codel
      ensures info.None? ==> !drop && codel == old(codel).(firstAbove := None)
      ensures info.Some? ==>
                && codel == Clock(old(codel), info.value, count, now)
                && drop == Verdict(old(codel), info.value, count, now)
    {
      if info.None? {
        codel := codel.(firstAbove := None);
        return false;
      }
      var sojourn := Max(now - info.value.time, 0);
      if sojourn < TARGET || count <= 1 {
        codel := codel.(firstAbove := None);
        drop := false;
      } else if codel.firstAbove.None? {
        codel := codel.(firstAbove := Some(now + INTERVAL));
        drop := false;
      } else {
        drop := now > codel.firstAbove.value;
      }
    }

    method PopVia(ghost pop: Scheduler) returns (info: Option<Queued>)
      requires Valid() && Runs(pop, quantum)
      modifies this`flows, this`active, this`next, this`size, this`count
      ensures Valid() && Popped(info, Value()) == pop(old(Value()))
    {
      assert RunsAt(pop, quantum, Value());
      info := PopInfo();
    }

    /** Dequeue and judge one more packet. */
    method Next(ghost pop: Scheduler, ghost seen: seq<Exam>, now: int) returns (info: Queued, drop: bool)
      requires Valid() && Runs(pop, quantum) && count > 0
      modifies this
      ensures Valid()
      ensures var d := Examine(pop, old(Value()), old(codel), seen, now);
              d == Dequeue(Value(), codel, d.seen) && Last(d.seen).info == info && Last(d.seen).drop == drop
    {
      assert Fetches(Value(), pop(Value()));
      var popped := PopVia(pop);
      drop := ShouldDrop(popped, now);
      info := popped.value;
    }

    method CountDrop()
      modifies this`codel
      ensures codel == Counted(old(codel))
    {
      codel := codel.(count := (codel.count + 1) % U32);
    }

    /** Schedule the next drop, or leave the dropping state. */
    method Reschedule(law: Law, drop: bool)
      requires codel.dropNext.Some? && codel.dropping
      modifies this`codel
      ensures codel == Rescheduled(law, old(codel), drop)
    {
      if drop {
        codel := codel.(dropNext := Some(law(codel.dropNext.value, codel.count)));
      } else {
        codel := codel.(dropping := false);
      }
    }

    /** Replace a dropped packet by the next one. */
    method Redo(ghost pop: Scheduler, law: Law, ghost d: Dequeue, now: int) returns (info: Queued)
      requires Valid() && Runs(pop, quantum) && codel.dropNext.Some? && codel.dropping
      requires d == Dequeue(Value(), codel, d.seen) && Holding(d) && Last(d.seen).drop
      modifies this
      ensures Valid()
      ensures var e := Again(pop, law, d, now); e == Dequeue(Value(), codel, e.seen) && info == Last(e.seen).info
    {
      CountDrop();
      var following, drop := Next(pop, d.seen, now);
      Reschedule(law, drop);
      info := following;
    }

    /** Drop packets while drops are due. */
    method DropDue(ghost pop: Scheduler, law: Law, ghost d: Dequeue, first: Queued, now: int) returns (info: Queued)
      requires Valid() && Runs(pop, quantum)
      requires d == Dequeue(Value(), codel, d.seen) && Holding(d) && Last(d.seen).drop && Last(d.seen).info == first
      modifies this
      ensures Valid()
      ensures var e := DropWhileDue(pop, law, d, now); e == Dequeue(Value(), codel, e.seen) && info == Last(e.seen).info
    {
      info := first;
      ghost var e := d;
      while codel.dropping && codel.dropNext.Some? && now >= codel.dropNext.value
        invariant Valid() && e == Dequeue(Value(), codel, e.seen) && Holding(e) && info == Last(e.seen).info
        invariant codel.dropping ==> Last(e.seen).drop
        invariant DropWhileDue(pop, law, d, now) == DropWhileDue(pop, law, e, now)
        decreases e.queue.count
      {
        ghost var e' := Again(pop, law, e, now);
        info := Redo(pop, law, e, now);
        e := e';
      }
    }

    /** Enter the dropping state, near the previous drop rate if it was left not long ago. */
    method Resume(law: Law, now: int)
      modifies this`codel
      ensures codel == Resumed(law, old(codel), now)
    {
      var delta := (codel.count - codel.lastCount) % U32;
      var soon := codel.dropNext.Some? && now - codel.dropNext.value < 16 * INTERVAL;
      codel := codel.(dropping := true, count := if delta > 1 && soon then delta else 1);
      codel := codel.(lastCount := codel.count, dropNext := Some(law(now, codel.count)));
    }

    /** Start dropping with the packet just dequeued. */
    method EnterDropping(ghost pop: Scheduler, law: Law, ghost d: Dequeue, now: int) returns (info: Queued)
      requires Valid() && Runs(pop, quantum)
      requires d == Dequeue(Value(), codel, d.seen) && Holding(d) && Last(d.seen).drop
      modifies this
      ensures Valid()
      ensures var e := Examine(pop, d.queue, d.codel, d.seen, now);
              && e.(codel := Resumed(law, e.codel, now)) == Dequeue(Value(), codel, e.seen)
              && info == Last(e.seen).info
    {
      var following, _ := Next(pop, d.seen, now);
      Resume(law, now);
      info := following;
    }

    /** Decide about the first packet dequeued. */
    method Decide(ghost pop: Scheduler, law: Law, ghost d: Dequeue, first: Queued, drop: bool, now: int) returns (info: Queued)
      requires Valid() && Runs(pop, quantum)
      requires d == Dequeue(Value(), codel, d.seen) && Holding(d) && Last(d.seen).drop == drop && Last(d.seen).info == first
      modifies this
      ensures Valid()
      ensures var e := Settle(pop, law, d, now); e == Dequeue(Value(), codel, e.seen) && info == Last(e.seen).info
    {
      info := first;
      if codel.dropping {
        if drop {
          info := DropDue(pop, law, d, info, now);
        } else {
          codel := codel.(dropping := false);
        }
      } else if drop && ((codel.dropNext.Some? && now - codel.dropNext.value < INTERVAL)
                         || (codel.firstAbove.Some? && now - codel.firstAbove.value >= INTERVAL)) {
        info := EnterDropping(pop, law, d, now);
      }
    }

    method PopJudged(ghost pop: Scheduler, law: Law, now: int) returns (packet: Option<Packet>)
      requires Valid() && Runs(pop, quantum)
      modifies this
      ensures Valid()
      ensures var d := Codels.PopCodel(pop, law, old(Value()), old(codel), now);
              && d == Dequeue(Value(), codel, d.seen)
              && packet == if d.seen == [] then None else Some(Last(d.seen).info.packet)
    {
      assert Fetches(Value(), pop(Value()));
      ghost var s, c := Value(), codel;
      var first := PopVia(pop);
      if first.None? {
        codel := codel.(dropping := false);
        return None;
      }
      EmptyAgree(s);
      var drop := ShouldDrop(first, now);
      ghost var d := Examine(pop, s, c, [], now);
      var info := Decide(pop, law, d, first.value, drop, now);
      packet := Some(info.packet);
    }

    /** Dequeue the next packet to deliver, dropping those that CoDel selects. */
    method PopCodel(law: Law, now: int) returns (packet: Option<Packet>)
      requires Valid()
      modifies this
      ensures Valid()
      ensures var d := Dequeued(quantum, law, old(Value()), old(codel), now);
              && d == Dequeue(Value(), codel, d.seen)
              && packet == if d.seen == [] then None else Some(Last(d.seen).info.packet)
    {
      RoundRobinSound(quantum);
      packet := PopJudged(RoundRobin(quantum), law, now);
    }
  }
}
