/** The packet queue as a value: flows, the round-robin ring over them, and what each operation does.
    `PacketQueue` (the class) is proved against these definitions. */
module QueueSpec {
  import opened Basics
  import opened Bits
  import opened Wire

  datatype FlowKey = FlowKey(source: seq<Byte>, dest: seq<Byte>)

  datatype Queued = Queued(packet: Packet, size: nat, time: int)

  datatype Flow = Flow(infos: seq<Queued>, size: int, deficit: nat, index: Option<nat>)

  datatype Queue = Queue(flows: map<FlowKey, Flow>, active: seq<FlowKey>, next: Option<nat>, size: int, count: int)

  const EMPTY := Queue(map[], [], None, 0, 0)

  function KeyOf(p: Packet): FlowKey {
    FlowKey(p.source, p.dest)
  }

  /** The packets of one flow, oldest first. */
  function Fifo(s: Queue, k: FlowKey): seq<Queued> {
    if k in s.flows then s.flows[k].infos else []
  }

  function Bytes(infos: seq<Queued>): nat {
    if infos == [] then 0 else Bytes(infos[..|infos| - 1]) + Last(infos).size
  }

  // ---------------------------------------------------------------------------
  // The representation invariant
  // ---------------------------------------------------------------------------

  /** The ring and the back-indices are inverse to each other. */
  ghost predicate Ring(flows: map<FlowKey, Flow>, active: seq<FlowKey>) {
    && (forall i :: 0 <= i < |active| ==> active[i] in flows && flows[active[i]].index == Some(i))
    && (forall k :: k in flows ==> flows[k].index.Some? && flows[k].index.value < |active| && active[flows[k].index.value] == k)
  }

  /** A flow has a backlog, all of it its own, and knows its size. */
  ghost predicate FlowOk(k: FlowKey, f: Flow) {
    && f.infos != [] && f.size == Bytes(f.infos)
    && forall p :: p in f.infos ==> p.size == WireSize(p.packet) && KeyOf(p.packet) == k
  }

  ghost predicate FlowsOk(flows: map<FlowKey, Flow>) {
    forall k :: k in flows ==> FlowOk(k, flows[k])
  }

  ghost function Sum(ring: seq<FlowKey>, w: FlowKey -> int): int {
    if ring == [] then 0 else Sum(ring[..|ring| - 1], w) + w(Last(ring))
  }

  ghost function SizeIn(flows: map<FlowKey, Flow>): FlowKey -> int {
    k => if k in flows then flows[k].size else 0
  }

  ghost function CountIn(flows: map<FlowKey, Flow>): FlowKey -> int {
    k => if k in flows then |flows[k].infos| else 0
  }

  ghost predicate CursorOk(s: Queue) {
    s.next.Some? ==> s.next.value < |s.active|
  }

  ghost predicate Rep(s: Queue) {
    && Ring(s.flows, s.active) && FlowsOk(s.flows) && CursorOk(s)
    && s.size == Sum(s.active, SizeIn(s.flows)) && s.count == Sum(s.active, CountIn(s.flows))
  }

  const TOTAL_MULTIPLIER: nat := 64
  const PER_FLOW_MULTIPLIER: nat := 16

  ghost predicate Capped(q: nat, s: Queue) {
    && s.size <= TOTAL_MULTIPLIER * q
    && forall k :: k in s.flows ==> s.flows[k].size <= PER_FLOW_MULTIPLIER * q
  }

  // ---------------------------------------------------------------------------
  // Removing packets
  // ---------------------------------------------------------------------------

  /** Take a flow out of the ring by moving the last one into its place, and forget it. */
  function Vacate(s: Queue, k: FlowKey): Queue
    requires k in s.flows && s.flows[k].index.Some? && s.flows[k].index.value < |s.active|
  {
    var i, last := s.flows[k].index.value, |s.active| - 1;
    var moved := s.active[last];
    var active := s.active[i := moved][..last];
    var flows := if moved in s.flows then s.flows[moved := s.flows[moved].(index := Some(i))] else s.flows;
    var next := if s.next == Some(last) then Some(i) else s.next;
    s.(flows := flows - {k},
       active := active,
       next := if active == [] then None else if next.Some? && next.value >= last then Some(0) else next)
  }

  /** Take the head off a flow and clamp its deficit. */
  function Beheaded(q: nat, s: Queue, k: FlowKey): Queue
    requires k in s.flows && s.flows[k].infos != []
  {
    var f := s.flows[k];
    var size := f.infos[0].size;
    s.(flows := s.flows[k := f.(infos := f.infos[1..], size := f.size - size, deficit := Min(f.deficit, 4 * q))],
       size := s.size - size,
       count := s.count - 1)
  }

  /** Remove the head of a flow; an emptied flow leaves the ring. */
  function DropHead(q: nat, s: Queue, k: FlowKey): Queue
    requires k in s.flows && s.flows[k].infos != [] && s.flows[k].index.Some? && s.flows[k].index.value < |s.active|
  {
    if |s.flows[k].infos| == 1 then Vacate(Beheaded(q, s, k), k) else Beheaded(q, s, k)
  }

  /** Whether flow `a` is to be evicted rather than `b`: more bytes, or as many and an older head. */
  predicate Outranks(a: Flow, b: Flow)
    requires a.infos != [] && b.infos != []
  {
    a.size > b.size || (a.size == b.size && a.infos[0].time < b.infos[0].time)
  }

  /** The flow to evict from; the later in the ring among equals. */
  function Largest(flows: map<FlowKey, Flow>, ring: seq<FlowKey>): (r: Option<FlowKey>)
    requires forall k :: k in ring ==> k in flows && flows[k].infos != []
    ensures r == None <==> ring == []
    ensures r.Some? ==> r.value in ring
  {
    if ring == [] then None
    else
      match Largest(flows, ring[..|ring| - 1])
      case None => Some(Last(ring))
      case Some(b) => if Outranks(flows[b], flows[Last(ring)]) then Some(b) else Some(Last(ring))
  }
}
