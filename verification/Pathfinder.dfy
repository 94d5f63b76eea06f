/** The cache of paths to destinations, and the lookups that wait for one. */
module Pathfinders {
  import opened Basics

  /** A packet held back; of its content only the destination matters here. */
  datatype Parcel = Parcel(dest: Key, content: nat)

  /** A cached path. */
  datatype Route = Route(path: seq<Port>, version: U64, asked: int, refreshed: int, cached: Option<Parcel>, broken: bool)

  /** A lookup without a path yet, filed under the transformed key of the destination. */
  datatype Rumor = Rumor(traffic: Option<Parcel>, sent: Option<int>, retried: Option<int>, created: int)

  datatype State = State(paths: map<Key, Route>, rumors: map<Key, Rumor>)

  const NO_ROUTES := State(map[], map[])

  /** How keys are transformed for lookups, the least time between lookups, and how long entries live. */
  datatype Config = Config(transform: Key -> Key, throttle: nat, timeout: nat)

  function Elapsed(now: int, since: int): nat {
    if now < since then 0 else now - since
  }

  predicate Recent(now: int, t: Option<int>, throttle: nat) {
    t.Some? && Elapsed(now, t.value) < throttle
  }

  // ---------------------------------------------------------------------------
  // Paths
  // ---------------------------------------------------------------------------

  /** A notify replaces a cached path only with a larger sequence number, and one that works only if the
      coordinates changed. */
  predicate Replaces(r: Route, version: U64, path: seq<Port>) {
    version > r.version && (r.broken || r.path != path)
  }

  /** What a rumor holds for exactly this destination. */
  function Waiting(rumors: map<Key, Rumor>, x: Key, source: Key): Option<Parcel> {
    if x in rumors && rumors[x].traffic.Some? && rumors[x].traffic.value.dest == source then rumors[x].traffic else None
  }

  predicate NotifyAccepted(s: State, source: Key, x: Key, version: U64, path: seq<Port>) {
    if source in s.paths then Replaces(s.paths[source], version, path) else x in s.rumors
  }

  /** The packet a notify sets free. */
  function Released(s: State, source: Key, x: Key, version: U64, path: seq<Port>): Option<Parcel> {
    if !NotifyAccepted(s, source, x, version, path) then None
    else if source in s.paths then s.paths[source].cached
    else Waiting(s.rumors, x, source)
  }

  function Notified(s: State, source: Key, x: Key, version: U64, path: seq<Port>, now: int): State {
    if !NotifyAccepted(s, source, x, version, path) then s
    else if source in s.paths then
      s.(paths := s.paths[source := s.paths[source].(path := path, version := version, broken := false, refreshed := now, cached := None)])
    else
      s.(paths := s.paths[source := Route(path, version, now, now, None, false)],
         rumors := if Waiting(s.rumors, x, source).Some? then s.rumors[x := s.rumors[x].(traffic := None)] else s.rumors)
  }

  function Broken(s: State, dest: Key): State {
    if dest in s.paths then s.(paths := s.paths[dest := s.paths[dest].(broken := true)]) else s
  }

  /** Traffic from `source` that claims to come from `path`. */
  function Heard(s: State, source: Key, path: seq<Port>, now: int): State {
    s.(paths := s.paths[source :=
      if source !in s.paths then Route(path, 0, now, now, None, false)
      else if !s.paths[source].broken && s.paths[source].path == path then s.paths[source].(refreshed := now)
      else s.paths[source]])
  }

  // ---------------------------------------------------------------------------
  // Lookups
  // ---------------------------------------------------------------------------

  predicate LookupThrottled(c: Config, s: State, dest: Key, now: int) {
    dest in s.paths && Elapsed(now, s.paths[dest].asked) < c.throttle
  }

  function LookedUp(c: Config, s: State, dest: Key, now: int): State {
    if dest in s.paths && !LookupThrottled(c, s, dest, now)
    then s.(paths := s.paths[dest := s.paths[dest].(asked := now)])
    else s
  }

  function WithRumor(s: State, x: Key, now: int): State {
    if x in s.rumors then s else s.(rumors := s.rumors[x := Rumor(None, None, None, now)])
  }

  /** Keep a packet for when a path is found; a keepalive does not displace another packet. */
  function Held(s: State, x: Key, p: Parcel, keepalive: bool): State {
    if x !in s.rumors || (keepalive && s.rumors[x].traffic.Some?) then s
    else s.(rumors := s.rumors[x := s.rumors[x].(traffic := Some(p))])
  }

  predicate HasPath(s: State, dest: Key) {
    dest in s.paths && !s.paths[dest].broken
  }

  /** Sending without a direct link: along the cached path, or after a lookup. */
  function Sent(c: Config, s: State, p: Parcel, keepalive: bool, now: int): State {
    if HasPath(s, p.dest) then
      if s.paths[p.dest].cached.None? then s.(paths := s.paths[p.dest := s.paths[p.dest].(cached := Some(p))]) else s
    else
      var x := c.transform(p.dest);
      var t := Held(WithRumor(s, x, now), x, p, keepalive);
      if Recent(now, t.rumors[x].sent, c.throttle) then t
      else LookedUp(c, t.(rumors := t.rumors[x := t.rumors[x].(sent := Some(now))]), p.dest, now)
  }

  /** A report that our path to `dest` is broken, followed by a lookup. */
  function Reported(c: Config, s: State, dest: Key, now: int): State {
    LookedUp(c, Broken(s, dest), dest, now)
  }

  /** A lookup asked for by the application: an empty packet, with a rumor even if there is a path. */
  function Requested(c: Config, s: State, p: Parcel, now: int): State {
    Sent(c, WithRumor(s, c.transform(p.dest), now), p, false, now)
  }

  /** A lookup that must go out at once. */
  function Forced(c: Config, s: State, dest: Key, now: int): State {
    var x := c.transform(dest);
    var t := if x in s.rumors then s.(rumors := s.rumors[x := s.rumors[x].(sent := None)]) else WithRumor(s, x, now);
    LookedUp(c, t, dest, now)
  }

  // ---------------------------------------------------------------------------
  // Maintenance
  // ---------------------------------------------------------------------------

  /** What a rumor's lifetime counts from. */
  function Base(r: Rumor): int {
    if r.sent.Some? then r.sent.value else r.created
  }

  function Cleaned(c: Config, s: State, now: int): State {
    State(map k | k in s.paths && Elapsed(now, s.paths[k].refreshed) < c.timeout :: s.paths[k],
          map x | x in s.rumors && Elapsed(now, Base(s.rumors[x])) < c.timeout :: s.rumors[x])
  }

  /** Rumor `x` still waits for a path. */
  predicate Unanswered(s: State, x: Key) {
    x in s.rumors && s.rumors[x].traffic.Some? && !HasPath(s, s.rumors[x].traffic.value.dest)
  }

  predicate Retries(c: Config, s: State, x: Key, now: int) {
    Unanswered(s, x) && !Recent(now, s.rumors[x].sent, c.throttle) && !Recent(now, s.rumors[x].retried, c.throttle)
  }

  /** Each rumor holds a packet for a destination it is filed under, and each path one for its destination. */
  ghost predicate Filed(c: Config, s: State) {
    && (forall x :: x in s.rumors && s.rumors[x].traffic.Some? ==> c.transform(s.rumors[x].traffic.value.dest) == x)
    && (forall k :: k in s.paths && s.paths[k].cached.Some? ==> s.paths[k].cached.value.dest == k)
  }

  /** A retry looks destination `k` up. */
  predicate Asked(c: Config, s: State, k: Key, now: int) {
    var x := c.transform(k);
    Retries(c, s, x, now) && s.rumors[x].traffic.value.dest == k && !LookupThrottled(c, s, k, now)
  }

  /** A rumor and a path in a retry pass that has yet to come to the rumors in `todo`. */
  function RumorAfter(c: Config, s: State, x: Key, todo: set<Key>, now: int): Rumor
    requires x in s.rumors
  {
    if x !in todo && Retries(c, s, x, now) then s.rumors[x].(retried := Some(now)) else s.rumors[x]
  }

  function RouteAfter(c: Config, s: State, k: Key, todo: set<Key>, now: int): Route
    requires k in s.paths
  {
    if c.transform(k) !in todo && Asked(c, s, k, now) then s.paths[k].(asked := now) else s.paths[k]
  }

  /** What retrying one destination does. */
  function RetriedOne(c: Config, s: State, dest: Key, now: int): State
    requires c.transform(dest) in s.rumors
  {
    var x := c.transform(dest);
    if Recent(now, s.rumors[x].sent, c.throttle) || Recent(now, s.rumors[x].retried, c.throttle) then s
    else LookedUp(c, s.(rumors := s.rumors[x := s.rumors[x].(retried := Some(now))]), dest, now)
  }

  /** A retry pass has come to all rumors but those in `todo`. */
  ghost predicate Partly(c: Config, was: State, s: State, todo: set<Key>, now: int) {
    && (forall x :: x in s.rumors <==> x in was.rumors) && (forall k :: k in s.paths <==> k in was.paths)
    && (forall x :: x in s.rumors ==> s.rumors[x] == RumorAfter(c, was, x, todo, now))
    && (forall k :: k in s.paths ==> s.paths[k] == RouteAfter(c, was, k, todo, now))
  }

  lemma PartlyStep(c: Config, was: State, s: State, todo: set<Key>, x: Key, now: int)
    requires Filed(c, was) && Partly(c, was, s, todo, now) && x in todo && Unanswered(was, x)
    ensures s.rumors[x] == was.rumors[x] && c.transform(s.rumors[x].traffic.value.dest) == x
    ensures Partly(c, was, RetriedOne(c, s, s.rumors[x].traffic.value.dest, now), todo - {x}, now)
  {
    var dest := was.rumors[x].traffic.value.dest;
    var t := RetriedOne(c, s, dest, now);
    assert dest in s.paths ==> s.paths[dest] == was.paths[dest];
    forall k | k in t.paths
      ensures t.paths[k] == RouteAfter(c, was, k, todo - {x}, now)
    {
      assert s.paths[k] == RouteAfter(c, was, k, todo, now);
    }
  }

  /** The lookups of a retry pass that has come to all rumors but those in `todo`. */
  ghost predicate PartlyAsked(c: Config, was: State, lookups: set<Key>, todo: set<Key>, now: int) {
    forall k :: k in lookups <==> Asked(c, was, k, now) && c.transform(k) !in todo
  }

  lemma PartlyAskedStep(c: Config, was: State, s: State, lookups: set<Key>, todo: set<Key>, x: Key, now: int)
    requires Partly(c, was, s, todo, now) && PartlyAsked(c, was, lookups, todo, now) && x in todo && Unanswered(was, x)
    requires s.rumors[x] == was.rumors[x] && c.transform(s.rumors[x].traffic.value.dest) == x
    ensures var r, dest := s.rumors[x], s.rumors[x].traffic.value.dest;
            var lookup := !Recent(now, r.sent, c.throttle) && !Recent(now, r.retried, c.throttle) && !LookupThrottled(c, s, dest, now);
            PartlyAsked(c, was, if lookup then lookups + {dest} else lookups, todo - {x}, now)
  {
    var dest := s.rumors[x].traffic.value.dest;
    assert dest in s.paths ==> s.paths[dest] == RouteAfter(c, was, dest, todo, now);
    assert LookupThrottled(c, s, dest, now) == LookupThrottled(c, was, dest, now);
  }

  /** Retry all rumors that are due. */
  ghost function Retried(c: Config, s: State, now: int): State {
    State(map k | k in s.paths :: RouteAfter(c, s, k, {}, now), map x | x in s.rumors :: RumorAfter(c, s, x, {}, now))
  }

  // ---------------------------------------------------------------------------
  // Runs
  // ---------------------------------------------------------------------------

  datatype Event =
    | Notify(source: Key, version: U64, path: seq<Port>, now: int)
    | Break(dest: Key, now: int)
    | Hear(source: Key, path: seq<Port>, now: int)
    | Send(parcel: Parcel, keepalive: bool, now: int)
    | Request(parcel: Parcel, now: int)
    | Force(dest: Key, now: int)
    | Maintain(now: int)

  ghost function Step(c: Config, s: State, e: Event): State {
    match e
    case Notify(source, version, path, now) => Notified(s, source, c.transform(source), version, path, now)
    case Break(dest, now) => Reported(c, s, dest, now)
    case Hear(source, path, now) => Heard(s, source, path, now)
    case Send(parcel, keepalive, now) => Sent(c, s, parcel, keepalive, now)
    case Request(parcel, now) => Requested(c, s, parcel, now)
    case Force(dest, now) => Forced(c, s, dest, now)
    case Maintain(now) => Retried(c, Cleaned(c, s, now), now)
  }

  lemma SentFiled(c: Config, s: State, p: Parcel, keepalive: bool, now: int)
    requires Filed(c, s)
    ensures Filed(c, Sent(c, s, p, keepalive, now))
  {
    var x := c.transform(p.dest);
    assert Filed(c, Held(WithRumor(s, x, now), x, p, keepalive));
  }

  lemma MaintainFiled(c: Config, s: State, now: int)
    requires Filed(c, s)
    ensures Filed(c, Retried(c, Cleaned(c, s, now), now))
  {
    assert Filed(c, Cleaned(c, s, now));
  }

  lemma StepFiled(c: Config, s: State, e: Event)
    requires Filed(c, s)
    ensures Filed(c, Step(c, s, e))
  {
    match e
    case Send(p, keepalive, now) => SentFiled(c, s, p, keepalive, now);
    case Request(p, now) => SentFiled(c, WithRumor(s, c.transform(p.dest), now), p, false, now);
    case Maintain(now) => MaintainFiled(c, s, now);
    case _ =>
  }

  /** A packet set free by a notify is for the node that sent the notify. */
  lemma ReleasedForSource(c: Config, s: State, source: Key, version: U64, path: seq<Port>)
    requires Filed(c, s)
    ensures var p := Released(s, source, c.transform(source), version, path); p.Some? ==> p.value.dest == source
  {
  }

  /** How an entry may change in one event: sequence numbers do not fall, and only a notify from that node
      with a larger one gives new coordinates or mends a broken path. */
  ghost predicate Evolves(k: Key, r: Route, r': Route, e: Event) {
    && r.version <= r'.version
    && (r'.version == r.version ==> r'.path == r.path && (r.broken ==> r'.broken))
    && (r'.version != r.version ==>
          e.Notify? && e.source == k && e.version == r'.version > r.version && r'.path == e.path && !r'.broken)
    && (e.Hear? ==> r' == r.(refreshed := r'.refreshed))
  }

  lemma StepEvolves(c: Config, s: State, e: Event, k: Key)
    requires k in s.paths && k in Step(c, s, e).paths
    ensures Evolves(k, s.paths[k], Step(c, s, e).paths[k], e)
  {
  }

  ghost predicate StepAt(c: Config, states: seq<State>, events: seq<Event>, n: nat)
    requires n < |events| < |states|
  {
    states[n + 1] == Step(c, states[n], events[n])
  }

  ghost predicate Run(c: Config, states: seq<State>, events: seq<Event>) {
    |states| == |events| + 1 && forall n :: 0 <= n < |events| ==> StepAt(c, states, events, n)
  }

  lemma {:induction false} RunFiled(c: Config, states: seq<State>, events: seq<Event>, n: nat)
    requires Run(c, states, events) && states[0] == NO_ROUTES && n < |states|
    ensures Filed(c, states[n])
  {
    if n == 0 {
    } else {
      RunFiled(c, states, events, n - 1);
      assert StepAt(c, states, events, n - 1);
      StepFiled(c, states[n - 1], events[n - 1]);
    }
  }

  /** Over the life of an entry, sequence numbers never fall; and while they stand still the coordinates
      do too, and a broken path stays broken. */
  lemma {:induction false} LifeOfAPath(c: Config, states: seq<State>, events: seq<Event>, k: Key, i: nat, j: nat)
    requires Run(c, states, events) && i <= j <= |events| && forall n :: i <= n <= j ==> k in states[n].paths
    ensures var r, r' := states[i].paths[k], states[j].paths[k];
            && r.version <= r'.version
            && (r'.version == r.version ==> r'.path == r.path && (r.broken ==> r'.broken))
    ensures states[j].paths[k].version > states[i].paths[k].version ==>
              exists n :: i <= n < j && events[n].Notify? && events[n].source == k && events[n].version > states[i].paths[k].version
    decreases j - i
  {
    if i >= j {
    } else {
      LifeOfAPath(c, states, events, k, i, j - 1);
      assert StepAt(c, states, events, j - 1);
      StepEvolves(c, states[j - 1], events[j - 1], k);
    }
  }

  // ---------------------------------------------------------------------------
  // Retries
  // ---------------------------------------------------------------------------

  predicate Concerns(c: Config, e: Event, x: Key) {
    ((e.Send? || e.Request?) && c.transform(e.parcel.dest) == x) || (e.Force? && c.transform(e.dest) == x)
  }

  /** Only sending to a destination, or asking for it, moves what its rumor's lifetime counts from. */
  lemma StepKeepsBase(c: Config, s: State, e: Event, x: Key)
    requires x in s.rumors && x in Step(c, s, e).rumors && !Concerns(c, e, x)
    ensures Base(Step(c, s, e).rumors[x]) == Base(s.rumors[x])
  {
  }

  /** A rumor that is not asked for again lives for the timeout, however often it is retried. */
  lemma {:induction false} RumorExpires(c: Config, states: seq<State>, events: seq<Event>, x: Key, i: nat, j: nat)
    requires Run(c, states, events) && i <= j < |events| && forall n :: i <= n <= j + 1 ==> x in states[n].rumors
    requires forall n :: i <= n <= j ==> !Concerns(c, events[n], x)
    ensures Base(states[j].rumors[x]) == Base(states[i].rumors[x])
    ensures events[j].Maintain? ==> Elapsed(events[j].now, Base(states[i].rumors[x])) < c.timeout
    decreases j - i
  {
    assert StepAt(c, states, events, j);
    if i >= j {
    } else {
      RumorExpires(c, states, events, x, i, j - 1);
      assert StepAt(c, states, events, j - 1);
      StepKeepsBase(c, states[j - 1], events[j - 1], x);
    }
  }

  /** Maintenance at event `n` retries rumor `x`. */
  ghost predicate RetryAt(c: Config, states: seq<State>, events: seq<Event>, x: Key, n: nat)
    requires n < |events| < |states|
  {
    events[n].Maintain? && Retries(c, Cleaned(c, states[n], events[n].now), x, events[n].now)
  }

  lemma StepKeepsRetry(c: Config, s: State, e: Event, x: Key, t: int)
    requires x in s.rumors && x in Step(c, s, e).rumors
    requires s.rumors[x].retried.Some? && s.rumors[x].retried.value >= t && (e.Maintain? ==> e.now >= t)
    ensures Step(c, s, e).rumors[x].retried.Some? && Step(c, s, e).rumors[x].retried.value >= t
  {
  }

  lemma {:induction false} RetryRemembered(c: Config, states: seq<State>, events: seq<Event>, x: Key, i: nat, j: nat)
    requires Run(c, states, events) && i < j <= |events| && RetryAt(c, states, events, x, i)
    requires forall n :: i < n <= j ==> x in states[n].rumors
    requires forall n :: i <= n < j && events[n].Maintain? ==> events[n].now >= events[i].now
    ensures states[j].rumors[x].retried.Some? && states[j].rumors[x].retried.value >= events[i].now
    decreases j
  {
    assert StepAt(c, states, events, j - 1);
    if i >= j - 1 {
    } else {
      RetryRemembered(c, states, events, x, i, j - 1);
      StepKeepsRetry(c, states[j - 1], events[j - 1], x, events[i].now);
    }
  }

  /** Two retries of a rumor while it lives are at least the throttle apart. */
  lemma RetriesSpaced(c: Config, states: seq<State>, events: seq<Event>, x: Key, i: nat, j: nat)
    requires Run(c, states, events) && i < j < |events|
    requires RetryAt(c, states, events, x, i) && RetryAt(c, states, events, x, j)
    requires forall n :: i < n <= j ==> x in states[n].rumors
    requires forall n :: i <= n <= j && events[n].Maintain? ==> events[n].now >= events[i].now
    ensures events[j].now - events[i].now >= c.throttle
  {
    RetryRemembered(c, states, events, x, i, j);
  }

  // ---------------------------------------------------------------------------
  // The pathfinder
  // ---------------------------------------------------------------------------

  class Pathfinder {
    var paths: map<Key, Route>
    var rumors: map<Key, Rumor>
    const config: Config

    ghost function Value(): State
      reads this
    {
      State(paths, rumors)
    }

    constructor (config: Config)
      ensures Value() == NO_ROUTES && this.config == config
    {
      paths, rumors := map[], map[];
      this.config := config;
    }

    /** Take in a signed path; returns whether it was used and a packet to send along it. */
    method AcceptNotify(source: Key, x: Key, version: U64, path: seq<Port>, now: int) returns (accepted: bool, traffic: Option<Parcel>)
      modifies this
      ensures Value() == Notified(old(Value()), source, x, version, path, now)
      ensures accepted == NotifyAccepted(old(Value()), source, x, version, path)
      ensures traffic == Released(old(Value()), source, x, version, path)
    {
      if source in paths {
        var r := paths[source];
        if version <= r.version {
          return false, None;
        }
        if !r.broken && r.path == path {
          return false, None;
        }
        paths := paths[source := r.(path := path, version := version, broken := false, refreshed := now, cached := None)];
        return true, r.cached;
      }
      if x !in rumors {
        return false, None;
      }
      var rumor := rumors[x];
      traffic := None;
      if rumor.traffic.Some? && rumor.traffic.value.dest == source {
        traffic := rumor.traffic;
        rumors := rumors[x := rumor.(traffic := None)];
      }
      paths := paths[source := Route(path, version, now, now, None, false)];
      accepted := true;
    }


    /** Fill an empty slot from the unsigned header of a packet. */
    method LearnPathFromTraffic(source: Key, path: seq<Port>, now: int)
      modifies this
      ensures rumors == old(rumors)
      ensures paths == if source in old(paths) then old(paths) else old(paths)[source := Route(path, 0, now, now, None, false)]
    {
      if source !in paths {
        paths := paths[source := Route(path, 0, now, now, None, false)];
      }
    }

    method RefreshIfCoordsMatch(source: Key, path: seq<Port>, now: int)
      modifies this
      ensures rumors == old(rumors)
      ensures paths == if HasPath(old(Value()), source) && old(paths)[source].path == path
                       then old(paths)[source := old(paths)[source].(refreshed := now)] else old(paths)
    {
      if source in paths && !paths[source].broken && paths[source].path == path {
        paths := paths[source := paths[source].(refreshed := now)];
      }
    }

    /** What the arrival of traffic does to the cache. */
    method TrafficArrived(source: Key, path: seq<Port>, now: int)
      modifies this
      ensures Value() == Heard(old(Value()), source, path, now)
    {
      LearnPathFromTraffic(source, path, now);
      RefreshIfCoordsMatch(source, path, now);
    }

    /** Look a destination up unless it was asked for just before. */
    method DoSendLookup(dest: Key, now: int) returns (sent: bool)
      modifies this
      ensures Value() == LookedUp(config, old(Value()), dest, now)
      ensures sent == !LookupThrottled(config, old(Value()), dest, now)
    {
      sent := !(dest in paths && Elapsed(now, paths[dest].asked) < config.throttle);
      if sent && dest in paths {
        paths := paths[dest := paths[dest].(asked := now)];
      }
    }

    /** Mark a path broken and look its destination up, unless that was done just before. */
    method HandleBroken(dest: Key, now: int) returns (lookup: bool)
      modifies this
      ensures Value() == Reported(config, old(Value()), dest, now)
      ensures lookup == !LookupThrottled(config, old(Value()), dest, now)
    {
      if dest in paths {
        paths := paths[dest := paths[dest].(broken := true)];
      }
      lookup := !(dest in paths && Elapsed(now, paths[dest].asked) < config.throttle);
      if lookup {
        lookup := DoSendLookup(dest, now);
      }
    }

    method EnsureRumor(x: Key, now: int)
      modifies this
      ensures Value() == WithRumor(old(Value()), x, now)
    {
      if x !in rumors {
        rumors := rumors[x := Rumor(None, None, None, now)];
      }
    }

    method CacheRumorTraffic(x: Key, p: Parcel, keepalive: bool)
      modifies this
      ensures Value() == Held(old(Value()), x, p, keepalive)
    {
      if x in rumors && (!keepalive || rumors[x].traffic.None?) {
        rumors := rumors[x := rumors[x].(traffic := Some(p))];
      }
    }

    /** Send to a destination that is not a peer; returns whether a lookup went out. */
    method SendTraffic(p: Parcel, keepalive: bool, now: int) returns (lookup: bool)
      modifies this
      ensures Value() == Sent(config, old(Value()), p, keepalive, now)
      ensures var s, x := old(Value()), config.transform(p.dest);
              lookup == (!HasPath(s, p.dest) && !(x in s.rumors && Recent(now, s.rumors[x].sent, config.throttle))
                         && !LookupThrottled(config, s, p.dest, now))
    {
      lookup := false;
      if p.dest in paths && !paths[p.dest].broken {
        if paths[p.dest].cached.None? {
          paths := paths[p.dest := paths[p.dest].(cached := Some(p))];
        }
        return;
      }
      var x := config.transform(p.dest);
      EnsureRumor(x, now);
      CacheRumorTraffic(x, p, keepalive);
      if !Recent(now, rumors[x].sent, config.throttle) {
        rumors := rumors[x := rumors[x].(sent := Some(now))];
        lookup := DoSendLookup(p.dest, now);
      }
    }

    /** The application asks for a path. */
    method SendLookup(p: Parcel, now: int) returns (lookup: bool)
      modifies this
      ensures Value() == Requested(config, old(Value()), p, now)
      ensures var s, x := old(Value()), config.transform(p.dest);
              lookup == (!HasPath(s, p.dest) && !(x in s.rumors && Recent(now, s.rumors[x].sent, config.throttle))
                         && !LookupThrottled(config, s, p.dest, now))
    {
      EnsureRumor(config.transform(p.dest), now);
      lookup := SendTraffic(p, false, now);
    }

    method ForceLookup(dest: Key, now: int) returns (lookup: bool)
      modifies this
      ensures Value() == Forced(config, old(Value()), dest, now)
      ensures lookup == !LookupThrottled(config, old(Value()), dest, now)
    {
      var x := config.transform(dest);
      if x in rumors {
        rumors := rumors[x := rumors[x].(sent := None)];
      } else {
        EnsureRumor(x, now);
      }
      lookup := DoSendLookup(dest, now);
    }

    method CleanupExpired(now: int)
      modifies this
      ensures Value() == Cleaned(config, old(Value()), now)
    {
      paths := map k | k in paths && Elapsed(now, paths[k].refreshed) < config.timeout :: paths[k];
      rumors := map x | x in rumors && Elapsed(now, Base(rumors[x])) < config.timeout :: rumors[x];
    }

    /** Look a destination up again unless that was done just before. */
    method RetryOne(dest: Key, now: int) returns (lookup: bool)
      requires config.transform(dest) in rumors
      modifies this
      ensures Value() == RetriedOne(config, old(Value()), dest, now)
      ensures var s, r := old(Value()), old(rumors)[config.transform(dest)];
              lookup == (!Recent(now, r.sent, config.throttle) && !Recent(now, r.retried, config.throttle)
                         && !LookupThrottled(config, s, dest, now))
    {
      var x := config.transform(dest);
      lookup := false;
      if !Recent(now, rumors[x].sent, config.throttle) && !Recent(now, rumors[x].retried, config.throttle) {
        rumors := rumors[x := rumors[x].(retried := Some(now))];
        lookup := DoSendLookup(dest, now);
      }
    }

    /** Look up again what still waits for a path; returns the destinations looked up. */
    method RetryRumors(now: int) returns (lookups: set<Key>)
      requires Filed(config, Value())
      modifies this
      ensures Value() == Retried(config, old(Value()), now)
      ensures forall k :: k in lookups <==> Asked(config, old(Value()), k, now)
    {
      ghost var was := Value();
      lookups := {};
      var todo := set x | x in rumors && Unanswered(State(paths, rumors), x);
      while todo != {}
        invariant (forall x :: x in todo ==> Unanswered(was, x)) && Partly(config, was, Value(), todo, now)
        invariant PartlyAsked(config, was, lookups, todo, now)
      {
        var x :| x in todo;
        PartlyStep(config, was, Value(), todo, x, now);
        PartlyAskedStep(config, was, Value(), lookups, todo, x, now);
        var dest := rumors[x].traffic.value.dest;
        var lookup := RetryOne(dest, now);
        if lookup {
          lookups := lookups + {dest};
        }
        todo := todo - {x};
      }
      assert paths == Retried(config, was, now).paths && rumors == Retried(config, was, now).rumors;
    }

    method Maintain(now: int) returns (lookups: set<Key>)
      requires Filed(config, Value())
      modifies this
      ensures Value() == Retried(config, Cleaned(config, old(Value()), now), now)
      ensures forall k :: k in lookups <==> Asked(config, Cleaned(config, old(Value()), now), k, now)
    {
      CleanupExpired(now);
      lookups := RetryRumors(now);
    }
  }
}
