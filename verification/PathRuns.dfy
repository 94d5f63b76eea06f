/** What becomes of a packet without a path: how long it is held, when a notify sets it free, and how often its
    destination is looked up. */
module PathRuns {
  import opened Basics
  import opened Pathfinders

  // ---------------------------------------------------------------------------
  // A notify
  // ---------------------------------------------------------------------------

  /** What a notify must bring: for a destination with a path, a larger sequence number, and new coordinates unless the
      path is broken; for another, a lookup that is under way. */
  ghost predicate Welcome(s: State, source: Key, x: Key, version: U64, path: seq<Port>) {
    if source in s.paths then
      s.paths[source].version < version && (s.paths[source].broken || s.paths[source].path != path)
    else x in s.rumors
  }

  /** A notify that is welcome gives the path, sets free what was held for it, and changes nothing else; any other
      changes nothing. */
  lemma NotifyOutcome(s: State, source: Key, x: Key, version: U64, path: seq<Port>, now: int)
    ensures var s', p := Notified(s, source, x, version, path, now), Released(s, source, x, version, path);
            && (!Welcome(s, source, x, version, path) ==> s' == s && p == None)
            && (Welcome(s, source, x, version, path) ==>
                  && source in s'.paths
                  && (var r := s'.paths[source];
                      r.path == path && r.version == version && !r.broken && r.refreshed == now && r.cached == None)
                  && (source in s.paths ==>
                        p == s.paths[source].cached && s'.rumors == s.rumors && s'.paths[source].asked == s.paths[source].asked)
                  && (source !in s.paths ==> s'.paths[source].asked == now)
                  && (source !in s.paths && s.rumors[x].traffic.Some? && s.rumors[x].traffic.value.dest == source ==>
                        p == s.rumors[x].traffic && s'.rumors == s.rumors[x := s.rumors[x].(traffic := None)])
                  && (source !in s.paths && !(s.rumors[x].traffic.Some? && s.rumors[x].traffic.value.dest == source) ==>
                        p == None && s'.rumors == s.rumors))
            && forall k :: k != source ==> (k in s'.paths <==> k in s.paths) && (k in s.paths ==> s'.paths[k] == s.paths[k])
  {
  }

  // ---------------------------------------------------------------------------
  // A packet that waits
  // ---------------------------------------------------------------------------

  /** Packet `p` waits for a path to its destination. */
  ghost predicate Waits(c: Config, s: State, p: Parcel) {
    c.transform(p.dest) in s.rumors && s.rumors[c.transform(p.dest)].traffic == Some(p)
  }

  /** An event that puts another packet in the place of `p`, or sets `p` free. */
  ghost predicate Ends(c: Config, s: State, e: Event, p: Parcel) {
    || (((e.Send? && !e.keepalive) || e.Request?) && c.transform(e.parcel.dest) == c.transform(p.dest))
    || (e.Notify? && e.source == p.dest && p.dest !in s.paths)
  }

  lemma SentWaits(c: Config, s: State, p: Parcel, now: int)
    requires p.dest !in s.paths || s.paths[p.dest].broken
    ensures Waits(c, Sent(c, s, p, false, now), p)
  {
  }

  lemma StepWaits(c: Config, s: State, e: Event, p: Parcel)
    requires Waits(c, s, p) && !Ends(c, s, e, p) && c.transform(p.dest) in Step(c, s, e).rumors
    ensures Waits(c, Step(c, s, e), p)
  {
  }

  ghost predicate WaitsAt(c: Config, states: seq<State>, events: seq<Event>, p: Parcel, n: nat) {
    n < |events| < |states| && c.transform(p.dest) in states[n].rumors && !Ends(c, states[n], events[n], p)
  }

  lemma {:induction false} WaitsThrough(c: Config, states: seq<State>, events: seq<Event>, p: Parcel, i: nat, j: nat)
    requires Run(c, states, events) && i < j <= |events| && events[i].Send? && events[i].parcel == p && !events[i].keepalive
    requires p.dest !in states[i].paths || states[i].paths[p.dest].broken
    requires c.transform(p.dest) in states[j].rumors && forall n :: i < n < j ==> WaitsAt(c, states, events, p, n)
    ensures Waits(c, states[j], p)
    decreases j
  {
    assert StepAt(c, states, events, j - 1);
    if i + 1 == j {
      SentWaits(c, states[i], p, events[i].now);
    } else {
      assert WaitsAt(c, states, events, p, j - 1);
      WaitsThrough(c, states, events, p, i, j - 1);
      StepWaits(c, states[j - 1], events[j - 1], p);
    }
  }

  /** In every run: a packet sent without a working path waits, while its lookup lives and until another packet takes its
      place; the first notify from its destination sets it free exactly if there was no path at all. If there was a broken
      one, what was kept with that path is set free instead, and the packet goes on waiting. */
  lemma FreedExactlyWithoutPath(c: Config, states: seq<State>, events: seq<Event>, p: Parcel, i: nat, j: nat)
    requires Run(c, states, events) && i < j < |events| && events[i].Send? && events[i].parcel == p && !events[i].keepalive
    requires p.dest !in states[i].paths || states[i].paths[p.dest].broken
    requires c.transform(p.dest) in states[j].rumors && forall n :: i < n < j ==> WaitsAt(c, states, events, p, n)
    requires events[j].Notify? && events[j].source == p.dest
    ensures var e := events[j];
            var freed := Released(states[j], p.dest, c.transform(p.dest), e.version, e.path);
            && (p.dest !in states[j].paths ==> freed == Some(p) && !Waits(c, states[j + 1], p))
            && (p.dest in states[j].paths ==>
                  && Waits(c, states[j + 1], p)
                  && (freed == None || freed == states[j].paths[p.dest].cached))
  {
    WaitsThrough(c, states, events, p, i, j);
    assert StepAt(c, states, events, j);
    var e := events[j];
    NotifyOutcome(states[j], p.dest, c.transform(p.dest), e.version, e.path, e.now);
  }

  const PLAIN := Config(k => k, 1, 10)
  const HELD := Parcel(7, 0)

  /** A packet that goes on waiting although the notify was welcome and there is a working path again. */
  lemma WaitsPastNotify()
    ensures var learned := Step(PLAIN, NO_ROUTES, Hear(7, [1], 0));
            var sent := Step(PLAIN, Step(PLAIN, learned, Break(7, 0)), Send(HELD, false, 0));
            var mended := Step(PLAIN, sent, Notify(7, 1, [2], 0));
            && Waits(PLAIN, sent, HELD) && Welcome(sent, 7, 7, 1, [2]) && Released(sent, 7, 7, 1, [2]) == None
            && HasPath(mended, 7) && Waits(PLAIN, mended, HELD)
  {
  }

  // ---------------------------------------------------------------------------
  // How often a destination is looked up
  // ---------------------------------------------------------------------------

  /** Sending at event `n` looks up a destination filed under `x`. */
  ghost predicate LooksUpAt(c: Config, states: seq<State>, events: seq<Event>, x: Key, n: nat)
    requires n < |events| < |states|
  {
    var s, e := states[n], events[n];
    && (e.Send? || e.Request?) && c.transform(e.parcel.dest) == x
    && !(e.parcel.dest in s.paths && !s.paths[e.parcel.dest].broken)
    && !(x in s.rumors && s.rumors[x].sent.Some? && e.now - s.rumors[x].sent.value < c.throttle)
  }

  ghost predicate SentSince(s: State, x: Key, t: int) {
    x in s.rumors && s.rumors[x].sent.Some? && s.rumors[x].sent.value >= t
  }

  lemma StepSentSince(c: Config, s: State, e: Event, x: Key, t: int)
    requires SentSince(s, x, t) && x in Step(c, s, e).rumors && !(e.Force? && c.transform(e.dest) == x)
    requires (e.Send? || e.Request?) ==> e.now >= t
    ensures SentSince(Step(c, s, e), x, t)
  {
  }

  lemma LookupStamps(c: Config, s: State, e: Event, x: Key)
    requires (e.Send? || e.Request?) && c.transform(e.parcel.dest) == x
    requires !(e.parcel.dest in s.paths && !s.paths[e.parcel.dest].broken)
    requires !(x in s.rumors && s.rumors[x].sent.Some? && e.now - s.rumors[x].sent.value < c.throttle)
    ensures SentSince(Step(c, s, e), x, e.now)
  {
  }

  /** While a lookup lives and is not forced, time goes on. */
  ghost predicate Ordinary(c: Config, states: seq<State>, events: seq<Event>, x: Key, t: int, n: nat) {
    n < |events| < |states| && x in states[n].rumors && !(events[n].Force? && c.transform(events[n].dest) == x)
    && ((events[n].Send? || events[n].Request?) ==> events[n].now >= t)
  }

  lemma {:induction false} StampRemembered(c: Config, states: seq<State>, events: seq<Event>, x: Key, i: nat, j: nat)
    requires Run(c, states, events) && i < j <= |events| && LooksUpAt(c, states, events, x, i) && x in states[j].rumors
    requires forall n :: i < n < j ==> Ordinary(c, states, events, x, events[i].now, n)
    ensures SentSince(states[j], x, events[i].now)
    decreases j
  {
    assert StepAt(c, states, events, j - 1);
    if i + 1 == j {
      LookupStamps(c, states[i], events[i], x);
    } else {
      assert Ordinary(c, states, events, x, events[i].now, j - 1);
      StampRemembered(c, states, events, x, i, j - 1);
      StepSentSince(c, states[j - 1], events[j - 1], x, events[i].now);
    }
  }

  /** Two lookups that sending starts are at least the throttle apart, unless one is forced in between. */
  lemma LookupsSpaced(c: Config, states: seq<State>, events: seq<Event>, x: Key, i: nat, j: nat)
    requires Run(c, states, events) && i < j < |events|
    requires LooksUpAt(c, states, events, x, i) && LooksUpAt(c, states, events, x, j) && x in states[j].rumors
    requires forall n :: i < n < j ==> Ordinary(c, states, events, x, events[i].now, n)
    ensures events[j].now - events[i].now >= c.throttle
  {
    StampRemembered(c, states, events, x, i, j);
  }

  /** Time `t` lies less than the throttle back. */
  ghost predicate JustBefore(c: Config, t: Option<int>, now: int) {
    t.Some? && Max(0, now - t.value) < c.throttle
  }

  /** A retry pass looks up exactly the destinations of packets that wait without a working path, unless they were asked
      for, retried, or their path looked up, just before. */
  lemma RetriedExactly(c: Config, s: State, k: Key, now: int)
    ensures Asked(c, s, k, now) <==>
              var x := c.transform(k);
              && x in s.rumors && s.rumors[x].traffic.Some? && s.rumors[x].traffic.value.dest == k
              && !(k in s.paths && !s.paths[k].broken)
              && !JustBefore(c, s.rumors[x].sent, now) && !JustBefore(c, s.rumors[x].retried, now)
              && !(k in s.paths && JustBefore(c, Some(s.paths[k].asked), now))
  {
  }

  /** Looking up a path stamps it, unless that was done just before. */
  lemma LookedUpExactly(c: Config, s: State, dest: Key, now: int)
    ensures LookupThrottled(c, s, dest, now) <==> dest in s.paths && JustBefore(c, Some(s.paths[dest].asked), now)
    ensures var s' := LookedUp(c, s, dest, now);
            s' == if dest in s.paths && !JustBefore(c, Some(s.paths[dest].asked), now)
                  then s.(paths := s.paths[dest := s.paths[dest].(asked := now)]) else s
  {
  }

  /** A forced lookup lifts the throttle: the next packet without a working path is looked up at once. */
  lemma ForceLifts(c: Config, s: State, dest: Key, now: int, p: Parcel, later: int)
    requires c.transform(p.dest) == c.transform(dest) && (p.dest in s.paths ==> s.paths[p.dest].broken)
    ensures var t := Step(c, s, Force(dest, now)); LooksUpAt(c, [t, t], [Send(p, false, later)], c.transform(dest), 0)
  {
  }

  // ---------------------------------------------------------------------------
  // The packet kept with a path
  // ---------------------------------------------------------------------------

  /** A working path keeps the first packet sent along it. */
  lemma FirstIsKept(c: Config, s: State, p: Parcel, keepalive: bool, now: int)
    requires p.dest in s.paths && !s.paths[p.dest].broken && s.paths[p.dest].cached == None
    ensures var s' := Step(c, s, Send(p, keepalive, now));
            s' == s.(paths := s.paths[p.dest := s.paths[p.dest].(cached := Some(p))])
  {
  }

  /** What is kept with a path stays until a notify that is welcome takes it, or the path expires. */
  lemma KeptStays(c: Config, s: State, e: Event, k: Key)
    requires k in s.paths && s.paths[k].cached.Some? && k in Step(c, s, e).paths
    requires !(e.Notify? && e.source == k && Welcome(s, k, c.transform(k), e.version, e.path))
    ensures Step(c, s, e).paths[k].cached == s.paths[k].cached
  {
  }

  // ---------------------------------------------------------------------------
  // How long a path lives
  // ---------------------------------------------------------------------------

  /** A path outlives maintenance exactly for less than the timeout after it was confirmed. */
  lemma PathExpires(c: Config, s: State, now: int, k: Key)
    ensures k in Step(c, s, Maintain(now)).paths <==> k in s.paths && Max(0, now - s.paths[k].refreshed) < c.timeout
  {
  }

  /** A lookup outlives maintenance exactly for less than the timeout after it was last asked for, or made. */
  lemma LookupExpires(c: Config, s: State, now: int, x: Key)
    ensures x in Step(c, s, Maintain(now)).rumors <==>
              x in s.rumors && Max(0, now - (if s.rumors[x].sent.Some? then s.rumors[x].sent.value else s.rumors[x].created)) < c.timeout
  {
  }

  /** A path is confirmed by a notify of its destination and, while it works, by traffic that comes from where it leads. */
  lemma ConfirmedBy(c: Config, s: State, e: Event, k: Key)
    requires k in s.paths && k in Step(c, s, e).paths
    ensures var r, r' := s.paths[k], Step(c, s, e).paths[k];
            && (r'.refreshed != r.refreshed ==>
                  (e.Notify? && e.source == k) || (e.Hear? && e.source == k && e.path == r.path && !r.broken))
            && (e.Hear? && e.source == k && e.path == r.path && !r.broken ==> r'.refreshed == e.now)
  {
  }
}
