/** In which order flows get their turns: the search for the flow to serve goes round the ring from the cursor, credits
    each flow it comes to, and stops at the first that can send. */
module RingOrder {
  import opened Basics
  import opened QueueSpec
  import opened QueueRep
  import opened Drr

  /** The place after `i` in a ring of `n`. */
  function Next(i: nat, n: nat): nat {
    if i + 1 < n then i + 1 else 0
  }

  /** The place `t` steps on from `i`. */
  ghost function Place(i: nat, n: nat, t: nat): nat
    decreases t
  {
    if t == 0 then i else Place(Next(i, n), n, t - 1)
  }

  /** How often place `j` is come to in `t` steps from `i`. */
  ghost function Turns(i: nat, n: nat, t: nat, j: nat): nat
    decreases t
  {
    if t == 0 then 0 else (if Next(i, n) == j then 1 else 0) + Turns(Next(i, n), n, t - 1, j)
  }

  lemma {:induction false} PlaceInRing(i: nat, n: nat, t: nat)
    requires i < n
    ensures Place(i, n, t) < n
    decreases t
  {
    if t == 0 {
    } else {
      PlaceInRing(Next(i, n), n, t - 1);
    }
  }

  /** What the search looks at: size of the head and credit of the flow at each place of the ring, and the cursor. */
  datatype Course = Course(heads: seq<nat>, credits: seq<nat>, at: nat)

  ghost predicate Regular(c: Course) {
    |c.heads| == |c.credits| && c.at < |c.heads|
  }

  ghost function CourseOf(s: Queue): (c: Course)
    requires AtCursor(s)
    ensures Regular(c) && |c.heads| == |s.active|
  {
    var n := |s.active|;
    Course(seq(n, j requires 0 <= j < n => HeadSize(s, j)), seq(n, j requires 0 <= j < n => s.flows[s.active[j]].deficit), s.next.value)
  }

  ghost function HeadSize(s: Queue, j: nat): nat
    requires Rep(s) && j < |s.active|
  {
    assert FlowOk(s.active[j], s.flows[s.active[j]]);
    s.flows[s.active[j]].infos[0].size
  }

  /** One step on: the flow come to is credited. */
  ghost function Stepped(q: nat, c: Course): Course
    requires Regular(c)
  {
    var j := Next(c.at, |c.heads|);
    c.(credits := c.credits[j := c.credits[j] + q], at := j)
  }

  /** Credit of the flow at place `j` after `t` steps. */
  ghost function CreditAt(q: nat, c: Course, t: nat, j: nat): nat
    requires Regular(c) && j < |c.heads|
  {
    c.credits[j] + q * Turns(c.at, |c.heads|, t, j)
  }

  /** After `t` steps the search is at a flow that can send its head. */
  ghost predicate CanSend(q: nat, c: Course, t: nat)
    requires Regular(c)
  {
    var j := Place(c.at, |c.heads|, t);
    PlaceInRing(c.at, |c.heads|, t);
    c.heads[j] <= CreditAt(q, c, t, j)
  }

  lemma CreditOn(q: nat, c: Course, t: nat, j: nat)
    requires Regular(c) && j < |c.heads|
    ensures CreditAt(q, Stepped(q, c), t, j) == CreditAt(q, c, t + 1, j)
  {
    var n := |c.heads|;
    var turns := Turns(Next(c.at, n), n, t, j);
    assert Turns(c.at, n, t + 1, j) == (if Next(c.at, n) == j then 1 else 0) + turns;
    assert q * (1 + turns) == q + q * turns;
  }

  lemma CanSendOn(q: nat, c: Course, t: nat)
    requires Regular(c)
    ensures CanSend(q, Stepped(q, c), t) <==> CanSend(q, c, t + 1)
  {
    var n := |c.heads|;
    PlaceInRing(Next(c.at, n), n, t);
    assert Place(c.at, n, t + 1) == Place(Next(c.at, n), n, t);
    CreditOn(q, c, t, Place(Next(c.at, n), n, t));
  }

  /** The search ends after `t` steps, at `r`: the first number of steps that brings it to a flow which can send. */
  ghost predicate Seeks(q: nat, c: Course, t: nat, r: Course)
    requires Regular(c)
  {
    && CanSend(q, c, t) && (forall u: nat :: u < t ==> !CanSend(q, c, u))
    && r.heads == c.heads && r.at == Place(c.at, |c.heads|, t) && |r.credits| == |c.credits|
    && forall j :: 0 <= j < |c.heads| ==> r.credits[j] == CreditAt(q, c, t, j)
  }

  lemma SeeksOn(q: nat, c: Course, t: nat, r: Course)
    requires Regular(c) && !CanSend(q, c, 0) && Seeks(q, Stepped(q, c), t, r)
    ensures Seeks(q, c, t + 1, r)
  {
    CanSendOn(q, c, t);
    forall u: nat | u < t + 1
      ensures !CanSend(q, c, u)
    {
      if u > 0 {
        CanSendOn(q, c, u - 1);
      }
    }
    forall j | 0 <= j < |c.heads|
      ensures r.credits[j] == CreditAt(q, c, t + 1, j)
    {
      CreditOn(q, c, t, j);
    }
  }

  lemma SeeksHere(q: nat, c: Course)
    requires Regular(c) && c.heads[c.at] <= c.credits[c.at]
    ensures Seeks(q, c, 0, c)
  {
  }

  lemma VisitsCourse(q: nat, s: Queue, u: Queue, j: nat)
    requires AtCursor(s) && AtCursor(u) && j < |s.active| && Visits(q, s, u, Next(s.next.value, |s.active|))
    ensures CourseOf(u).heads[j] == CourseOf(s).heads[j] && CourseOf(u).credits[j] == Stepped(q, CourseOf(s)).credits[j]
  {
    assert s.flows[s.active[j]].index == Some(j);
  }

  lemma AdvanceSteps(q: nat, s: Queue)
    requires AtCursor(s)
    ensures AtCursor(Advance(q, s)) && CourseOf(Advance(q, s)) == Stepped(q, CourseOf(s))
  {
    var u, n := Advance(q, s), |s.active|;
    AdvanceFacts(q, s);
    forall j | 0 <= j < n
      ensures CourseOf(u).heads[j] == CourseOf(s).heads[j] && CourseOf(u).credits[j] == Stepped(q, CourseOf(s)).credits[j]
    {
      VisitsCourse(q, s, u, j);
    }
  }

  lemma ServeableIs(s: Queue)
    requires AtCursor(s)
    ensures var c := CourseOf(s); Serveable(Current(s)) <==> c.heads[c.at] <= c.credits[c.at]
  {
    assert FlowOk(s.active[s.next.value], Current(s));
  }

  /** The flow to serve is the first, going round from the cursor, that can send once it is credited for each time the
      search has come to it. */
  lemma {:induction false} RotateSeeks(q: nat, s: Queue) returns (t: nat)
    requires AtCursor(s) && q > 0
    ensures Seeks(q, CourseOf(s), t, CourseOf(Rotate(q, s)))
    decreases Shortfall(s), if Serveable(Current(s)) then 0 else 1
  {
    ServeableIs(s);
    if Serveable(Current(s)) {
      SeeksHere(q, CourseOf(s));
      t := 0;
    } else {
      AdvanceProgress(q, s);
      AdvanceSteps(q, s);
      t := RotateSeeks(q, Advance(q, s));
      SeeksOn(q, CourseOf(s), t, CourseOf(Rotate(q, Advance(q, s))));
      t := t + 1;
    }
  }
}
