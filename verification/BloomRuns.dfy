/** Filters over many passes: when they are sent, and what peers off the tree hold. */
module BloomRuns {
  import opened Basics
  import opened Blooms

  // ---------------------------------------------------------------------------
  // When filters are sent
  // ---------------------------------------------------------------------------

  /** An entry after passes in which this was needed. */
  ghost function Passed(needs: seq<Filter>, i: Info): Info {
    if needs == [] then i else Refreshed(needs[|needs| - 1], Passed(needs[..|needs| - 1], i))
  }

  /** None of the passes sent the filter. */
  ghost predicate Silent(needs: seq<Filter>, i: Info) {
    forall n :: 0 <= n < |needs| ==> SilentAt(needs, i, n)
  }

  ghost predicate SilentAt(needs: seq<Filter>, i: Info, n: nat)
    requires n < |needs|
  {
    !Announced(needs[n], Passed(needs[..n], i))
  }

  lemma {:induction false} SilentAge(needs: seq<Filter>, i: Info)
    requires Silent(needs, i)
    ensures Passed(needs, i).age == i.age + |needs| && Passed(needs, i).send == i.send
  {
    if needs == [] {
    } else {
      var n := |needs| - 1;
      forall m | 0 <= m < n
        ensures SilentAt(needs[..n], i, m)
      {
        assert SilentAt(needs, i, m) && needs[..n][..m] == needs[..m];
      }
      SilentAge(needs[..n], i);
      assert SilentAt(needs, i, n);
    }
  }

  /** After a filter was sent, a pass sends it again exactly if it has changed or 3600 passes have gone by; until then
      nothing that is needed is missing from it. */
  lemma SentExactly(needs: seq<Filter>, i: Info, need: Filter)
    requires i.age == 0 && Silent(needs, i) && |needs| < 3600
    ensures var last := Passed(needs, i);
            Announced(need, last) <==> (if last.zDirty then need != i.send else !(need <= i.send)) || |needs| == 3599
  {
    SilentAge(needs, i);
    assert need <= i.send ==> need + i.send == i.send;
  }

  // ---------------------------------------------------------------------------
  // Peers off the tree
  // ---------------------------------------------------------------------------

  datatype Event =
    | Added(key: Key)
    | Removed(key: Key)
    | Received(key: Key, filter: Filter)
    | Maintenance(self: Key, parent: Key, parents: map<Key, Key>, own: Filter)

  ghost function Step(t: Table, e: Event): Table {
    match e
    case Added(key) => if key in t then t else t[key := NEW_INFO]
    case Removed(key) => t - {key}
    case Received(key, filter) => if key in t then t[key := t[key].(recv := filter)] else t
    case Maintenance(self, parent, parents, own) => Maintained(t, own, self, parent, parents)
  }

  ghost function Run(events: seq<Event>): Table {
    if events == [] then map[] else Step(Run(events[..|events| - 1]), events[|events| - 1])
  }

  /** In every run, what was last meant for a peer that is not on the tree is the blank filter; and after maintenance the
      peers on the tree are our parent and those whose parent we are. */
  lemma {:induction false} OffTreeBlank(events: seq<Event>, k: Key)
    requires k in Run(events)
    ensures !Run(events)[k].onTree ==> Run(events)[k].send == {}
    ensures events != [] && events[|events| - 1].Maintenance? ==>
              var e := events[|events| - 1];
              Run(events)[k].onTree <==> k == e.parent || (k in e.parents && e.parents[k] == e.self)
  {
    var init := events[..|events| - 1];
    if k in Run(init) {
      OffTreeBlank(init, k);
    }
  }
}
