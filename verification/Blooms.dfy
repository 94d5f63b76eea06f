/** The bloom filters exchanged with each peer: what is advertised, and how stale bits go away. */
module Blooms {
  import opened Basics

  /** A filter, as the positions of its one-bits. */
  type Filter = set<nat>

  datatype Info = Info(send: Filter, recv: Filter, age: nat, onTree: bool, zDirty: bool)

  const NEW_INFO := Info({}, {}, 0, false, false)

  type Table = map<Key, Info>

  const RESEND: nat := 3600

  // ---------------------------------------------------------------------------
  // Which peers are on the tree
  // ---------------------------------------------------------------------------

  /** A peer is on the tree when it is our parent or we are its. */
  predicate TreeLink(self: Key, parent: Key, parents: map<Key, Key>, k: Key) {
    k == parent || (k in parents && parents[k] == self)
  }

  /** A peer that leaves the tree is sent a blank filter. */
  function Placed(i: Info, onTree: bool): Info {
    i.(onTree := onTree, send := if i.onTree && !onTree then {} else i.send)
  }

  ghost function Replaced(t: Table, self: Key, parent: Key, parents: map<Key, Key>): Table {
    map k | k in t :: Placed(t[k], TreeLink(self, parent, parents, k))
  }

  ghost predicate Dropped(t: Table, self: Key, parent: Key, parents: map<Key, Key>, k: Key) {
    k in t && t[k].onTree && !TreeLink(self, parent, parents, k)
  }

  // ---------------------------------------------------------------------------
  // What to advertise
  // ---------------------------------------------------------------------------

  /** Everything heard from on-tree peers other than `key`. */
  ghost function Gathered(t: Table, key: Key): Filter {
    set k, b | k in t && k != key && t[k].onTree && b in t[k].recv :: b
  }

  /** What `key` needs to know: our own key and all that lies behind the other on-tree peers. */
  ghost function Needed(t: Table, own: Filter, key: Key): Filter {
    own + Gathered(t, key)
  }

  /** The filter sent: what is needed, together with the bits already sent unless some of those were found
      unnecessary in the last pass. */
  function Advertised(need: Filter, i: Info): Filter {
    if i.zDirty then need else need + i.send
  }

  predicate Announced(need: Filter, i: Info) {
    Advertised(need, i) != i.send || i.age + 1 >= RESEND
  }

  function Refreshed(need: Filter, i: Info): Info {
    i.(send := Advertised(need, i),
       zDirty := !i.zDirty && Advertised(need, i) != need,
       age := if Announced(need, i) then 0 else i.age + 1)
  }

  ghost function Pass(t: Table, own: Filter): Table {
    map k | k in t :: if t[k].onTree then Refreshed(Needed(t, own, k), t[k]) else t[k]
  }

  ghost function Maintained(t: Table, own: Filter, self: Key, parent: Key, parents: map<Key, Key>): Table {
    Pass(Replaced(t, self, parent, parents), own)
  }

  /** Peers a lookup is passed on to. */
  ghost function Targets(t: Table, from: Key, wanted: Filter): set<Key> {
    set k | k in t && t[k].onTree && k != from && wanted <= t[k].recv
  }

  // ---------------------------------------------------------------------------
  // Stale bits
  // ---------------------------------------------------------------------------

  /** Received filters and tree links are the same. */
  ghost predicate SameInputs(t: Table, u: Table) {
    t.Keys == u.Keys && forall k :: k in t ==> u[k].recv == t[k].recv && u[k].onTree == t[k].onTree
  }

  lemma NeededSame(t: Table, u: Table, own: Filter, key: Key)
    requires SameInputs(t, u)
    ensures Needed(t, own, key) == Needed(u, own, key)
  {
  }

  /** After every pass, what is advertised covers what is needed. */
  lemma PassCovers(t: Table, own: Filter, k: Key)
    requires k in t && t[k].onTree
    ensures SameInputs(t, Pass(t, own))
    ensures Needed(Pass(t, own), own, k) <= Pass(t, own)[k].send
  {
    NeededSame(t, Pass(t, own), own, k);
  }

  /** Two passes over unchanged inputs leave exactly what is needed. */
  lemma TwoPassesExact(t: Table, own: Filter, k: Key)
    requires k in t && t[k].onTree
    ensures var u := Pass(Pass(t, own), own);
            SameInputs(t, u) && u[k].send == Needed(u, own, k) && !u[k].zDirty
  {
    var u := Pass(t, own);
    NeededSame(t, u, own, k);
    NeededSame(t, Pass(u, own), own, k);
    var need := Needed(t, own, k);
    assert u[k] == Refreshed(need, t[k]) && Pass(u, own)[k] == Refreshed(need, u[k]);
    RefreshTwice(need, t[k]);
  }

  lemma RefreshTwice(need: Filter, i: Info)
    ensures var r := Refreshed(need, Refreshed(need, i)); r.send == need && !r.zDirty
  {
    var j := Refreshed(need, i);
    if !i.zDirty && i.send <= need {
      assert j.send == need;
    }
  }

  /** One pass is enough exactly when stale bits were found before or there are none. */
  lemma RefreshExactIff(need: Filter, i: Info)
    ensures Refreshed(need, i).send == need <==> i.zDirty || i.send <= need
  {
    if i.send <= need {
      assert need + i.send == need;
    }
  }

  lemma OnePassExactIff(t: Table, own: Filter, k: Key)
    requires k in t && t[k].onTree
    ensures var u := Pass(t, own); u[k].send == Needed(u, own, k) <==> t[k].zDirty || t[k].send <= Needed(t, own, k)
  {
    NeededSame(t, Pass(t, own), own, k);
    RefreshExactIff(Needed(t, own, k), t[k]);
  }

  /** So a bit no longer needed, and not found before, stays for one pass. */
  lemma OnePassKeepsStaleBits(need: Filter, stale: nat)
    requires stale !in need
    ensures var r := Refreshed(need, Info({stale}, {}, 0, true, false)).send; stale in r && r != need
  {
    RefreshExactIff(need, Info({stale}, {}, 0, true, false));
  }

  /** Once exact, further passes change no filter. */
  lemma ExactIsStable(t: Table, own: Filter, k: Key)
    requires k in t && t[k].onTree && t[k].send == Needed(t, own, k)
    ensures Pass(t, own)[k].send == t[k].send && !Pass(t, own)[k].zDirty
  {
    assert Needed(t, own, k) + t[k].send == t[k].send;
  }

  // ---------------------------------------------------------------------------
  // The table
  // ---------------------------------------------------------------------------

  class BloomTable {
    var blooms: Table

    constructor ()
      ensures blooms == map[]
    {
      blooms := map[];
    }

    /** A peer that is already known keeps its filters. */
    method AddInfo(key: Key)
      modifies this
      ensures blooms == if key in old(blooms) then old(blooms) else old(blooms)[key := NEW_INFO]
    {
      if key !in blooms {
        blooms := blooms[key := NEW_INFO];
      }
    }

    method RemoveInfo(key: Key)
      modifies this
      ensures blooms == old(blooms) - {key}
    {
      blooms := blooms - {key};
    }

    method HandleBloom(key: Key, filter: Filter)
      modifies this
      ensures blooms == if key in old(blooms) then old(blooms)[key := old(blooms)[key].(recv := filter)] else old(blooms)
    {
      if key in blooms {
        blooms := blooms[key := blooms[key].(recv := filter)];
      }
    }

    /** Find out which peers are on the tree; those that left it are to be sent a blank filter. */
    method FixOnTree(self: Key, parent: Key, parents: map<Key, Key>) returns (blanked: set<Key>)
      modifies this
      ensures blooms == Replaced(old(blooms), self, parent, parents)
      ensures forall k :: k in blanked <==> Dropped(old(blooms), self, parent, parents, k)
    {
      blanked := {};
      ghost var was := blooms;
      var todo := blooms.Keys;
      while todo != {}
        invariant todo <= was.Keys == blooms.Keys
        invariant forall k :: k in was ==>
                    blooms[k] == if k in todo then was[k] else Placed(was[k], TreeLink(self, parent, parents, k))
        invariant forall k :: k in blanked <==> k !in todo && Dropped(was, self, parent, parents, k)
      {
        var k :| k in todo;
        var i := blooms[k];
        var wasOn := i.onTree;
        i := i.(onTree := k == parent || (k in parents && parents[k] == self));
        if wasOn && !i.onTree {
          i := i.(send := {});
          blanked := blanked + {k};
        }
        blooms := blooms[k := i];
        todo := todo - {k};
      }
    }

    /** Merge what was heard from the other on-tree peers into `own`. */
    method Merged(key: Key, own: Filter) returns (b: Filter)
      ensures b == Needed(blooms, own, key)
    {
      b := own;
      var todo := blooms.Keys;
      while todo != {}
        invariant todo <= blooms.Keys
        invariant b == own + set k, x | k in blooms && k !in todo && k != key && blooms[k].onTree && x in blooms[k].recv :: x
      {
        var k :| k in todo;
        if blooms[k].onTree && k != key {
          b := b + blooms[k].recv;
        }
        todo := todo - {k};
      }
    }

    /** Compute and record the filter to advertise to a peer. */
    method GetBloomFor(key: Key, own: Filter, keepOnes: bool) returns (b: Filter, isNew: bool)
      requires key in blooms
      modifies this
      ensures var need, i := Needed(old(blooms), own, key), old(blooms)[key];
              && (b == if keepOnes then need + i.send else need) && isNew == (b != i.send)
              && blooms == old(blooms)[key := i.(send := b, zDirty := keepOnes && (i.zDirty || b != need))]
    {
      b := Merged(key, own);
      var i := blooms[key];
      if keepOnes {
        var c := b;
        b := b + i.send;
        if !i.zDirty && b != c {
          i := i.(zDirty := true);
        }
      } else {
        i := i.(zDirty := false);
      }
      isNew := b != i.send;
      blooms := blooms[key := i.(send := b)];
    }

    /** Bring one on-tree peer up to date. */
    method Refresh(k: Key, own: Filter) returns (b: Filter, sent: bool)
      requires k in blooms
      modifies this
      ensures var need, i := Needed(old(blooms), own, k), old(blooms)[k];
              && blooms == old(blooms)[k := Refreshed(need, i)]
              && b == Advertised(need, i) && sent == Announced(need, i)
    {
      var isNew;
      b, isNew := GetBloomFor(k, own, !blooms[k].zDirty);
      var i := blooms[k];
      i := i.(age := i.age + 1);
      sent := isNew || i.age >= RESEND;
      if sent {
        i := i.(age := 0);
      }
      blooms := blooms[k := i];
    }

    /** Refresh every on-tree peer; the result says which filters are to be sent. */
    method RefreshAll(own: Filter) returns (toSend: map<Key, Filter>)
      modifies this
      ensures blooms == Pass(old(blooms), own)
      ensures forall k :: k in toSend <==>
                k in old(blooms) && old(blooms)[k].onTree && Announced(Needed(old(blooms), own, k), old(blooms)[k])
      ensures forall k :: k in toSend ==> toSend[k] == blooms[k].send
    {
      toSend := map[];
      ghost var was := blooms;
      var todo := set k | k in blooms && blooms[k].onTree;
      while todo != {}
        invariant forall k :: k in todo ==> k in was && was[k].onTree
        invariant SameInputs(was, blooms)
        invariant forall k :: k in was ==>
                    blooms[k] == if was[k].onTree && k !in todo then Refreshed(Needed(was, own, k), was[k]) else was[k]
        invariant forall k :: k in toSend <==>
                    k in was && was[k].onTree && k !in todo && Announced(Needed(was, own, k), was[k])
        invariant forall k :: k in toSend ==> toSend[k] == blooms[k].send
      {
        var k :| k in todo;
        NeededSame(was, blooms, own, k);
        var b, sent := Refresh(k, own);
        if sent {
          toSend := toSend[k := b];
        }
        todo := todo - {k};
      }
    }

    method DoMaintenance(self: Key, parent: Key, parents: map<Key, Key>, own: Filter) returns (toSend: map<Key, Filter>)
      modifies this
      ensures blooms == Maintained(old(blooms), own, self, parent, parents)
      ensures forall k :: k in blooms && blooms[k].send != old(blooms)[k].send ==> k in toSend
      ensures var placed := Replaced(old(blooms), self, parent, parents);
              forall k :: k in toSend <==>
                Dropped(old(blooms), self, parent, parents, k)
                || (k in placed && placed[k].onTree && Announced(Needed(placed, own, k), placed[k]))
      ensures forall k :: k in toSend ==> k in blooms && toSend[k] == blooms[k].send
    {
      var blanked := FixOnTree(self, parent, parents);
      var refreshed := RefreshAll(own);
      toSend := (map k | k in blanked :: {}) + refreshed;
    }

    /** The peers whose filters match a key, other than the one the lookup came from. */
    method GetMulticastTargets(from: Key, wanted: Filter) returns (targets: set<Key>)
      ensures targets == Targets(blooms, from, wanted)
    {
      targets := {};
      var todo := blooms.Keys;
      while todo != {}
        invariant todo <= blooms.Keys
        invariant targets == set k | k in Targets(blooms, from, wanted) && k !in todo
      {
        var k :| k in todo;
        if blooms[k].onTree && k != from && wanted <= blooms[k].recv {
          targets := targets + {k};
        }
        todo := todo - {k};
      }
    }
  }
}
