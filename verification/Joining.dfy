/** How a node takes its place in the tree: what a maintenance pass does about its position, told by what the node
    knows, and that a better root is taken up in the first pass that can. */
module Joining {
  import opened Basics
  import opened Tree
  import opened RouterSpec
  import opened RouterRuns
  import opened ParentChoice

  /** Peer `p` has signed a place below it for us, and has an ancestry without us. */
  ghost predicate Offer(c: Crypto, s: State, p: Key) {
    p in s.responses && Rooted(s.infos, p) && c.self !in ChainOf(s.infos, p)
  }

  /** The place signed by `p` outranks what we announced last, by sequence number, then parent, then nonce. */
  ghost predicate Usable(c: Crypto, s: State, p: Key) {
    && p in s.responses
    && (c.self in s.infos ==>
          var res, own := s.responses[p], s.infos[c.self];
          || own.seqno < res.seqno
          || (own.seqno == res.seqno && p < own.parent)
          || (own.seqno == res.seqno && p == own.parent && res.nonce < own.nonce))
  }

  /** There is reason to announce a position: one of the flags, or a parent other than the present one. */
  ghost predicate Moves(c: Crypto, s: State, parent: Key) {
    s.refresh || s.root1 || s.root2 || (if c.self in s.infos then s.infos[c.self].parent else c.self) != parent
  }

  /** Nothing but our own announcement differs. */
  ghost predicate OthersSame(c: Crypto, infos: Infos, infos': Infos) {
    forall k :: k != c.self ==> (k in infos' <==> k in infos) && (k in infos ==> infos'[k] == infos[k])
  }

  /** The flags are down, and every peer is asked to sign the next place. */
  ghost predicate Renewed(c: Crypto, s': State) {
    && !s'.refresh && !s'.root1 && !s'.root2 && s'.responses == map[] && s'.requests.Keys == s'.peers.Keys
    && c.self in s'.infos
    && (s'.infos[c.self].seqno < U64_MAX ==> forall p :: p in s'.requests ==> s'.requests[p].seqno == s'.infos[c.self].seqno + 1)
  }

  /** In `s'` we have taken the place below `parent`, which leads to `root`. */
  ghost predicate Joins(c: Crypto, s: State, s': State, root: Key, parent: Key) {
    && parent in s.responses && c.self in s'.infos
    && (var res, own := s.responses[parent], s'.infos[c.self];
        && own.parent == parent && own.seqno == res.seqno && own.nonce == res.nonce
        && own.port == res.port && own.psig == res.psig)
    && Rooted(s'.infos, c.self) && RootOf(s'.infos, c.self) == root
    && Renewed(c, s')
  }

  /** In `s'` we are a root of our own, under the next sequence number. */
  ghost predicate BecomesRoot(c: Crypto, s: State, s': State) {
    && c.self in s'.infos
    && (var own := s'.infos[c.self];
        own.parent == c.self && own.port == 0 && own.seqno == if c.self in s.infos then s.infos[c.self].seqno + 1 else 1)
    && Rooted(s'.infos, c.self) && RootOf(s'.infos, c.self) == c.self
    && Renewed(c, s')
  }

  lemma SettleRenews(c: Crypto, s: State, nonces: Key -> U64)
    requires c.self in s.infos
    ensures Renewed(c, Settle(c, s, nonces)) && Settle(c, s, nonces).infos == s.infos
  {
  }

  lemma UsableStored(c: Crypto, s: State, p: Key, now: nat)
    requires Usable(c, s, p)
    ensures var ann := ResponseAnnounce(c, p, s.responses[p]); Update(s, ann, now).infos == s.infos[c.self := ann.info]
  {
  }

  lemma JoinsByResponse(c: Crypto, s: State, root: Key, parent: Key, nonces: Key -> U64, now: nat)
    requires Shape(s) && Selected(c, s, root, parent) && root != c.self && Usable(c, s, parent)
    ensures var s' := Settle(c, Update(s, ResponseAnnounce(c, parent, s.responses[parent]), now), nonces);
            Joins(c, s, s', root, parent) && OthersSame(c, s.infos, s'.infos)
  {
    var ann := ResponseAnnounce(c, parent, s.responses[parent]);
    var u := Update(s, ann, now);
    SelectedLoopFree(c, s, root, parent);
    UsableStored(c, s, parent, now);
    AdoptingIsAcyclic(c, s, root, parent, ann.info);
    SettleRenews(c, u, nonces);
  }

  lemma BecomesRootByAnnounce(c: Crypto, s: State, nonce: U64, nonces: Key -> U64, now: nat)
    requires SeqRoom(c, s)
    ensures var s' := Settle(c, Update(s, RootAnnounce(c, s.infos, nonce), now), nonces);
            BecomesRoot(c, s, s') && OthersSame(c, s.infos, s'.infos)
  {
    var u := Update(s, RootAnnounce(c, s.infos, nonce), now);
    BecomeRootAccepted(c, s, nonce);
    RootedParent(u.infos, c.self);
    SettleRenews(c, u, nonces);
  }

  /** What comes of a selection: nothing without a reason to move; the selected place if it can be taken; otherwise
      being root if that was noted before, and a note that it is next if not. */
  ghost predicate Outcome(c: Crypto, s: State, s': State, root: Key, parent: Key) {
    var takes := root != c.self && Usable(c, s, parent);
    && OthersSame(c, s.infos, s'.infos)
    && (!Moves(c, s, parent) ==> s' == s)
    && (Moves(c, s, parent) && takes ==> Joins(c, s, s', root, parent))
    && (Moves(c, s, parent) && !takes && s.root2 ==> BecomesRoot(c, s, s'))
    && (Moves(c, s, parent) && !takes && !s.root2 ==> s' == s.(root1 := true))
  }

  lemma DecideIs(c: Crypto, s: State, root: Key, parent: Key, nonce: U64)
    ensures Decide(c, s, root, parent, nonce)
         == if !Moves(c, s, parent) then Stay
            else if root != c.self && Usable(c, s, parent) then Adopt(ResponseAnnounce(c, parent, s.responses[parent]))
            else if s.root2 then Adopt(RootAnnounce(c, s.infos, nonce))
            else Note
  {
  }

  lemma JoinsOutcome(c: Crypto, s: State, s': State, root: Key, parent: Key)
    requires Moves(c, s, parent) && root != c.self && Usable(c, s, parent)
    requires Joins(c, s, s', root, parent) && OthersSame(c, s.infos, s'.infos)
    ensures Outcome(c, s, s', root, parent)
  {
  }

  lemma BecomesRootOutcome(c: Crypto, s: State, s': State, root: Key, parent: Key)
    requires Moves(c, s, parent) && !(root != c.self && Usable(c, s, parent)) && s.root2
    requires BecomesRoot(c, s, s') && OthersSame(c, s.infos, s'.infos)
    ensures Outcome(c, s, s', root, parent)
  {
  }

  lemma FixOutcome(c: Crypto, s: State, root: Key, parent: Key, nonce: U64, nonces: Key -> U64, now: nat) returns (s': State)
    requires Shape(s) && SeqRoom(c, s) && Selected(c, s, root, parent)
    ensures s' == FixWith(c, s, root, parent, nonce, nonces, now) && Outcome(c, s, s', root, parent)
  {
    DecideIs(c, s, root, parent, nonce);
    s' := FixWith(c, s, root, parent, nonce, nonces, now);
    if !Moves(c, s, parent) {
    } else if root != c.self && Usable(c, s, parent) {
      JoinsByResponse(c, s, root, parent, nonces, now);
      JoinsOutcome(c, s, s', root, parent);
    } else if s.root2 {
      BecomesRootByAnnounce(c, s, nonce, nonces, now);
      BecomesRootOutcome(c, s, s', root, parent);
    }
  }

  // ---------------------------------------------------------------------------
  // A maintenance pass
  // ---------------------------------------------------------------------------

  /** What a pass starts from: the timer asks for a refresh, and a note that being root is next takes effect. */
  ghost function Due(s: State, due: bool): State {
    s.(refresh := s.refresh || due, root2 := s.root2 || s.root1, cache := map[])
  }

  /** What a pass does about our position: something is selected, and the outcome is as above; gossip changes nothing
      else. */
  lemma MaintenanceOutcome(c: Crypto, s: State, s': State, due: bool, nonce: U64, nonces: Key -> U64, now: nat)
    returns (root: Key, parent: Key, u: State)
    requires Inv(c, s) && SeqRoom(c, s) && Maintain(c, s, s', due, nonce, nonces, now)
    ensures Selected(c, Due(s, due), root, parent) && Outcome(c, Due(s, due), u, root, parent)
    ensures s' == u.(sent := s'.sent, exchanged := s'.exchanged)
  {
    u :| Fix(c, Prepare(s, due), u, nonce, nonces, now) && s' == SendAnnounces(c, u);
    assert Prepare(s, due) == Due(s, due);
    root, parent := FixSelects(c, Due(s, due), u, nonce, nonces, now);
  }

  lemma FixSelects(c: Crypto, s: State, s': State, nonce: U64, nonces: Key -> U64, now: nat) returns (root: Key, parent: Key)
    requires Shape(s) && SeqRoom(c, s) && Fix(c, s, s', nonce, nonces, now)
    ensures Selected(c, s, root, parent) && Outcome(c, s, s', root, parent)
  {
    root, parent :| Selected(c, s, root, parent) && s' == FixWith(c, s, root, parent, nonce, nonces, now);
    var _ := FixOutcome(c, s, root, parent, nonce, nonces, now);
  }

  /** Our present place: a connected parent that leads to a root below us. */
  ghost predicate Placed(c: Crypto, s: State) {
    && c.self in s.infos && s.infos[c.self].parent in s.peers
    && Rooted(s.infos, c.self) && RootOf(s.infos, c.self) < c.self
  }

  /** The root that we have while we have no better offer. */
  ghost function OwnRoot(c: Crypto, s: State): Key {
    if Placed(c, s) then RootOf(s.infos, c.self) else c.self
  }

  /** The selected root is the smallest of all on offer; one better than our own comes from an offer. */
  lemma SelectedIs(c: Crypto, s: State, root: Key, parent: Key)
    requires Shape(s) && Selected(c, s, root, parent)
    ensures root <= OwnRoot(c, s)
    ensures forall p :: Offer(c, s, p) ==> root <= RootOf(s.infos, p)
    ensures root < OwnRoot(c, s) ==> Offer(c, s, parent) && RootOf(s.infos, parent) == root
  {
    var cost: U64 :| Best(c, s, s.responses.Keys, root, parent, cost);
    assert forall p :: Offer(c, s, p) ==> Candidate(c, s, p) by {
      forall p | Offer(c, s, p)
        ensures Candidate(c, s, p)
      {
        assert ChainOf(s.infos, p)[0] == p;
      }
    }
  }

  /** Taking an offer better than our own root is a move. */
  lemma BetterMoves(c: Crypto, s: State, parent: Key)
    requires Shape(s) && Offer(c, s, parent) && RootOf(s.infos, parent) < OwnRoot(c, s)
    ensures Moves(c, s, parent)
  {
    assert ChainOf(s.infos, parent)[0] in ChainOf(s.infos, parent);
    if c.self in s.infos && s.infos[c.self].parent == parent {
      RootedBelow(s.infos, c.self);
    }
  }

  /** The places on offer are newer than what we announced last. */
  ghost predicate Fresh(c: Crypto, s: State) {
    c.self in s.infos ==> forall p :: p in s.responses ==> s.infos[c.self].seqno < s.responses[p].seqno
  }

  /** After a pass, our parent is a peer whose offer we took, and no offer led to a smaller root. */
  ghost predicate AtSmallestRoot(c: Crypto, s: State, s': State) {
    && c.self in s'.infos && Rooted(s'.infos, c.self)
    && (var parent := s'.infos[c.self].parent;
        && Offer(c, s, parent) && RootOf(s'.infos, c.self) == RootOf(s.infos, parent)
        && s'.infos[c.self].seqno == s.responses[parent].seqno && s'.infos[c.self].port == s.responses[parent].port)
    && forall p :: Offer(c, s, p) ==> RootOf(s'.infos, c.self) <= RootOf(s.infos, p)
  }

  lemma OutcomeJoins(c: Crypto, s: State, s': State, root: Key, parent: Key, p: Key)
    requires Shape(s) && Selected(c, s, root, parent) && Outcome(c, s, s', root, parent) && Fresh(c, s)
    requires Offer(c, s, p) && RootOf(s.infos, p) < OwnRoot(c, s)
    ensures AtSmallestRoot(c, s, s')
  {
    SelectedIs(c, s, root, parent);
    BetterMoves(c, s, parent);
  }

  /** Offers and places depend on announcements and responses only. */
  lemma SamePlaces(c: Crypto, s: State, t: State, s': State, t': State)
    requires t.infos == s.infos && t.responses == s.responses && t'.infos == s'.infos && AtSmallestRoot(c, t, t')
    ensures AtSmallestRoot(c, s, s')
  {
    assert forall q :: Offer(c, t, q) <==> Offer(c, s, q);
  }

  lemma DueSame(c: Crypto, s: State, due: bool, p: Key)
    requires Shape(s) && Fresh(c, s) && Offer(c, s, p)
    ensures var d := Due(s, due);
            Shape(d) && Fresh(c, d) && OwnRoot(c, d) == OwnRoot(c, s) && Offer(c, d, p) && d.infos == s.infos
  {
  }

  /** If some offer leads to a root better than our own, the pass takes one that leads to the smallest root on offer. */
  lemma PassJoins(c: Crypto, s: State, s': State, due: bool, nonce: U64, nonces: Key -> U64, now: nat, p: Key)
    requires Inv(c, s) && SeqRoom(c, s) && Maintain(c, s, s', due, nonce, nonces, now) && Fresh(c, s)
    requires Offer(c, s, p) && RootOf(s.infos, p) < OwnRoot(c, s)
    ensures AtSmallestRoot(c, s, s')
  {
    var root, parent, u := MaintenanceOutcome(c, s, s', due, nonce, nonces, now);
    DueSame(c, s, due, p);
    OutcomeJoins(c, Due(s, due), u, root, parent, p);
    SamePlaces(c, s, Due(s, due), s', u);
  }

  // ---------------------------------------------------------------------------
  // Offers stay fresh
  // ---------------------------------------------------------------------------

  /** Requests ask for places newer than what we announced last, and responses answer them. */
  ghost predicate AsksFresh(c: Crypto, s: State) {
    && (c.self in s.infos ==> forall p :: p in s.requests ==> s.infos[c.self].seqno < s.requests[p].seqno)
    && forall p :: p in s.responses ==> p in s.requests && s.responses[p].seqno == s.requests[p].seqno
  }

  /** Our own announcement is the one we made. */
  ghost predicate OwnSame(c: Crypto, s: State, s': State) {
    (c.self in s'.infos <==> c.self in s.infos) && (c.self in s.infos ==> s'.infos[c.self] == s.infos[c.self])
  }

  lemma OutcomeFresh(c: Crypto, s: State, s': State, root: Key, parent: Key)
    requires AsksFresh(c, s) && Outcome(c, s, s', root, parent) && SeqRoom(c, s')
    ensures AsksFresh(c, s')
  {
  }

  lemma DueFresh(c: Crypto, s: State, due: bool)
    requires AsksFresh(c, s)
    ensures AsksFresh(c, Due(s, due))
  {
  }

  lemma GossipFresh(c: Crypto, u: State, s': State)
    requires AsksFresh(c, u) && s' == u.(sent := s'.sent, exchanged := s'.exchanged)
    ensures AsksFresh(c, s')
  {
  }

  lemma PassFresh(c: Crypto, s: State, s': State, due: bool, nonce: U64, nonces: Key -> U64, now: nat)
    requires Inv(c, s) && SeqRoom(c, s) && SeqRoom(c, s') && AsksFresh(c, s) && Maintain(c, s, s', due, nonce, nonces, now)
    ensures AsksFresh(c, s')
  {
    var root, parent, u := MaintenanceOutcome(c, s, s', due, nonce, nonces, now);
    DueFresh(c, s, due);
    OutcomeFresh(c, Due(s, due), u, root, parent);
    GossipFresh(c, u, s');
  }

  lemma SameFresh(c: Crypto, s: State, s': State)
    requires AsksFresh(c, s) && OwnSame(c, s, s') && s'.requests == s.requests && s'.responses == s.responses
    ensures AsksFresh(c, s')
  {
  }

  lemma AddPeerFresh(c: Crypto, s: State, e: Entry, nonce: U64)
    requires AsksFresh(c, s) && SeqRoom(c, s)
    ensures AsksFresh(c, AddPeer(c, s, e, nonce))
  {
  }

  lemma RemovePeerFresh(c: Crypto, s: State, id: PeerId, key: Key)
    requires AsksFresh(c, s)
    ensures AsksFresh(c, RemovePeer(s, id, key))
  {
  }

  lemma HandleResponseFresh(c: Crypto, s: State, id: PeerId, key: Key, res: SigRes, rtt: nat)
    requires AsksFresh(c, s)
    ensures AsksFresh(c, HandleResponse(s, id, key, res, rtt))
  {
  }

  lemma ExpireSame(c: Crypto, s: State, now: nat, timeout: nat, refresh: nat)
    ensures OwnSame(c, s, ExpireInfos(c, s, now, timeout, refresh))
  {
  }

  lemma StepFresh(c: Crypto, s: State, e: Event, s': State)
    requires Inv(c, s) && SeqRoom(c, s) && SeqRoom(c, s') && AsksFresh(c, s) && Step(c, s, e, s')
    requires e.Announced? ==> OwnSame(c, s, s')
    ensures AsksFresh(c, s')
  {
    match e
    case Announced(peer, ann, now) => SameFresh(c, s, s');
    case PeerAdded(entry, nonce) => AddPeerFresh(c, s, entry, nonce);
    case PeerRemoved(id, key) => RemovePeerFresh(c, s, id, key);
    case Responded(id, key, res, rtt) => HandleResponseFresh(c, s, id, key, res, rtt);
    case Expire(now, timeout, refresh) =>
      ExpireSame(c, s, now, timeout, refresh);
      SameFresh(c, s, s');
    case ForceRefresh => SameFresh(c, s, s');
    case CoordsRead(key) => SameFresh(c, s, s');
    case Maintenance(due, nonce, nonces, now) => PassFresh(c, s, s', due, nonce, nonces, now);
  }

  /** Sequence numbers last, and all that is stored about us is what we announced. */
  ghost predicate UndisturbedAt(c: Crypto, states: seq<State>, events: seq<Event>, i: nat) {
    && i < |events| && i + 1 < |states| && SeqRoom(c, states[i]) && SeqRoom(c, states[i + 1])
    && (events[i].Announced? ==> OwnSame(c, states[i], states[i + 1]))
  }

  ghost predicate Undisturbed(c: Crypto, states: seq<State>, events: seq<Event>, n: nat) {
    forall i :: 0 <= i < n ==> UndisturbedAt(c, states, events, i)
  }

  lemma {:induction false} RunFresh(c: Crypto, states: seq<State>, events: seq<Event>, n: nat)
    requires c.Lawful() && Run(c, states, events) && n < |states| && Undisturbed(c, states, events, n)
    ensures AsksFresh(c, states[n])
  {
    if n == 0 {
    } else {
      var i := n - 1;
      RunFresh(c, states, events, i);
      RunKeeps(c, states, events, i);
      assert StepAt(c, states, events, i) && UndisturbedAt(c, states, events, i);
      StepFresh(c, states[i], events[i], states[n]);
    }
  }

  /** In every run in which nobody announces us but ourselves: as soon as a peer offers a place with a root better than
      our own, the next pass takes a place with the smallest root on offer. */
  lemma JoinsSmallestRoot(c: Crypto, states: seq<State>, events: seq<Event>, n: nat, p: Key)
    requires c.Lawful() && Run(c, states, events) && n < |events| && events[n].Maintenance? && Undisturbed(c, states, events, n)
    requires SeqRoom(c, states[n]) && Offer(c, states[n], p) && RootOf(states[n].infos, p) < OwnRoot(c, states[n])
    ensures AtSmallestRoot(c, states[n], states[n + 1])
  {
    RunKeeps(c, states, events, n);
    RunFresh(c, states, events, n);
    assert StepAt(c, states, events, n);
    var e := events[n];
    PassJoins(c, states[n], states[n + 1], e.due, e.nonce, e.nonces, e.now, p);
  }

  // ---------------------------------------------------------------------------
  // Staying
  // ---------------------------------------------------------------------------

  /** No offer leads to a root better than our own. */
  ghost predicate NothingBetter(c: Crypto, s: State) {
    forall p :: Offer(c, s, p) ==> OwnRoot(c, s) <= RootOf(s.infos, p)
  }

  /** Without a better root and without a refresh, the selection is what we have. */
  lemma SelectedStays(c: Crypto, s: State, root: Key, parent: Key)
    requires Shape(s) && Selected(c, s, root, parent) && NothingBetter(c, s) && !s.refresh
    requires c.self in s.infos && (Placed(c, s) || s.infos[c.self].parent == c.self)
    ensures parent == s.infos[c.self].parent
  {
    SelectedIs(c, s, root, parent);
    SelectedLoopFree(c, s, root, parent);
    SelectedOrigin(c, s, root, parent);
  }

  lemma SelectedOrigin(c: Crypto, s: State, root: Key, parent: Key)
    requires Shape(s) && Selected(c, s, root, parent)
    ensures root == OwnRoot(c, s) || (Offer(c, s, parent) && RootOf(s.infos, parent) == root)
    ensures Placed(c, s) && root == OwnRoot(c, s) && !s.refresh ==> parent == s.infos[c.self].parent
  {
    var cost: U64 :| Best(c, s, s.responses.Keys, root, parent, cost);
    assert Loyal(c, s, s.responses.Keys, root, parent, cost);
  }

  /** With nothing better on offer and no flag up, a pass leaves our position alone. */
  lemma PassStays(c: Crypto, s: State, s': State, nonce: U64, nonces: Key -> U64, now: nat)
    requires Inv(c, s) && SeqRoom(c, s) && Maintain(c, s, s', false, nonce, nonces, now)
    requires !s.refresh && !s.root1 && !s.root2 && NothingBetter(c, s)
    requires c.self in s.infos && (Placed(c, s) || s.infos[c.self].parent == c.self)
    ensures s'.infos == s.infos && s'.requests == s.requests && s'.responses == s.responses
  {
    var root, parent, u := MaintenanceOutcome(c, s, s', false, nonce, nonces, now);
    DueNothingBetter(c, s, false);
    SelectedStays(c, Due(s, false), root, parent);
  }

  lemma DueNothingBetter(c: Crypto, s: State, due: bool)
    requires Shape(s)
    ensures var d := Due(s, due);
            Shape(d) && (NothingBetter(c, d) <==> NothingBetter(c, s)) && (Placed(c, d) <==> Placed(c, s))
  {
    assert OwnRoot(c, Due(s, due)) == OwnRoot(c, s);
    assert forall q :: Offer(c, Due(s, due), q) <==> Offer(c, s, q);
  }
}
