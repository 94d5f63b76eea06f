/** What every run of the router keeps, and how its position in the tree recovers. */
module RouterRuns {
  import opened Basics
  import opened Tree
  import opened RouterSpec

  // ---------------------------------------------------------------------------
  // Runs
  // ---------------------------------------------------------------------------

  /** The inputs of the router actor. Announcements and responses have passed the signature
      checks of the connection's reader. */
  datatype Event =
    | Announced(peer: Key, ann: Announce, now: nat)
    | PeerAdded(entry: Entry, nonce: U64)
    | PeerRemoved(id: PeerId, key: Key)
    | Responded(id: PeerId, key: Key, res: SigRes, rtt: nat)
    | Expire(now: nat, timeout: nat, refresh: nat)
    | ForceRefresh
    | CoordsRead(key: Key)
    | Maintenance(due: bool, nonce: U64, nonces: Key -> U64, now: nat)

  ghost predicate Step(c: Crypto, s: State, e: Event, s': State) {
    match e
    case Announced(peer, ann, now) => Check(c, ann) && s' == HandleAnnounce(c, s, peer, ann, now)
    case PeerAdded(entry, nonce) => s' == AddPeer(c, s, entry, nonce)
    case PeerRemoved(id, key) => s' == RemovePeer(s, id, key)
    case Responded(id, key, res, rtt) => CheckSigRes(c, res, c.self, key) && s' == HandleResponse(s, id, key, res, rtt)
    case Expire(now, timeout, refresh) => s' == ExpireInfos(c, s, now, timeout, refresh)
    case ForceRefresh => s' == s.(refresh := true, root1 := true, root2 := true)
    case CoordsRead(key) => s' == s.(cache := s.cache[key := PathOf(s.infos, key)])
    case Maintenance(due, nonce, nonces, now) => Maintain(c, s, s', due, nonce, nonces, now)
  }

  ghost predicate Run(c: Crypto, states: seq<State>, events: seq<Event>) {
    && |states| == |events| + 1
    && states[0] == INITIAL
    && forall i :: 0 <= i < |events| ==> StepAt(c, states, events, i)
  }

  ghost predicate StepAt(c: Crypto, states: seq<State>, events: seq<Event>, i: nat) {
    i < |events| && i + 1 < |states| && Step(c, states[i], events[i], states[i + 1])
  }

  // ---------------------------------------------------------------------------
  // Every step keeps the invariant
  // ---------------------------------------------------------------------------

  lemma GossipForgets(infos: Infos, infos': Infos, sent: map<Key, set<Key>>, exchanged: History, gone: set<Key>)
    requires GossipExact(infos, sent, exchanged)
    requires forall k :: k in infos && k !in gone ==> k in infos' && infos'[k] == infos[k]
    ensures GossipExact(infos', Forget(sent, gone), exchanged)
  {
  }

  lemma GossipMarks(infos: Infos, sent: map<Key, set<Key>>, exchanged: History, p: Key, k: Key)
    requires GossipExact(infos, sent, exchanged) && k in infos
    ensures GossipExact(infos, MarkSent(sent, p, k), exchanged[p := Told(exchanged, p)[k := infos[k]]])
  {
  }

  lemma UpdateShape(s: State, ann: Announce, now: nat)
    requires Shape(s)
    ensures Shape(Update(s, ann, now))
  {
  }

  lemma UpdateKeeps(c: Crypto, s: State, ann: Announce, now: nat)
    requires Inv(c, s) && Check(c, ann)
    ensures Inv(c, Update(s, ann, now))
  {
    UpdateShape(s, ann, now);
    GossipForgets(s.infos, s.infos[ann.key := ann.info], s.sent, s.exchanged, {ann.key});
  }

  lemma HandleAnnounceKeeps(c: Crypto, s: State, peer: Key, ann: Announce, now: nat)
    requires Inv(c, s) && Check(c, ann)
    ensures Inv(c, HandleAnnounce(c, s, peer, ann, now))
  {
    var u := Update(s, ann, now);
    UpdateKeeps(c, s, ann, now);
    GossipMarks(u.infos, u.sent, u.exchanged, peer, ann.key);
  }

  lemma LinksAdded(peers: map<Key, map<PeerId, Entry>>, e: Entry)
    requires LinksExact(peers)
    ensures LinksExact(peers[e.key := (if e.key in peers then peers[e.key] else map[])[e.id := e]])
  {
    var links := (if e.key in peers then peers[e.key] else map[])[e.id := e];
    assert e.id in links;
  }

  lemma GossipRecords(infos: Infos, sent: map<Key, set<Key>>, exchanged: History, p: Key, ks: set<Key>)
    requires GossipExact(infos, sent, exchanged)
    ensures GossipExact(infos, sent, Record(exchanged, infos, p, ks))
  {
  }

  lemma AddPeerShape(c: Crypto, s: State, e: Entry, nonce: U64)
    requires Shape(s)
    ensures Shape(AddPeer(c, s, e, nonce))
  {
    LinksAdded(s.peers, e);
  }

  lemma AddPeerGossip(c: Crypto, s: State, e: Entry, nonce: U64)
    requires Shape(s) && GossipExact(s.infos, s.sent, s.exchanged)
    ensures var s' := AddPeer(c, s, e, nonce); GossipExact(s'.infos, s'.sent, s'.exchanged)
  {
    if e.key in s.peers {
      GossipRecords(s.infos, s.sent, s.exchanged, e.key, s.sent[e.key]);
    }
  }

  lemma AddPeerKeeps(c: Crypto, s: State, e: Entry, nonce: U64)
    requires Inv(c, s)
    ensures Inv(c, AddPeer(c, s, e, nonce))
  {
    AddPeerShape(c, s, e, nonce);
    AddPeerGossip(c, s, e, nonce);
  }

  lemma LinksRemoved(peers: map<Key, map<PeerId, Entry>>, id: PeerId, key: Key)
    requires LinksExact(peers)
    ensures LinksExact(Unlink(peers, id, key))
  {
    var rest := Unlink(peers, id, key);
    forall p | p in rest
      ensures exists other :: other in rest[p]
    {
      var other :| other in peers[p] && (p == key ==> other != id);
      assert other in rest[p];
    }
  }

  lemma RemovePeerShape(s: State, id: PeerId, key: Key)
    requires Shape(s)
    ensures Shape(RemovePeer(s, id, key))
  {
    LinksRemoved(s.peers, id, key);
  }

  lemma RemovePeerKeeps(c: Crypto, s: State, id: PeerId, key: Key)
    requires Inv(c, s)
    ensures Inv(c, RemovePeer(s, id, key))
  {
    RemovePeerShape(s, id, key);
  }

  lemma HandleResponseShape(s: State, id: PeerId, key: Key, res: SigRes, rtt: nat)
    requires Shape(s)
    ensures Shape(HandleResponse(s, id, key, res, rtt))
  {
  }

  lemma HandleResponseKeeps(c: Crypto, s: State, id: PeerId, key: Key, res: SigRes, rtt: nat)
    requires Inv(c, s) && CheckSigRes(c, res, c.self, key)
    ensures Inv(c, HandleResponse(s, id, key, res, rtt))
  {
    HandleResponseShape(s, id, key, res, rtt);
  }

  lemma ExpireShape(c: Crypto, s: State, now: nat, timeout: nat, refresh: nat)
    requires Shape(s)
    ensures Shape(ExpireInfos(c, s, now, timeout, refresh))
  {
  }

  lemma ExpireCache(c: Crypto, s: State, now: nat, timeout: nat, refresh: nat)
    requires CacheExact(s.infos, s.cache)
    ensures var s' := ExpireInfos(c, s, now, timeout, refresh); CacheExact(s'.infos, s'.cache)
  {
    var gone := Expired(c, s, now, timeout, refresh) - {c.self};
    assert gone == {} ==> s.infos - gone == s.infos;
  }

  lemma ExpireKeeps(c: Crypto, s: State, now: nat, timeout: nat, refresh: nat)
    requires Inv(c, s)
    ensures Inv(c, ExpireInfos(c, s, now, timeout, refresh))
  {
    var gone := Expired(c, s, now, timeout, refresh) - {c.self};
    GossipForgets(s.infos, s.infos - gone, s.sent, s.exchanged, gone);
    ExpireShape(c, s, now, timeout, refresh);
    ExpireCache(c, s, now, timeout, refresh);
  }

  lemma RecordInStep(infos: Infos, exchanged: History, p: Key, ks: set<Key>, news: set<Key>)
    requires InStep(infos, Told(exchanged, p), ks) && forall k :: k in news ==> k in infos
    ensures InStep(infos, Recorded(Told(exchanged, p), infos, news), ks + news)
  {
  }

  lemma NewsKnown(self: Key, infos: Infos, p: Key, told: set<Key>)
    ensures forall k :: k in News(self, infos, p, told) ==> k in infos
  {
    AncestorsClosed(infos, self);
    AncestorsClosed(infos, p);
  }

  lemma SendAnnouncesGossip(c: Crypto, s: State)
    requires GossipExact(s.infos, s.sent, s.exchanged)
    ensures var s' := SendAnnounces(c, s); GossipExact(s'.infos, s'.sent, s'.exchanged)
  {
    var s' := SendAnnounces(c, s);
    forall p | p in s'.sent
      ensures InStep(s'.infos, Told(s'.exchanged, p), s'.sent[p])
    {
      NewsKnown(c.self, s.infos, p, s.sent[p]);
      RecordInStep(s.infos, s.exchanged, p, s.sent[p], News(c.self, s.infos, p, s.sent[p]));
    }
  }

  lemma SendAnnouncesKeeps(c: Crypto, s: State)
    requires Inv(c, s)
    ensures Inv(c, SendAnnounces(c, s))
  {
    SendAnnouncesGossip(c, s);
  }

  // ---------------------------------------------------------------------------
  // Parent selection and position
  // ---------------------------------------------------------------------------

  /** The node has an ancestry that ends at a root no larger than itself, through a parent
      that is itself or a connected peer. */
  ghost predicate Positioned(self: Key, infos: Infos, peers: set<Key>) {
    && self in infos
    && Rooted(infos, self)
    && RootOf(infos, self) <= self
    && (infos[self].parent == self || infos[self].parent in peers)
  }

  ghost predicate GoodPosition(c: Crypto, s: State) {
    Positioned(c.self, s.infos, s.peers.Keys)
  }

  /** A selected parent other than ourselves is connected, and its ancestry reaches the selected
      root without passing through us. */
  lemma SelectedLoopFree(c: Crypto, s: State, root: Key, parent: Key)
    requires Shape(s) && Selected(c, s, root, parent)
    ensures root == c.self <==> parent == c.self
    ensures root <= c.self
    ensures parent != c.self ==> parent in s.peers && Rooted(s.infos, parent)
                                 && c.self !in ChainOf(s.infos, parent) && RootOf(s.infos, parent) == root
  {
    if CurrentValid(c, s) && parent == CurrentParent(c, s) {
      var chain := ChainOf(s.infos, c.self);
      RootedParent(s.infos, c.self);
      ChainNoDup(s.infos, chain);
      if parent != c.self {
        assert chain[1..] == ChainOf(s.infos, parent);
      }
    }
  }

  /** Adopting the selected parent, with whatever sequence number and port, makes an acyclic
      ancestry that ends at the selected root. */
  lemma AdoptingIsAcyclic(c: Crypto, s: State, root: Key, parent: Key, info: Info)
    requires Shape(s) && Selected(c, s, root, parent) && parent != c.self && info.parent == parent
    ensures var infos' := s.infos[c.self := info];
            && Rooted(infos', c.self) && RootOf(infos', c.self) == root < c.self
            && Rooted(s.infos, parent) && ChainOf(infos', c.self) == [c.self] + ChainOf(s.infos, parent)
            && NoDup(ChainOf(infos', c.self))
  {
    SelectedLoopFree(c, s, root, parent);
    var infos' := s.infos[c.self := info];
    var chain := ChainOf(s.infos, parent);
    ChainNoDup(s.infos, chain);
    ChainTransfer(s.infos, infos', chain);
    assert ChainFrom(infos', parent, chain);
    ChainUnique(infos', chain, ChainOf(infos', parent));
    RootedBelow(infos', c.self);
    ChainNoDup(infos', ChainOf(infos', c.self));
  }

  /** `become_root` takes effect exactly when the sequence number can still be advanced. */
  lemma BecomeRootAccepted(c: Crypto, s: State, nonce: U64)
    ensures Accepts(s.infos, RootAnnounce(c, s.infos, nonce)) <==> (c.self in s.infos ==> s.infos[c.self].seqno < U64_MAX)
  {
  }

  lemma RootIsGood(c: Crypto, s: State, nonce: U64, now: nat)
    requires SeqRoom(c, s)
    ensures GoodPosition(c, Update(s, RootAnnounce(c, s.infos, nonce), now))
  {
    BecomeRootAccepted(c, s, nonce);
    RootedParent(Update(s, RootAnnounce(c, s.infos, nonce), now).infos, c.self);
  }

  ghost predicate SeqRoom(c: Crypto, s: State) {
    c.self in s.infos ==> s.infos[c.self].seqno < U64_MAX
  }

  lemma StayPosition(c: Crypto, s: State, root: Key, parent: Key)
    requires Shape(s) && c.self in s.infos && s.infos[c.self].parent == parent && Selected(c, s, root, parent)
    ensures GoodPosition(c, s)
  {
    SelectedLoopFree(c, s, root, parent);
    if parent == c.self {
      RootedParent(s.infos, c.self);
    } else {
      RootedBelow(s.infos, c.self);
    }
  }

  lemma AdoptPosition(c: Crypto, s: State, root: Key, parent: Key, nonce: U64, now: nat)
    requires Shape(s) && SeqRoom(c, s) && Selected(c, s, root, parent)
    requires Decide(c, s, root, parent, nonce).Adopt?
    ensures GoodPosition(c, Update(s, Decide(c, s, root, parent, nonce).ann, now))
  {
    var ann := Decide(c, s, root, parent, nonce).ann;
    SelectedLoopFree(c, s, root, parent);
    if ann == RootAnnounce(c, s.infos, nonce) {
      RootIsGood(c, s, nonce, now);
    } else {
      AdoptingIsAcyclic(c, s, root, parent, ann.info);
    }
  }

  /** A pass of `fix` ends in a good position, or it has noted that the next pass must
      produce one; and that next pass does. */
  lemma FixPosition(c: Crypto, s: State, root: Key, parent: Key, nonce: U64, nonces: Key -> U64, now: nat)
    requires Shape(s) && (c.self !in s.infos ==> s.root2) && SeqRoom(c, s) && Selected(c, s, root, parent)
    ensures var s' := FixWith(c, s, root, parent, nonce, nonces, now);
            && (GoodPosition(c, s') || s'.root1)
            && (s.root2 ==> GoodPosition(c, s'))
  {
    match Decide(c, s, root, parent, nonce)
    case Stay => StayPosition(c, s, root, parent);
    case Note =>
    case Adopt(ann) => AdoptPosition(c, s, root, parent, nonce, now);
  }

  lemma SettleShape(c: Crypto, s: State, nonces: Key -> U64)
    requires Shape(s)
    ensures Shape(Settle(c, s, nonces))
  {
  }

  lemma SettleKeeps(c: Crypto, s: State, nonces: Key -> U64)
    requires Inv(c, s) && c.self in s.infos
    ensures Inv(c, Settle(c, s, nonces))
  {
    SettleShape(c, s, nonces);
  }

  lemma DecisionSigned(c: Crypto, s: State, root: Key, parent: Key, nonce: U64)
    requires c.Lawful() && SignedExact(c, s.infos, s.responses)
    requires Decide(c, s, root, parent, nonce).Adopt?
    ensures Check(c, Decide(c, s, root, parent, nonce).ann) && Decide(c, s, root, parent, nonce).ann.key == c.self
  {
  }

  lemma AdoptKeeps(c: Crypto, s: State, ann: Announce, nonces: Key -> U64, now: nat)
    requires Inv(c, s) && Check(c, ann) && ann.key == c.self
    ensures Inv(c, Settle(c, Update(s, ann, now), nonces))
  {
    UpdateKeeps(c, s, ann, now);
    SettleKeeps(c, Update(s, ann, now), nonces);
  }

  lemma FixKeeps(c: Crypto, s: State, root: Key, parent: Key, nonce: U64, nonces: Key -> U64, now: nat)
    requires c.Lawful() && Inv(c, s)
    ensures Inv(c, FixWith(c, s, root, parent, nonce, nonces, now))
  {
    var decision := Decide(c, s, root, parent, nonce);
    if decision.Adopt? {
      DecisionSigned(c, s, root, parent, nonce);
      AdoptKeeps(c, s, decision.ann, nonces, now);
    }
  }

  // ---------------------------------------------------------------------------
  // Theorems about whole runs
  // ---------------------------------------------------------------------------

  lemma PrepareKeeps(c: Crypto, s: State, due: bool)
    requires Inv(c, s)
    ensures Inv(c, Prepare(s, due))
  {
  }

  lemma MaintenanceKeeps(c: Crypto, s: State, s': State, due: bool, nonce: U64, nonces: Key -> U64, now: nat)
    requires c.Lawful() && Inv(c, s) && Maintain(c, s, s', due, nonce, nonces, now)
    ensures Inv(c, s')
  {
    var u :| Fix(c, Prepare(s, due), u, nonce, nonces, now) && s' == SendAnnounces(c, u);
    var root, parent :| Selected(c, Prepare(s, due), root, parent) && u == FixWith(c, Prepare(s, due), root, parent, nonce, nonces, now);
    PrepareKeeps(c, s, due);
    FixKeeps(c, Prepare(s, due), root, parent, nonce, nonces, now);
    SendAnnouncesKeeps(c, u);
  }

  /** After a maintenance pass the node is in a good position, or has noted that the next pass must
      put it there; and if that was already noted, the pass does. */
  lemma MaintenancePosition(c: Crypto, s: State, s': State, due: bool, nonce: U64, nonces: Key -> U64, now: nat)
    requires Inv(c, s) && SeqRoom(c, s) && Maintain(c, s, s', due, nonce, nonces, now)
    ensures GoodPosition(c, s') || s'.root1
    ensures s.root1 ==> GoodPosition(c, s')
  {
    var p := Prepare(s, due);
    PrepareKeeps(c, s, due);
    var u :| Fix(c, p, u, nonce, nonces, now) && s' == SendAnnounces(c, u);
    var root, parent :| Selected(c, p, root, parent) && u == FixWith(c, p, root, parent, nonce, nonces, now);
    FixPosition(c, p, root, parent, nonce, nonces, now);
  }

  /** After a maintenance pass every peer has been told our ancestry and its own. */
  lemma MaintenanceTells(c: Crypto, s: State, s': State, due: bool, nonce: U64, nonces: Key -> U64, now: nat)
    requires Maintain(c, s, s', due, nonce, nonces, now)
    ensures forall p :: p in s'.sent ==> Elems(Ancestors(s'.infos, c.self)) + Elems(Ancestors(s'.infos, p)) <= s'.sent[p]
  {
  }

  lemma CacheKeeps(c: Crypto, s: State, cache: map<Key, RouterPath>)
    requires Inv(c, s) && CacheExact(s.infos, cache)
    ensures Inv(c, s.(cache := cache))
  {
  }

  lemma ForceRefreshKeeps(c: Crypto, s: State)
    requires Inv(c, s)
    ensures Inv(c, s.(refresh := true, root1 := true, root2 := true))
  {
  }

  lemma StepKeeps(c: Crypto, s: State, e: Event, s': State)
    requires c.Lawful() && Inv(c, s) && Step(c, s, e, s')
    ensures Inv(c, s')
  {
    match e
    case Announced(peer, ann, now) => HandleAnnounceKeeps(c, s, peer, ann, now);
    case PeerAdded(entry, nonce) => AddPeerKeeps(c, s, entry, nonce);
    case PeerRemoved(id, key) => RemovePeerKeeps(c, s, id, key);
    case Responded(id, key, res, rtt) => HandleResponseKeeps(c, s, id, key, res, rtt);
    case Expire(now, timeout, refresh) => ExpireKeeps(c, s, now, timeout, refresh);
    case ForceRefresh => ForceRefreshKeeps(c, s);
    case CoordsRead(key) => CacheKeeps(c, s, s.cache[key := PathOf(s.infos, key)]);
    case Maintenance(due, nonce, nonces, now) => MaintenanceKeeps(c, s, s', due, nonce, nonces, now);
  }

  /** The gossip, cache, signature and bookkeeping invariants hold in every reachable state. */
  lemma {:induction false} RunKeeps(c: Crypto, states: seq<State>, events: seq<Event>, i: nat)
    requires c.Lawful() && Run(c, states, events) && i < |states|
    ensures Inv(c, states[i])
  {
    if i == 0 {
    } else {
      RunKeeps(c, states, events, i - 1);
      assert StepAt(c, states, events, i - 1);
      StepKeeps(c, states[i - 1], events[i - 1], states[i]);
    }
  }

  /** Only a maintenance pass clears the note that the next pass must become root. */
  lemma NoteSurvives(c: Crypto, s: State, e: Event, s': State)
    requires Step(c, s, e, s') && !e.Maintenance? && s.root1
    ensures s'.root1
  {
  }

  lemma {:induction false} NoteSurvivesRun(c: Crypto, states: seq<State>, events: seq<Event>, i: nat, j: nat)
    requires Run(c, states, events) && i <= j < |states|
    requires states[i].root1 && forall k :: i <= k < j ==> !events[k].Maintenance?
    ensures states[j].root1
  {
    if i >= j {
    } else {
      NoteSurvivesRun(c, states, events, i, j - 1);
      assert StepAt(c, states, events, j - 1);
      NoteSurvives(c, states[j - 1], events[j - 1], states[j]);
    }
  }

  lemma PassResult(c: Crypto, states: seq<State>, events: seq<Event>, i: nat)
    requires c.Lawful() && Run(c, states, events) && i < |events|
    requires events[i].Maintenance? && SeqRoom(c, states[i])
    ensures GoodPosition(c, states[i + 1]) || states[i + 1].root1
    ensures states[i].root1 ==> GoodPosition(c, states[i + 1])
  {
    RunKeeps(c, states, events, i);
    var e := events[i];
    assert StepAt(c, states, events, i);
    MaintenancePosition(c, states[i], states[i + 1], e.due, e.nonce, e.nonces, e.now);
  }

  /** Of any two consecutive maintenance passes of any run, whatever happens in between, at
      least one leaves the node in a good position. */
  lemma TwoPasses(c: Crypto, states: seq<State>, events: seq<Event>, i: nat, j: nat)
    requires c.Lawful() && Run(c, states, events) && i < j < |events|
    requires events[i].Maintenance? && events[j].Maintenance?
    requires forall k :: i < k < j ==> !events[k].Maintenance?
    requires SeqRoom(c, states[i]) && SeqRoom(c, states[j])
    ensures GoodPosition(c, states[i + 1]) || GoodPosition(c, states[j + 1])
  {
    PassResult(c, states, events, i);
    PassResult(c, states, events, j);
    if states[i + 1].root1 {
      NoteSurvivesRun(c, states, events, i + 1, j);
    }
  }
}
