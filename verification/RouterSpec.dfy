/** Specification of the router: its state as a value, and what each of its operations
    does to it. `Router` (the class) is proved against these definitions. */
module RouterSpec {
  import opened Basics
  import opened Tree

  // ---------------------------------------------------------------------------
  // Signed announcements
  // ---------------------------------------------------------------------------

  /** The fields covered by the signatures of an announcement. */
  datatype SigBytes = SigBytes(node: Key, parent: Key, seqno: U64, nonce: U64, port: Port)

  /** The node's identity. Signing and verifying are uninterpreted functions of which only
      the law below is used. */
  datatype Crypto = Crypto(self: Key, sign: SigBytes -> Sig, verify: (Key, SigBytes, Sig) -> bool)
  {
    ghost predicate Lawful() {
      forall b :: verify(self, b, sign(b))
    }
  }

  datatype Announce = Announce(key: Key, info: Info)

  datatype SigReq = SigReq(seqno: U64, nonce: U64)

  datatype SigRes = SigRes(seqno: U64, nonce: U64, port: Port, psig: Sig)

  function BytesForSig(ann: Announce): SigBytes {
    SigBytes(ann.key, ann.info.parent, ann.info.seqno, ann.info.nonce, ann.info.port)
  }

  /** Port 0 is reserved for a root's announcement of itself; both signatures must verify. */
  predicate Check(c: Crypto, ann: Announce) {
    && (ann.info.port == 0 ==> ann.key == ann.info.parent)
    && c.verify(ann.key, BytesForSig(ann), ann.info.sig)
    && c.verify(ann.info.parent, BytesForSig(ann), ann.info.psig)
  }

  predicate CheckSigRes(c: Crypto, res: SigRes, node: Key, parent: Key) {
    && (res.port == 0 ==> node == parent)
    && c.verify(parent, SigBytes(node, parent, res.seqno, res.nonce, res.port), res.psig)
  }

  /** The order of the CRDT: larger sequence number, then smaller parent, then smaller nonce. */
  predicate Supersedes(x: Info, y: Info) {
    || x.seqno > y.seqno
    || (x.seqno == y.seqno && x.parent < y.parent)
    || (x.seqno == y.seqno && x.parent == y.parent && x.nonce < y.nonce)
  }

  predicate Accepts(infos: Infos, ann: Announce) {
    ann.key in infos ==> Supersedes(ann.info, infos[ann.key])
  }

  // ---------------------------------------------------------------------------
  // State
  // ---------------------------------------------------------------------------

  datatype Entry = Entry(id: PeerId, key: Key, port: Port, prio: nat, order: nat)

  /** For each peer and node, the last announcement about that node that passed between us and
      that peer, either way. */
  type History = map<Key, map<Key, Info>>

  ghost function Told(h: History, p: Key): map<Key, Info> {
    if p in h then h[p] else map[]
  }

  datatype RouterPath = RouterPath(root: Key, path: seq<Port>)

  /** Everything the tree protocol keeps; `exchanged` is history. */
  datatype State = State(
    infos: Infos,
    times: map<Key, nat>,
    peers: map<Key, map<PeerId, Entry>>,
    sent: map<Key, set<Key>>,
    cache: map<Key, RouterPath>,
    lags: map<PeerId, nat>,
    requests: map<Key, SigReq>,
    responses: map<Key, SigRes>,
    responded: set<PeerId>,
    refresh: bool,
    root1: bool,
    root2: bool,
    exchanged: History
  )

  ghost const INITIAL := State(map[], map[], map[], map[], map[], map[], map[], map[], {}, false, false, true, map[])

  /** Fresh result of the walk behind the coordinate cache. */
  ghost function PathOf(infos: Infos, k: Key): RouterPath {
    if Rooted(infos, k) then RouterPath(RootOf(infos, k), CoordsOf(infos, k)) else RouterPath(k, [])
  }

  ghost predicate CacheExact(infos: Infos, cache: map<Key, RouterPath>) {
    forall k :: k in cache ==> cache[k] == PathOf(infos, k)
  }

  /** Whatever is recorded as sent is known, and is what both sides last told each other. */
  ghost predicate GossipExact(infos: Infos, sent: map<Key, set<Key>>, exchanged: History) {
    forall p :: p in sent ==> InStep(infos, Told(exchanged, p), sent[p])
  }

  ghost predicate InStep(infos: Infos, told: map<Key, Info>, ks: set<Key>) {
    forall k :: k in ks ==> k in infos && k in told && told[k] == infos[k]
  }

  /** Every connected key has a link, and links are filed under their own key and id. */
  ghost predicate LinksExact(peers: map<Key, map<PeerId, Entry>>) {
    && (forall p :: p in peers ==> exists id :: id in peers[p])
    && (forall p, id :: p in peers && id in peers[p] ==> peers[p][id].key == p && peers[p][id].id == id)
  }

  ghost predicate Shape(s: State) {
    && (forall k :: k in s.times <==> k in s.infos)
    && (forall p :: p in s.sent <==> p in s.peers)
    && (forall p :: p in s.requests ==> p in s.peers)
    && (forall p :: p in s.responses ==> p in s.requests)
    && LinksExact(s.peers)
  }

  /** Everything stored carries valid signatures and, below the root, a non-zero port. */
  ghost predicate SignedExact(c: Crypto, infos: Infos, responses: map<Key, SigRes>) {
    && (forall k :: k in infos ==> Check(c, Announce(k, infos[k])))
    && (forall p :: p in responses ==> CheckSigRes(c, responses[p], c.self, p))
  }

  ghost predicate Inv(c: Crypto, s: State) {
    && (c.self !in s.infos ==> s.root2)
    && Shape(s)
    && GossipExact(s.infos, s.sent, s.exchanged)
    && CacheExact(s.infos, s.cache)
    && SignedExact(c, s.infos, s.responses)
  }

  // ---------------------------------------------------------------------------
  // Announcements and peers
  // ---------------------------------------------------------------------------

  /** Effect of `update`: store the announcement if it supersedes what is known. */
  ghost function Update(s: State, ann: Announce, now: nat): State {
    var ok := Accepts(s.infos, ann);
    s.(infos := if ok then s.infos[ann.key := ann.info] else s.infos,
       times := if ok then s.times[ann.key := now] else s.times,
       sent := if ok then Forget(s.sent, {ann.key}) else s.sent,
       cache := if ok then map[] else s.cache)
  }

  ghost function Forget(sent: map<Key, set<Key>>, gone: set<Key>): map<Key, set<Key>> {
    map p | p in sent :: sent[p] - gone
  }

  ghost function MarkSent(sent: map<Key, set<Key>>, p: Key, k: Key): map<Key, set<Key>> {
    if p in sent then sent[p := sent[p] + {k}] else sent
  }

  ghost function HandleAnnounce(c: Crypto, s: State, peer: Key, ann: Announce, now: nat): State {
    var u := Update(s, ann, now);
    u.(refresh := u.refresh || (Accepts(s.infos, ann) && ann.key == c.self),
       sent := MarkSent(u.sent, peer, ann.key),
       exchanged := u.exchanged[peer := Told(u.exchanged, peer)[ann.key := u.infos[ann.key]]])
  }

  /** The announcement sent back when one is not accepted. */
  ghost function Reply(s: State, ann: Announce): Option<Announce> {
    if !Accepts(s.infos, ann) && s.infos[ann.key] != ann.info then Some(Announce(ann.key, s.infos[ann.key]))
    else None
  }

  /** Next sequence number, as the 64-bit addition computes it. */
  function NextSeq(infos: Infos, self: Key): U64 {
    var last := if self in infos then infos[self].seqno else 0;
    if last < U64_MAX then last + 1 else 0
  }

  const UNKNOWN_LATENCY: nat := 0xFFFF_FFFF

  /** History with one peer after the known announcements about `ks` went to it. */
  ghost function Recorded(told: map<Key, Info>, infos: Infos, ks: set<Key>): map<Key, Info> {
    told + map k | k in ks && k in infos :: infos[k]
  }

  ghost function Record(exchanged: History, infos: Infos, p: Key, ks: set<Key>): History {
    exchanged[p := Recorded(Told(exchanged, p), infos, ks)]
  }

  function Link(peers: map<Key, map<PeerId, Entry>>, e: Entry): map<Key, map<PeerId, Entry>> {
    var links := if e.key in peers then peers[e.key] else map[];
    peers[e.key := links[e.id := e]]
  }

  ghost function AddPeer(c: Crypto, s: State, e: Entry, nonce: U64): State {
    s.(peers := Link(s.peers, e),
       sent := if e.key in s.peers then s.sent else s.sent[e.key := {}],
       lags := s.lags[e.id := UNKNOWN_LATENCY],
       requests := if e.key in s.requests then s.requests
                   else s.requests[e.key := SigReq(NextSeq(s.infos, c.self), nonce)],
       responded := s.responded - {e.id},
       exchanged := if e.key in s.peers && e.key in s.sent
                    then Record(s.exchanged, s.infos, e.key, s.sent[e.key]) else s.exchanged)
  }

  ghost function Unlink(peers: map<Key, map<PeerId, Entry>>, id: PeerId, key: Key): map<Key, map<PeerId, Entry>> {
    if key !in peers then peers
    else if peers[key].Keys <= {id} then peers - {key}
    else peers[key := peers[key] - {id}]
  }

  ghost function RemovePeer(s: State, id: PeerId, key: Key): State {
    var gone := if key in s.peers && s.peers[key].Keys <= {id} then {key} else {};
    s.(lags := s.lags - {id},
       responded := s.responded - {id},
       peers := Unlink(s.peers, id, key),
       sent := s.sent - gone,
       requests := s.requests - gone,
       responses := s.responses - gone,
       cache := s.cache - gone)
  }

  predicate Matches(s: State, key: Key, res: SigRes) {
    key in s.requests && s.requests[key] == SigReq(res.seqno, res.nonce)
  }

  /** Smoothed link latency after a measured round trip. */
  function NextLag(lags: map<PeerId, nat>, id: PeerId, rtt: nat): nat {
    var lag := if id in lags then lags[id] else UNKNOWN_LATENCY;
    if lag == UNKNOWN_LATENCY then rtt * 2
    else lag * 7 / 8 + (if rtt < lag * 2 then rtt else lag * 2) / 8
  }

  ghost function HandleResponse(s: State, id: PeerId, key: Key, res: SigRes, rtt: nat): State {
    var hit := Matches(s, key, res);
    s.(responses := if hit && key !in s.responses then s.responses[key := res] else s.responses,
       responded := if hit then s.responded + {id} else s.responded,
       lags := if hit && id !in s.responded then s.lags[id := NextLag(s.lags, id, rtt)] else s.lags)
  }

  /** The nodes whose information is older than the limit that applies to them. */
  ghost function Expired(c: Crypto, s: State, now: nat, timeout: nat, refresh: nat): set<Key> {
    set k | k in s.times && now - s.times[k] >= (if k == c.self then refresh else timeout)
  }

  ghost function ExpireInfos(c: Crypto, s: State, now: nat, timeout: nat, refresh: nat): State {
    var gone := Expired(c, s, now, timeout, refresh) - {c.self};
    s.(infos := s.infos - gone, times := s.times - gone, sent := Forget(s.sent, gone),
       cache := if gone == {} then s.cache else map[],
       refresh := s.refresh || c.self in Expired(c, s, now, timeout, refresh))
  }

  /** What peer `p`, having been told `told`, has yet to be told of our ancestry and its own. */
  ghost function News(self: Key, infos: Infos, p: Key, told: set<Key>): set<Key> {
    Elems(Ancestors(infos, self)) + Elems(Ancestors(infos, p)) - told
  }

  ghost function TellAll(self: Key, infos: Infos, sent: map<Key, set<Key>>): map<Key, set<Key>> {
    map p | p in sent :: sent[p] + News(self, infos, p, sent[p])
  }

  ghost function RecordAll(self: Key, infos: Infos, sent: map<Key, set<Key>>, exchanged: History): History {
    map p | p in exchanged.Keys + sent.Keys ::
      if p in sent then Recorded(Told(exchanged, p), infos, News(self, infos, p, sent[p])) else exchanged[p]
  }

  ghost function SendAnnounces(c: Crypto, s: State): State {
    s.(sent := TellAll(c.self, s.infos, s.sent), exchanged := RecordAll(c.self, s.infos, s.sent, s.exchanged))
  }

  // ---------------------------------------------------------------------------
  // Parent selection
  // ---------------------------------------------------------------------------

  ghost function CurrentParent(c: Crypto, s: State): Key {
    if c.self in s.infos then s.infos[c.self].parent else c.self
  }

  /** The present parent is connected and leads to a root better than ourselves. */
  ghost predicate CurrentValid(c: Crypto, s: State) {
    CurrentParent(c, s) in s.peers && Rooted(s.infos, c.self) && RootOf(s.infos, c.self) < c.self
  }

  /** A peer that signed our request, whose ancestry reaches a root without passing through us. */
  ghost predicate Candidate(c: Crypto, s: State, p: Key) {
    p in s.responses && p in s.infos && Rooted(s.infos, p) && c.self !in ChainOf(s.infos, p)
  }

  /** Only connected peers have responses pending. */
  ghost predicate Answered(s: State) {
    forall p :: p in s.responses ==> p in s.peers
  }

  function LinkLatency(lags: map<PeerId, nat>, id: PeerId): nat {
    var ms := (if id in lags then lags[id] else UNKNOWN_LATENCY) / 1_000_000;
    if ms == 0 then 1 else ms
  }

  /** Cheapest link among `links` for a root `d` hops away. */
  ghost function LinkCost(lags: map<PeerId, nat>, links: map<PeerId, Entry>, d: nat): (cost: U64)
    ensures forall id :: id in links ==> cost <= SatMul(d, LinkLatency(lags, links[id].id))
    ensures cost == U64_MAX || exists id :: id in links && cost == SatMul(d, LinkLatency(lags, links[id].id))
    decreases |links.Keys|
  {
    if links == map[] then U64_MAX
    else
      var id :| id in links;
      assert (links - {id}).Keys == links.Keys - {id};
      var rest := LinkCost(lags, links - {id}, d);
      var one := SatMul(d, LinkLatency(lags, links[id].id));
      assert forall j :: j in links && j != id ==> j in links - {id};
      if one < rest then one else rest
  }

  ghost function CurrentCost(c: Crypto, s: State): U64
    requires CurrentValid(c, s)
  {
    LinkCost(s.lags, s.peers[CurrentParent(c, s)], |ChainOf(s.infos, c.self)| - 1)
  }

  ghost function CandidateCost(c: Crypto, s: State, p: Key): U64
    requires Candidate(c, s, p)
  {
    LinkCost(s.lags, if p in s.peers then s.peers[p] else map[], |ChainOf(s.infos, p)|)
  }

  /** `cost * 2` in 64-bit arithmetic. */
  function Double(cost: U64): U64 {
    if cost * 2 <= U64_MAX then cost * 2 else cost * 2 - (U64_MAX + 1)
  }

  ghost predicate NoWrap(c: Crypto, s: State) {
    forall p :: Candidate(c, s, p) ==> CandidateCost(c, s, p) * 2 <= U64_MAX
  }

  /** Where a choice of root and parent, and its cost, can come from: being root, staying, or
      one of the candidates in `seen`. */
  ghost predicate Offered(c: Crypto, s: State, seen: set<Key>, root: Key, parent: Key, cost: U64) {
    || (root == c.self && parent == c.self && cost == U64_MAX)
    || (CurrentValid(c, s) && parent == CurrentParent(c, s) && root == RootOf(s.infos, c.self) && cost == CurrentCost(c, s))
    || (parent in seen && Candidate(c, s, parent) && root == RootOf(s.infos, parent) < c.self && cost == CandidateCost(c, s, parent))
  }

  /** No option leads to a smaller root. */
  ghost predicate Smallest(c: Crypto, s: State, seen: set<Key>, root: Key) {
    && root <= c.self
    && (CurrentValid(c, s) ==> root <= RootOf(s.infos, c.self))
    && (forall p :: p in seen && Candidate(c, s, p) ==> root <= RootOf(s.infos, p))
  }

  /** The candidates in `seen` that lead to `root`. */
  ghost predicate Rival(c: Crypto, s: State, seen: set<Key>, root: Key, p: Key) {
    p in seen && Candidate(c, s, p) && RootOf(s.infos, p) == root
  }

  /** Among ways to the same root the present parent is kept, unless refreshing and another way
      costs less than half; otherwise the choice is the cheapest way. */
  ghost predicate Loyal(c: Crypto, s: State, seen: set<Key>, root: Key, parent: Key, cost: U64) {
    var staying := CurrentValid(c, s) && root == RootOf(s.infos, c.self);
    && (staying && !s.refresh ==> parent == CurrentParent(c, s))
    && (staying && s.refresh && parent == CurrentParent(c, s) && NoWrap(c, s) ==>
          forall p :: Rival(c, s, seen, root, p) ==> CandidateCost(c, s, p) * 2 >= cost)
    && (staying && parent != CurrentParent(c, s) && NoWrap(c, s) ==> cost * 2 < CurrentCost(c, s))
    && (parent != CurrentParent(c, s) && (NoWrap(c, s) || !s.refresh) ==>
          forall p :: Rival(c, s, seen, root, p) ==> cost <= CandidateCost(c, s, p))
  }

  ghost predicate Best(c: Crypto, s: State, seen: set<Key>, root: Key, parent: Key, cost: U64) {
    Offered(c, s, seen, root, parent, cost) && Smallest(c, s, seen, root) && Loyal(c, s, seen, root, parent, cost)
  }

  ghost predicate Selected(c: Crypto, s: State, root: Key, parent: Key) {
    exists cost: U64 :: Best(c, s, s.responses.Keys, root, parent, cost)
  }

  // ---------------------------------------------------------------------------
  // Fixing our own position, and the maintenance pass around it
  // ---------------------------------------------------------------------------

  ghost function Links(peers: map<Key, map<PeerId, Entry>>): set<PeerId> {
    set p, id | p in peers && id in peers[p] :: id
  }

  function RootAnnounce(c: Crypto, infos: Infos, nonce: U64): Announce {
    var b := SigBytes(c.self, c.self, NextSeq(infos, c.self), nonce, 0);
    Announce(c.self, Info(c.self, b.seqno, nonce, 0, c.sign(b), c.sign(b)))
  }

  function ResponseAnnounce(c: Crypto, peer: Key, res: SigRes): Announce {
    var b := SigBytes(c.self, peer, res.seqno, res.nonce, res.port);
    Announce(c.self, Info(peer, res.seqno, res.nonce, res.port, res.psig, c.sign(b)))
  }

  /** What a pass of `fix` does: announce a new position, leave things, or note that the next
      pass must become root. */
  datatype Decision = Stay | Note | Adopt(ann: Announce)

  ghost function Decide(c: Crypto, s: State, root: Key, parent: Key, nonce: U64): Decision {
    if !(s.refresh || s.root1 || s.root2 || CurrentParent(c, s) != parent) then Stay
    else if && parent in s.responses && root != c.self
            && Accepts(s.infos, ResponseAnnounce(c, parent, s.responses[parent]))
    then Adopt(ResponseAnnounce(c, parent, s.responses[parent]))
    else if s.root2 then Adopt(RootAnnounce(c, s.infos, nonce))
    else Note
  }

  /** Adopting a position renews the signature requests to every peer. */
  ghost function Settle(c: Crypto, s: State, nonces: Key -> U64): State {
    s.(refresh := false, root1 := false, root2 := false,
       requests := map p | p in s.peers :: SigReq(NextSeq(s.infos, c.self), nonces(p)),
       responses := map[],
       responded := s.responded - Links(s.peers))
  }

  ghost function Enact(c: Crypto, s: State, d: Decision, nonces: Key -> U64, now: nat): State {
    match d
    case Stay => s
    case Note => s.(root1 := true)
    case Adopt(ann) => Settle(c, Update(s, ann, now), nonces)
  }

  ghost function FixWith(c: Crypto, s: State, root: Key, parent: Key, nonce: U64, nonces: Key -> U64, now: nat): State {
    Enact(c, s, Decide(c, s, root, parent, nonce), nonces, now)
  }

  ghost predicate Fix(c: Crypto, s: State, s': State, nonce: U64, nonces: Key -> U64, now: nat) {
    exists root, parent :: Selected(c, s, root, parent) && s' == FixWith(c, s, root, parent, nonce, nonces, now)
  }

  ghost function Prepare(s: State, due: bool): State {
    s.(refresh := s.refresh || due, root2 := s.root2 || s.root1, cache := map[])
  }

  /** One pass of `do_maintenance` over the tree protocol: refresh timer, `fix`, `send_announces`. */
  ghost predicate Maintain(c: Crypto, s: State, s': State, due: bool, nonce: U64, nonces: Key -> U64, now: nat) {
    exists u :: Fix(c, Prepare(s, due), u, nonce, nonces, now) && s' == SendAnnounces(c, u)
  }
}
