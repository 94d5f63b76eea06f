/** What single events do to the router's records, told on the records themselves. */
module Upkeep {
  import opened Basics
  import opened Tree
  import opened RouterSpec
  import opened RouterRuns
  import opened Routers

  // ---------------------------------------------------------------------------
  // Announcements
  // ---------------------------------------------------------------------------

  /** Whoever announces something counts as told of it; what is stored anew counts as told to nobody else; and news
      about ourselves asks for a refresh. */
  lemma AnnouncedIsTold(c: Crypto, s: State, peer: Key, ann: Announce, now: nat, p: Key)
    ensures var s' := HandleAnnounce(c, s, peer, ann, now);
            && (p in s'.sent <==> p in s.sent)
            && (p in s.sent && p == peer ==> ann.key in s'.sent[p])
            && (p in s.sent && p != peer ==> (ann.key in s'.sent[p] <==> ann.key in s.sent[p] && s'.infos == s.infos))
            && (p in s.sent ==> forall k :: k != ann.key ==> (k in s'.sent[p] <==> k in s.sent[p]))
            && (s'.refresh <==> s.refresh || (ann.key == c.self && s'.infos != s.infos))
  {
  }

  /** The news of a pass: everything known of our ancestry and the peer's own that the peer does not count as told
      of, over every link, and nothing else. */
  lemma TellsExactly(self: Key, infos: Infos, peers: map<Key, map<PeerId, Entry>>, sent: map<Key, set<Key>>, a: Action)
    ensures Tells(self, infos, peers, sent, a) <==>
              && a.SendAnnounce? && a.to in sent && a.to in peers && a.link in peers[a.to]
              && a.ann.key in infos && a.ann.info == infos[a.ann.key] && a.ann.key !in sent[a.to]
              && (a.ann.key in Ancestors(infos, self) || a.ann.key in Ancestors(infos, a.to))
  {
  }

  // ---------------------------------------------------------------------------
  // Responses
  // ---------------------------------------------------------------------------

  /** The first answer to the open request is kept; others change nothing but, once per link, its latency. */
  lemma ResponseKept(s: State, id: PeerId, key: Key, res: SigRes, rtt: nat)
    ensures var s' := HandleResponse(s, id, key, res, rtt);
            var answers := key in s.requests && s.requests[key].seqno == res.seqno && s.requests[key].nonce == res.nonce;
            && (answers && key !in s.responses ==> s'.responses == s.responses[key := res])
            && (!answers || key in s.responses ==> s'.responses == s.responses)
            && (answers ==> id in s'.responded) && (!answers || id in s.responded ==> s'.lags == s.lags)
            && (forall other :: other != id && other in s.lags ==> other in s'.lags && s'.lags[other] == s.lags[other])
  {
  }

  /** The latency of a known link moves an eighth of the way to the round trip, which counts as at most twice the
      latency; so it grows by at most an eighth, and falls only towards a shorter round trip. */
  lemma LagSmoothed(lags: map<PeerId, nat>, id: PeerId, rtt: nat)
    requires id in lags && lags[id] != UNKNOWN_LATENCY
    ensures var lag, next := lags[id], NextLag(lags, id, rtt);
            && 8 * next <= 7 * lag + Min(rtt, 2 * lag) < 8 * next + 16
            && 8 * next <= 9 * lag && (rtt <= lag ==> next <= lag) && (rtt >= lag ==> lag < next + 2)
  {
  }

  /** The first answer over a new link sets its latency to twice the round trip. */
  lemma FirstAnswerDoubles(c: Crypto, s: State, e: Entry, nonce: U64, res: SigRes, rtt: nat)
    requires var t := AddPeer(c, s, e, nonce); t.requests[e.key] == SigReq(res.seqno, res.nonce)
    ensures var s' := HandleResponse(AddPeer(c, s, e, nonce), e.id, e.key, res, rtt);
            e.id in s'.lags && s'.lags[e.id] == 2 * rtt
  {
  }

  lemma UnlinkIs(peers: map<Key, map<PeerId, Entry>>, id: PeerId, key: Key)
    ensures var rest := Unlink(peers, id, key);
            && (key in rest ==> id !in rest[key])
            && (key in peers ==> (key in rest <==> exists other :: other in peers[key] && other != id))
            && (forall p :: p != key ==> (p in rest <==> p in peers) && (p in peers ==> rest[p] == peers[p]))
  {
    if key in peers && !(peers[key].Keys <= {id}) {
      var other :| other in peers[key].Keys && other != id;
    }
  }

  /** A link that is gone has neither latency nor answer on record, and a peer without links nothing at all. */
  lemma RemovedIsForgotten(s: State, id: PeerId, key: Key)
    ensures var s' := RemovePeer(s, id, key);
            && id !in s'.lags && id !in s'.responded && (key in s'.peers ==> id !in s'.peers[key])
            && (key in s.peers ==> (key in s'.peers <==> exists other :: other in s.peers[key] && other != id))
            && (key in s.peers && key !in s'.peers ==> key !in s'.sent && key !in s'.requests && key !in s'.responses)
            && (forall p :: p != key ==> (p in s'.peers <==> p in s.peers) && (p in s.peers ==> s'.peers[p] == s.peers[p]))
  {
    UnlinkIs(s.peers, id, key);
  }

  // ---------------------------------------------------------------------------
  // Expiry
  // ---------------------------------------------------------------------------

  /** What is known about another node lasts for less than the timeout after it was heard; our own announcement stays,
      and asks for a refresh once it is old enough. */
  lemma ExpiresExactly(c: Crypto, s: State, now: nat, timeout: nat, refresh: nat, k: Key)
    requires Shape(s)
    ensures var s' := ExpireInfos(c, s, now, timeout, refresh);
            && (k != c.self ==> (k in s'.infos <==> k in s.infos && now - s.times[k] < timeout))
            && (k == c.self ==> (k in s'.infos <==> k in s.infos))
            && (k in s'.infos ==> s'.infos[k] == s.infos[k] && s'.times[k] == s.times[k])
            && (forall p :: p in s.sent ==> p in s'.sent && (k in s'.sent[p] <==> k in s.sent[p] && (k in s.infos ==> k in s'.infos)))
            && (s'.refresh <==> s.refresh || (c.self in s.infos && now - s.times[c.self] >= refresh))
  {
  }
}
