/** The router: mutable state, with every operation proved against `RouterSpec`. */
module Routers {
  import opened Basics
  import opened Tree
  import opened Metric
  import opened RouterSpec
  import opened RouterRuns
  import opened ParentChoice
  import opened Forwarding

  /** A message sent over one link of a peer. */
  datatype Action =
    | SendAnnounce(to: Key, link: PeerId, ann: Announce)
    | SendSigReq(to: Key, link: PeerId, req: SigReq)

  /** `a` announces to `p` what is known about a node in `ks`. */
  ghost predicate Announces(infos: Infos, a: Action, p: Key, ks: set<Key>) {
    a.SendAnnounce? && a.to == p && a.ann.key in ks && a.ann.key in infos && a.ann.info == infos[a.ann.key]
  }

  /** `a` sends a peer the request that is open with it. */
  ghost predicate Asks(peers: map<Key, map<PeerId, Entry>>, requests: map<Key, SigReq>, a: Action) {
    a.SendSigReq? && a.to in peers && a.link in peers[a.to] && a.to in requests && a.req == requests[a.to]
  }

  lemma AsksMore(peers: map<Key, map<PeerId, Entry>>, requests: map<Key, SigReq>, p: Key, req: SigReq)
    requires p in peers && p !in requests
    ensures forall a :: Asks(peers, requests[p := req], a) <==>
              Asks(peers, requests, a) || (a.SendSigReq? && a.to == p && a.link in peers[p] && a.req == req)
  {
  }

  /** No link of a peer outside `todo` counts as having responded. */
  ghost predicate AwaitsUnless(todo: set<Key>, peers: map<Key, map<PeerId, Entry>>, was: set<PeerId>, responded: set<PeerId>) {
    forall id :: id in responded <==> id in was && !exists p :: p in peers && p !in todo && id in peers[p]
  }

  lemma AwaitsNext(todo: set<Key>, peers: map<Key, map<PeerId, Entry>>, was: set<PeerId>, responded: set<PeerId>, p: Key)
    requires AwaitsUnless(todo, peers, was, responded) && p in todo && p in peers
    ensures AwaitsUnless(todo - {p}, peers, was, responded - peers[p].Keys)
  {
    forall id
      ensures id in responded - peers[p].Keys <==> id in was && !exists q :: q in peers && q !in todo - {p} && id in peers[q]
    {
    }
  }

  lemma AwaitsAll(todo: set<Key>, peers: map<Key, map<PeerId, Entry>>, was: set<PeerId>, responded: set<PeerId>)
    requires AwaitsUnless(todo, peers, was, responded) && todo == {}
    ensures responded == was - Links(peers)
  {
    forall id
      ensures id in responded <==> id in was && id !in Links(peers)
    {
    }
  }

  /** `a` tells a peer, over one of its links, something of the two ancestries that it has not been told. */
  ghost predicate Tells(self: Key, infos: Infos, peers: map<Key, map<PeerId, Entry>>, sent: map<Key, set<Key>>, a: Action) {
    && a.to in sent && a.to in peers && a.link in peers[a.to]
    && Announces(infos, a, a.to, News(self, infos, a.to, sent[a.to]))
  }

  /** The messages of a pass that selected `parent` under `root` in state `s` and then fixed its position: requests to
      all peers if the position changed, and the news. */
  ghost predicate PassSends(c: Crypto, s: State, root: Key, parent: Key, nonce: U64, fixed: State, a: Action) {
    || (Decide(c, s, root, parent, nonce).Adopt? && Asks(fixed.peers, fixed.requests, a))
    || Tells(c.self, fixed.infos, fixed.peers, fixed.sent, a)
  }

  /** Peer `p` has been told its news, or is in `todo` and nothing has changed for it. */
  ghost predicate ToldUnless(todo: set<Key>, self: Key, infos: Infos, sent0: map<Key, set<Key>>, exchanged0: History,
                             sent: map<Key, set<Key>>, exchanged: History, p: Key)
  {
    if p !in todo && p in sent0 then
      var news := News(self, infos, p, sent0[p]);
      && p in sent && sent[p] == sent0[p] + news
      && p in exchanged && exchanged[p] == Recorded(Told(exchanged0, p), infos, news)
    else
      && (p in sent <==> p in sent0) && (p in sent0 ==> sent[p] == sent0[p])
      && (p in exchanged <==> p in exchanged0) && (p in exchanged0 ==> exchanged[p] == exchanged0[p])
  }

  lemma ToldNext(todo: set<Key>, self: Key, infos: Infos, sent0: map<Key, set<Key>>, exchanged0: History,
                 sent: map<Key, set<Key>>, exchanged: History, p: Key)
    requires p in todo && p in sent0
    requires forall q :: ToldUnless(todo, self, infos, sent0, exchanged0, sent, exchanged, q)
    ensures p in sent && sent[p] == sent0[p]
    ensures var news := News(self, infos, p, sent0[p]);
            var sent', exchanged' := sent[p := sent[p] + news], Record(exchanged, infos, p, news);
            forall q :: ToldUnless(todo - {p}, self, infos, sent0, exchanged0, sent', exchanged', q)
  {
    assert ToldUnless(todo, self, infos, sent0, exchanged0, sent, exchanged, p);
    var news := News(self, infos, p, sent0[p]);
    var todo', sent', exchanged' := todo - {p}, sent[p := sent[p] + news], Record(exchanged, infos, p, news);
    forall q
      ensures ToldUnless(todo', self, infos, sent0, exchanged0, sent', exchanged', q)
    {
      assert ToldUnless(todo, self, infos, sent0, exchanged0, sent, exchanged, q);
    }
  }

  lemma AppendDistinct(a: seq<Entry>, b: seq<Entry>)
    requires NoDup(a) && NoDup(b) && forall e :: e in b ==> e !in a
    ensures NoDup(a + b) && forall e :: e in a + b <==> e in a || e in b
  {
    forall i, j | 0 <= i < j < |a + b|
      ensures (a + b)[i] != (a + b)[j]
    {
      if i < |a| <= j {
        assert b[j - |a|] in b && a[i] in a;
      }
    }
  }

  /** What `fix` leaves alone. */
  lemma EnactFrame(c: Crypto, s: State, d: Decision, nonces: Key -> U64, now: nat)
    ensures var s' := Enact(c, s, d, nonces, now); s'.peers == s.peers && s'.lags == s.lags && s'.exchanged == s.exchanged
  {
    match d
    case Stay =>
    case Note =>
    case Adopt(ann) => SettleFrame(c, RouterSpec.Update(s, ann, now), nonces);
  }

  lemma HandleAnnounceFrame(c: Crypto, s: State, peer: Key, ann: Announce, now: nat)
    ensures var s' := RouterSpec.HandleAnnounce(c, s, peer, ann, now);
            && s'.peers == s.peers && s'.lags == s.lags && s'.requests == s.requests && s'.responses == s.responses
            && s'.responded == s.responded && s'.root1 == s.root1 && s'.root2 == s.root2
  {
  }

  lemma AddPeerFrame(c: Crypto, s: State, e: Entry, nonce: U64)
    ensures var s' := RouterSpec.AddPeer(c, s, e, nonce);
            && s'.infos == s.infos && s'.times == s.times && s'.cache == s.cache && s'.responses == s.responses
            && s'.refresh == s.refresh && s'.root1 == s.root1 && s'.root2 == s.root2
            && e.key in s'.requests
  {
  }

  lemma RemovePeerFrame(s: State, id: PeerId, key: Key)
    ensures var s' := RouterSpec.RemovePeer(s, id, key);
            && s'.infos == s.infos && s'.times == s.times && s'.refresh == s.refresh && s'.root1 == s.root1
            && s'.root2 == s.root2 && s'.exchanged == s.exchanged
  {
  }

  lemma HandleResponseFrame(s: State, id: PeerId, key: Key, res: SigRes, rtt: nat)
    ensures var s' := RouterSpec.HandleResponse(s, id, key, res, rtt);
            s' == s.(responses := s'.responses, responded := s'.responded, lags := s'.lags)
  {
  }

  lemma ExpireFrame(c: Crypto, s: State, now: nat, timeout: nat, refresh: nat)
    ensures var s' := RouterSpec.ExpireInfos(c, s, now, timeout, refresh);
            s' == s.(infos := s'.infos, times := s'.times, sent := s'.sent, cache := s'.cache, refresh := s'.refresh)
  {
  }

  lemma SettleFrame(c: Crypto, s: State, nonces: Key -> U64)
    ensures var s' := Settle(c, s, nonces); s'.peers == s.peers && s'.lags == s.lags && s'.exchanged == s.exchanged
  {
  }

  lemma ToldAll(todo: set<Key>, self: Key, infos: Infos, sent0: map<Key, set<Key>>, exchanged0: History,
                sent: map<Key, set<Key>>, exchanged: History)
    requires todo == {} && forall q :: ToldUnless(todo, self, infos, sent0, exchanged0, sent, exchanged, q)
    ensures sent == TellAll(self, infos, sent0)
    ensures exchanged == RecordAll(self, infos, sent0, exchanged0)
  {
    assert sent == TellAll(self, infos, sent0) by {
      forall q ensures (q in sent <==> q in sent0) && (q in sent ==> sent[q] == TellAll(self, infos, sent0)[q]) {
        assert ToldUnless(todo, self, infos, sent0, exchanged0, sent, exchanged, q);
      }
    }
    assert exchanged == RecordAll(self, infos, sent0, exchanged0) by {
      var all := RecordAll(self, infos, sent0, exchanged0);
      forall q ensures (q in exchanged <==> q in all) && (q in exchanged ==> exchanged[q] == all[q]) {
        assert ToldUnless(todo, self, infos, sent0, exchanged0, sent, exchanged, q);
      }
    }
  }

  lemma ForgetNothing(sent: map<Key, set<Key>>)
    ensures Forget(sent, {}) == sent
  {
    assert forall p :: p in sent ==> sent[p] - {} == sent[p];
  }

  lemma EvictMore(infos: Infos, times: map<Key, nat>, sent: map<Key, set<Key>>, gone: set<Key>, k: Key)
    ensures (infos - gone) - {k} == infos - (gone + {k})
    ensures (times - gone) - {k} == times - (gone + {k})
    ensures Forget(Forget(sent, gone), {k}) == Forget(sent, gone + {k})
  {
    forall p | p in sent
      ensures sent[p] - gone - {k} == sent[p] - (gone + {k})
    {
    }
  }

  class Router {
    const crypto: Crypto
    var infos: Infos
    var times: map<Key, nat>
    var peers: map<Key, map<PeerId, Entry>>
    var sent: map<Key, set<Key>>
    var cache: map<Key, RouterPath>
    var lags: map<PeerId, nat>
    var requests: map<Key, SigReq>
    var responses: map<Key, SigRes>
    var responded: set<PeerId>
    var refresh: bool
    var doRoot1: bool
    var doRoot2: bool
    ghost var exchanged: History

    ghost function St(): State
      reads this
    {
      State(infos, times, peers, sent, cache, lags, requests, responses, responded, refresh, doRoot1, doRoot2, exchanged)
    }

    ghost predicate Valid()
      reads this
    {
      crypto.Lawful() && Inv(crypto, St())
    }

    constructor (crypto: Crypto)
      requires crypto.Lawful()
      ensures this.crypto == crypto && St() == INITIAL && Valid()
    {
      this.crypto := crypto;
      infos, times, peers, sent, cache, lags := map[], map[], map[], map[], map[], map[];
      requests, responses, responded := map[], map[], {};
      refresh, doRoot1, doRoot2 := false, false, true;
      exchanged := map[];
    }

    /** Stop treating `k` as told to anyone. */
    method ForgetSent(k: Key)
      modifies this`sent
      ensures sent == Forget(old(sent), {k})
    {
      var todo := sent.Keys;
      while todo != {}
        invariant sent.Keys == old(sent).Keys && todo <= sent.Keys
        invariant forall p :: p in sent ==> sent[p] == if p in todo then old(sent)[p] else old(sent)[p] - {k}
        decreases todo
      {
        var p :| p in todo;
        sent := sent[p := sent[p] - {k}];
        todo := todo - {p};
      }
    }

    method Update(ann: Announce, now: nat) returns (accepted: bool)
      modifies this`infos, this`times, this`sent, this`cache
      ensures accepted == Accepts(old(infos), ann)
      ensures ann.key !in old(infos) ==> accepted
      ensures ann.key in old(infos) ==>
                var known := old(infos)[ann.key];
                && (ann.info.seqno != known.seqno ==> (accepted <==> known.seqno < ann.info.seqno))
                && (ann.info.seqno == known.seqno && ann.info.parent != known.parent ==>
                      (accepted <==> ann.info.parent < known.parent))
                && (ann.info.seqno == known.seqno && ann.info.parent == known.parent ==>
                      (accepted <==> ann.info.nonce < known.nonce))
      ensures var s := RouterSpec.Update(old(St()), ann, now);
              infos == s.infos && times == s.times && sent == s.sent && cache == s.cache
    {
      if ann.key in infos {
        var info := infos[ann.key];
        if info.seqno > ann.info.seqno {
          return false;
        } else if info.seqno < ann.info.seqno {
        } else if info.parent < ann.info.parent {
          return false;
        } else if ann.info.parent < info.parent {
        } else if ann.info.nonce < info.nonce {
        } else {
          return false;
        }
      }
      ForgetSent(ann.key);
      cache := map[];
      infos := infos[ann.key := ann.info];
      times := times[ann.key := now];
      accepted := true;
    }

    /** Store an announcement, or answer it with what is stored. */
    method Receive(link: PeerId, peer: Key, ann: Announce, now: nat) returns (actions: seq<Action>)
      modifies this`infos, this`times, this`sent, this`cache, this`refresh, this`exchanged
      ensures var s := RouterSpec.HandleAnnounce(crypto, old(St()), peer, ann, now);
              && infos == s.infos && times == s.times && sent == s.sent && cache == s.cache
              && refresh == s.refresh && exchanged == s.exchanged
      ensures actions == match Reply(old(St()), ann)
                         case Some(reply) => [SendAnnounce(peer, link, reply)]
                         case None => []
    {
      actions := [];
      var accepted := Update(ann, now);
      if accepted {
        if ann.key == crypto.self {
          refresh := true;
        }
        if peer in sent {
          sent := sent[peer := sent[peer] + {ann.key}];
        }
        exchanged := exchanged[peer := Told(exchanged, peer)[ann.key := ann.info]];
      } else {
        var known := infos[ann.key];
        if peer in sent {
          sent := sent[peer := sent[peer] + {ann.key}];
        }
        if known != ann.info {
          actions := [SendAnnounce(peer, link, Announce(ann.key, known))];
        }
        exchanged := exchanged[peer := Told(exchanged, peer)[ann.key := known]];
      }
    }

    method ReceiveStep(link: PeerId, peer: Key, ann: Announce, now: nat) returns (actions: seq<Action>)
      modifies this`infos, this`times, this`sent, this`cache, this`refresh, this`exchanged
      ensures St() == RouterSpec.HandleAnnounce(crypto, old(St()), peer, ann, now)
      ensures actions == match Reply(old(St()), ann)
                         case Some(reply) => [SendAnnounce(peer, link, reply)]
                         case None => []
    {
      HandleAnnounceFrame(crypto, St(), peer, ann, now);
      actions := Receive(link, peer, ann, now);
    }

    method HandleAnnounce(link: PeerId, peer: Key, ann: Announce, now: nat) returns (actions: seq<Action>)
      requires Valid() && Check(crypto, ann)
      modifies this`infos, this`times, this`sent, this`cache, this`refresh, this`exchanged
      ensures Valid() && Step(crypto, old(St()), Announced(peer, ann, now), St())
      ensures actions == match Reply(old(St()), ann)
                         case Some(reply) => [SendAnnounce(peer, link, reply)]
                         case None => []
    {
      actions := ReceiveStep(link, peer, ann, now);
      StepKeeps(crypto, old(St()), Announced(peer, ann, now), St());
    }

    /** Announce over a new link everything its peer has already been told. */
    method Resend(entry: Entry) returns (actions: seq<Action>)
      ensures forall a :: a in actions <==>
                a.link == entry.id && Announces(infos, a, entry.key, if entry.key in sent then sent[entry.key] else {})
    {
      actions := [];
      ghost var all := if entry.key in sent then sent[entry.key] else {};
      var todo := if entry.key in sent then sent[entry.key] else {};
      while todo != {}
        invariant todo <= all
        invariant forall a :: a in actions <==> a.link == entry.id && Announces(infos, a, entry.key, all - todo)
        decreases todo
      {
        var k :| k in todo;
        if k in infos {
          actions := actions + [SendAnnounce(entry.key, entry.id, Announce(k, infos[k]))];
        }
        todo := todo - {k};
      }
    }

    /** Register a link; to a new key nothing has been sent. */
    method AddLink(entry: Entry)
      modifies this`peers, this`sent, this`exchanged
      ensures peers == Link(old(peers), entry)
      ensures sent == if entry.key in old(peers) then old(sent) else old(sent)[entry.key := {}]
      ensures exchanged == if entry.key in old(peers) && entry.key in old(sent)
                           then Record(old(exchanged), infos, entry.key, old(sent)[entry.key]) else old(exchanged)
    {
      var key := entry.key;
      exchanged := if key in peers && key in sent then Record(exchanged, infos, key, sent[key]) else exchanged;
      sent := if key in peers then sent else sent[key := {}];
      peers := Link(peers, entry);
    }

    method Connect(entry: Entry, nonce: U64)
      modifies this`peers, this`sent, this`lags, this`requests, this`responded, this`exchanged
      ensures var s := RouterSpec.AddPeer(crypto, old(St()), entry, nonce);
              && peers == s.peers && sent == s.sent && lags == s.lags
              && requests == s.requests && responded == s.responded && exchanged == s.exchanged
    {
      AddLink(entry);
      lags := lags[entry.id := UNKNOWN_LATENCY];
      requests := if entry.key in requests then requests
                  else requests[entry.key := SigReq(NextSeq(infos, crypto.self), nonce)];
      responded := responded - {entry.id};
    }

    method ConnectStep(entry: Entry, nonce: U64)
      modifies this`peers, this`sent, this`lags, this`requests, this`responded, this`exchanged
      ensures St() == RouterSpec.AddPeer(crypto, old(St()), entry, nonce) && entry.key in requests
    {
      AddPeerFrame(crypto, St(), entry, nonce);
      Connect(entry, nonce);
    }

    method AddPeer(entry: Entry, nonce: U64) returns (actions: seq<Action>)
      requires Valid()
      modifies this`peers, this`sent, this`lags, this`requests, this`responded, this`exchanged
      ensures Valid() && Step(crypto, old(St()), PeerAdded(entry, nonce), St())
      ensures entry.key in requests && forall a :: a in actions <==>
                || (a.link == entry.id && Announces(infos, a, entry.key, if entry.key in old(sent) then old(sent)[entry.key] else {}))
                || a == SendSigReq(entry.key, entry.id, requests[entry.key])
    {
      var again := Resend(entry);
      ConnectStep(entry, nonce);
      actions := again + [SendSigReq(entry.key, entry.id, requests[entry.key])];
      StepKeeps(crypto, old(St()), PeerAdded(entry, nonce), St());
    }

    method Disconnect(id: PeerId, key: Key)
      modifies this`lags, this`responded, this`peers, this`sent, this`requests, this`responses, this`cache
      ensures var s := RouterSpec.RemovePeer(old(St()), id, key);
              && lags == s.lags && responded == s.responded && peers == s.peers && sent == s.sent
              && requests == s.requests && responses == s.responses && cache == s.cache
    {
      var gone: set<Key> := if key in peers && peers[key].Keys <= {id} then {key} else {};
      lags := lags - {id};
      responded := responded - {id};
      peers := if key !in peers then peers
               else if peers[key].Keys <= {id} then peers - {key}
               else peers[key := peers[key] - {id}];
      sent := sent - gone;
      requests := requests - gone;
      responses := responses - gone;
      cache := cache - gone;
    }

    method DisconnectStep(id: PeerId, key: Key)
      modifies this`lags, this`responded, this`peers, this`sent, this`requests, this`responses, this`cache
      ensures St() == RouterSpec.RemovePeer(old(St()), id, key)
    {
      RemovePeerFrame(St(), id, key);
      Disconnect(id, key);
    }

    method RemovePeer(id: PeerId, key: Key)
      requires Valid()
      modifies this`lags, this`responded, this`peers, this`sent, this`requests, this`responses, this`cache
      ensures Valid() && Step(crypto, old(St()), PeerRemoved(id, key), St())
    {
      DisconnectStep(id, key);
      StepKeeps(crypto, old(St()), PeerRemoved(id, key), St());
    }

    /** Accept the first answer to the open request, and learn the latency of the link. */
    method TakeResponse(id: PeerId, key: Key, res: SigRes, rtt: nat)
      modifies this`responses, this`responded, this`lags
      ensures var s := RouterSpec.HandleResponse(old(St()), id, key, res, rtt);
              responses == s.responses && responded == s.responded && lags == s.lags
    {
      var matched := key in requests && requests[key] == SigReq(res.seqno, res.nonce);
      if key !in responses && matched {
        responses := responses[key := res];
      }
      if id !in responded && matched {
        responded := responded + {id};
        var lag := if id in lags then lags[id] else UNKNOWN_LATENCY;
        var newLag;
        if lag == UNKNOWN_LATENCY {
          newLag := rtt * 2;
        } else {
          newLag := lag * 7 / 8;
          newLag := newLag + (if rtt < lag * 2 then rtt else lag * 2) / 8;
        }
        lags := lags[id := newLag];
      }
    }

    method ResponseStep(id: PeerId, key: Key, res: SigRes, rtt: nat)
      modifies this`responses, this`responded, this`lags
      ensures St() == RouterSpec.HandleResponse(old(St()), id, key, res, rtt)
    {
      HandleResponseFrame(St(), id, key, res, rtt);
      TakeResponse(id, key, res, rtt);
    }

    method HandleResponse(id: PeerId, key: Key, res: SigRes, rtt: nat)
      requires Valid() && CheckSigRes(crypto, res, crypto.self, key)
      modifies this`responses, this`responded, this`lags
      ensures Valid() && Step(crypto, old(St()), Responded(id, key, res, rtt), St())
    {
      ResponseStep(id, key, res, rtt);
      StepKeeps(crypto, old(St()), Responded(id, key, res, rtt), St());
    }

    method Evict(k: Key)
      modifies this`infos, this`times, this`sent, this`cache
      ensures infos == old(infos) - {k} && times == old(times) - {k}
      ensures sent == Forget(old(sent), {k}) && cache == map[]
    {
      infos := infos - {k};
      times := times - {k};
      ForgetSent(k);
      cache := map[];
    }

    /** Evict what is out of date; our own announcement is refreshed instead. */
    method EvictExpired(now: nat, timeout: nat, refreshAfter: nat)
      modifies this`infos, this`times, this`sent, this`cache, this`refresh
      ensures var s := RouterSpec.ExpireInfos(crypto, old(St()), now, timeout, refreshAfter);
              infos == s.infos && times == s.times && sent == s.sent && cache == s.cache && refresh == s.refresh
    {
      var self := crypto.self;
      var expired := set k | k in times && now - times[k] >= (if k == self then refreshAfter else timeout);
      assert expired == Expired(crypto, St(), now, timeout, refreshAfter);
      var todo := expired - {self};
      if self in expired {
        refresh := true;
      }
      ghost var gone: set<Key> := {};
      ForgetNothing(sent);
      while todo != {}
        invariant gone + todo == expired - {self}
        invariant infos == old(infos) - gone && times == old(times) - gone
        invariant sent == Forget(old(sent), gone)
        invariant cache == if gone == {} then old(cache) else map[]
        invariant refresh == (old(refresh) || self in expired)
        decreases todo
      {
        var k :| k in todo;
        todo := todo - {k};
        EvictMore(old(infos), old(times), old(sent), gone, k);
        Evict(k);
        gone := gone + {k};
      }
    }

    method ExpireStep(now: nat, timeout: nat, refreshAfter: nat)
      modifies this`infos, this`times, this`sent, this`cache, this`refresh
      ensures St() == RouterSpec.ExpireInfos(crypto, old(St()), now, timeout, refreshAfter)
    {
      ExpireFrame(crypto, St(), now, timeout, refreshAfter);
      EvictExpired(now, timeout, refreshAfter);
    }

    method ExpireInfos(now: nat, timeout: nat, refreshAfter: nat)
      requires Valid()
      modifies this`infos, this`times, this`sent, this`cache, this`refresh
      ensures Valid() && Step(crypto, old(St()), Expire(now, timeout, refreshAfter), St())
    {
      ExpireStep(now, timeout, refreshAfter);
      StepKeeps(crypto, old(St()), Expire(now, timeout, refreshAfter), St());
    }

    // -------------------------------------------------------------------------
    // Parent selection
    // -------------------------------------------------------------------------

    method CheapestLink(links: map<PeerId, Entry>, dist: nat) returns (cost: U64)
      ensures cost == LinkCost(lags, links, dist)
    {
      cost := U64_MAX;
      var todo := links.Keys;
      while todo != {}
        invariant todo <= links.Keys
        invariant forall id :: id in links.Keys - todo ==> cost <= SatMul(dist, LinkLatency(lags, links[id].id))
        invariant cost == U64_MAX || exists id :: id in links && cost == SatMul(dist, LinkLatency(lags, links[id].id))
        decreases todo
      {
        var id :| id in todo;
        var c := SatMul(dist, LinkLatency(lags, links[id].id));
        if c < cost {
          cost := c;
        }
        todo := todo - {id};
      }
    }

    /** The choice before any candidate is visited: stay, if that leads to a root below us. */
    method Present(current: Key) returns (root: Key, parent: Key, cost: U64)
      requires current == CurrentParent(crypto, St())
      ensures Best(crypto, St(), {}, root, parent, cost)
    {
      StartIsBest(crypto, St());
      root, parent, cost := crypto.self, crypto.self, U64_MAX;
      if current in peers {
        var r, dists, valid := GetRootAndDists(infos, crypto.self);
        if valid && r < root {
          cost := CheapestLink(peers[current], dists[r]);
          root, parent := r, current;
        }
      }
    }

    method SelectParent() returns (root: Key, parent: Key)
      requires Answered(St())
      ensures Selected(crypto, St(), root, parent)
    {
      var current := if crypto.self in infos then infos[crypto.self].parent else crypto.self;
      var cost: U64;
      root, parent, cost := Present(current);
      var todo := responses.Keys;
      ghost var seen: set<Key>, all, s := {}, todo, St();
      while todo != {}
        invariant seen + todo == all
        invariant Best(crypto, s, seen, root, parent, cost)
        decreases todo
      {
        var p :| p in todo;
        root, parent, cost := Visit(p, seen, current, root, parent, cost);
        todo, seen := todo - {p}, seen + {p};
      }
      assert seen == all;
    }

    /** One candidate's turn in the selection. */
    method Visit(p: Key, ghost seen: set<Key>, current: Key, root: Key, parent: Key, cost: U64)
      returns (root': Key, parent': Key, cost': U64)
      requires Answered(St()) && p in responses && current == CurrentParent(crypto, St())
      requires Best(crypto, St(), seen, root, parent, cost)
      ensures Best(crypto, St(), seen + {p}, root', parent', cost')
    {
      root', parent', cost' := root, parent, cost;
      if p !in infos {
        SkipKeepsBest(crypto, St(), seen, Choice(root, parent, cost), p);
        return;
      }
      var r, dists, valid := GetRootAndDists(infos, p);
      if !valid || crypto.self in dists {
        SkipKeepsBest(crypto, St(), seen, Choice(root, parent, cost), p);
        return;
      }
      ConsiderKeepsBest(crypto, St(), seen, Choice(root, parent, cost), p);
      var c := CheapestLink(if p in peers then peers[p] else map[], dists[r] + 1);
      if r < root' {
        root', parent', cost' := r, p, c;
      } else if r != root' {
        return;
      }
      if (refresh && Double(c) < cost') || (parent' != current && c < cost') {
        root', parent', cost' := r, p, c;
      }
    }

    // -------------------------------------------------------------------------
    // Our own position
    // -------------------------------------------------------------------------

    /** Send a request over every link of a peer. */
    method Ask(p: Key, req: SigReq) returns (actions: seq<Action>)
      requires p in peers
      ensures forall a :: a in actions <==> a.SendSigReq? && a.to == p && a.link in peers[p] && a.req == req
    {
      actions := [];
      var todo := peers[p].Keys;
      while todo != {}
        invariant forall id :: id in todo ==> id in peers[p]
        invariant forall a :: a in actions <==>
                    a.SendSigReq? && a.to == p && a.link in peers[p] && a.link !in todo && a.req == req
        decreases todo
      {
        var id :| id in todo;
        actions := actions + [SendSigReq(p, id, req)];
        todo := todo - {id};
      }
    }

    /** Ask every peer for a new signature, and forget the answers to earlier requests. */
    method SendReqs(nonces: Key -> U64) returns (actions: seq<Action>)
      modifies this`requests, this`responses, this`responded
      ensures var s := Settle(crypto, old(St()), nonces);
              requests == s.requests && responses == s.responses && responded == s.responded
      ensures forall a :: a in actions <==> Asks(peers, requests, a)
    {
      requests, actions := map[], [];
      var todo := peers.Keys;
      while todo != {}
        invariant forall p :: p in todo ==> p in peers
        invariant forall p :: p in requests <==> p in peers && p !in todo
        invariant forall p :: p in requests ==> requests[p] == SigReq(NextSeq(infos, crypto.self), nonces(p))
        invariant AwaitsUnless(todo, peers, old(responded), responded)
        invariant forall a :: a in actions <==> Asks(peers, requests, a)
        decreases todo
      {
        var p :| p in todo;
        ghost var asked := requests;
        var req := SigReq(NextSeq(infos, crypto.self), nonces(p));
        requests := requests[p := req];
        AwaitsNext(todo, peers, old(responded), responded, p);
        responded := responded - peers[p].Keys;
        var more := Ask(p, req);
        AsksMore(peers, asked, p, req);
        actions := actions + more;
        todo := todo - {p};
      }
      responses := map[];
      AwaitsAll(todo, peers, old(responded), responded);
    }

    /** Announce a new position of our own and start a new round of requests. */
    method Adopt(ann: Announce, nonces: Key -> U64, now: nat) returns (actions: seq<Action>)
      modifies this`infos, this`times, this`sent, this`cache, this`requests, this`responses, this`responded
      modifies this`refresh, this`doRoot1, this`doRoot2
      ensures var s := Settle(crypto, RouterSpec.Update(old(St()), ann, now), nonces);
              && infos == s.infos && times == s.times && sent == s.sent && cache == s.cache
              && requests == s.requests && responses == s.responses && responded == s.responded
              && refresh == s.refresh && doRoot1 == s.root1 && doRoot2 == s.root2
      ensures forall a :: a in actions <==> Asks(peers, requests, a)
    {
      var accepted := Update(ann, now);
      refresh, doRoot1, doRoot2 := false, false, false;
      actions := SendReqs(nonces);
    }

    /** What to do about the selected parent: use its signed response if that would be accepted,
        become root if that is due, and otherwise make it due. */
    method Decide(root: Key, parent: Key, nonce: U64) returns (d: Decision)
      ensures d == RouterSpec.Decide(crypto, St(), root, parent, nonce)
    {
      var current := if crypto.self in infos then infos[crypto.self].parent else crypto.self;
      if refresh || doRoot1 || doRoot2 || current != parent {
        if parent in responses && root != crypto.self {
          var ann := ResponseAnnounce(crypto, parent, responses[parent]);
          if Accepts(infos, ann) {
            return Decision.Adopt(ann);
          }
        }
        if doRoot2 {
          return Decision.Adopt(RootAnnounce(crypto, infos, nonce));
        }
        return Note;
      }
      return Stay;
    }

    method Fix(nonce: U64, nonces: Key -> U64, now: nat) returns (root: Key, parent: Key, actions: seq<Action>)
      requires Answered(St())
      modifies this`infos, this`times, this`sent, this`cache, this`requests, this`responses, this`responded
      modifies this`refresh, this`doRoot1, this`doRoot2
      ensures Selected(crypto, old(St()), root, parent)
      ensures var s := FixWith(crypto, old(St()), root, parent, nonce, nonces, now);
              && infos == s.infos && times == s.times && sent == s.sent && cache == s.cache
              && requests == s.requests && responses == s.responses && responded == s.responded
              && refresh == s.refresh && doRoot1 == s.root1 && doRoot2 == s.root2
      ensures forall a :: a in actions <==>
                RouterSpec.Decide(crypto, old(St()), root, parent, nonce).Adopt? && Asks(peers, requests, a)
    {
      actions := [];
      root, parent := SelectParent();
      var d := Decide(root, parent, nonce);
      match d
      case Stay =>
      case Note => doRoot1 := true;
      case Adopt(ann) => actions := Adopt(ann, nonces, now);
    }

    // -------------------------------------------------------------------------
    // Gossip
    // -------------------------------------------------------------------------

    /** Add to `told` whatever of `anc` is not in it; `added` is what was added. */
    static method Tell(anc: seq<Key>, told: set<Key>) returns (told': set<Key>, added: seq<Key>)
      ensures told' == told + Elems(anc)
      ensures Elems(added) == Elems(anc) - told
    {
      told', added := told, [];
      for i := 0 to |anc|
        invariant told' == told + Elems(anc[..i])
        invariant Elems(added) == Elems(anc[..i]) - told
      {
        assert Elems(anc[..i + 1]) == Elems(anc[..i]) + {anc[i]};
        if anc[i] !in told' {
          assert Elems(added + [anc[i]]) == Elems(added) + {anc[i]};
          added := added + [anc[i]];
          told' := told' + {anc[i]};
        }
      }
      assert anc[..|anc|] == anc;
    }

    /** Announce the nodes `ks` over every link of `p`. */
    method AnnounceTo(p: Key, ks: seq<Key>) returns (actions: seq<Action>)
      ensures forall a :: a in actions <==> p in peers && a.link in peers[p] && Announces(infos, a, p, Elems(ks))
    {
      actions := [];
      if p !in peers {
        return;
      }
      var todo := peers[p].Keys;
      while todo != {}
        invariant forall id :: id in todo ==> id in peers[p]
        invariant forall a :: a in actions <==> a.link in peers[p] && a.link !in todo && Announces(infos, a, p, Elems(ks))
        decreases todo
      {
        var id :| id in todo;
        todo := todo - {id};
        var batch: seq<Action> := [];
        for i := 0 to |ks|
          invariant forall a :: a in batch <==> a.link == id && Announces(infos, a, p, Elems(ks[..i]))
        {
          assert Elems(ks[..i + 1]) == Elems(ks[..i]) + {ks[i]};
          if ks[i] in infos {
            batch := batch + [SendAnnounce(p, id, Announce(ks[i], infos[ks[i]]))];
          }
        }
        assert ks[..|ks|] == ks;
        actions := actions + batch;
      }
    }

    /** Tell one peer what it has not been told of our ancestry and its own. */
    method TellPeer(p: Key, selfAnc: seq<Key>) returns (actions: seq<Action>)
      requires p in sent && Elems(selfAnc) == Elems(Ancestors(infos, crypto.self))
      modifies this`sent, this`exchanged
      ensures sent == old(sent)[p := old(sent)[p] + News(crypto.self, infos, p, old(sent)[p])]
      ensures exchanged == Record(old(exchanged), infos, p, News(crypto.self, infos, p, old(sent)[p]))
      ensures forall a :: a in actions <==>
                p in peers && a.link in peers[p] && Announces(infos, a, p, News(crypto.self, infos, p, old(sent)[p]))
    {
      ghost var news := News(crypto.self, infos, p, sent[p]);
      var peerAnc := GetAncestry(infos, p);
      var told1, added1 := Tell(selfAnc, sent[p]);
      var told2, added2 := Tell(peerAnc, told1);
      assert Elems(added1 + added2) == Elems(added1) + Elems(added2);
      assert Elems(added1 + added2) == news && told2 == sent[p] + news;
      actions := AnnounceTo(p, added1 + added2);
      sent := sent[p := told2];
      exchanged := Record(exchanged, infos, p, news);
    }

    method SendAnnounces() returns (actions: seq<Action>)
      modifies this`sent, this`exchanged
      ensures var s := RouterSpec.SendAnnounces(crypto, old(St()));
              sent == s.sent && exchanged == s.exchanged
      ensures forall a :: a in actions <==> Tells(crypto.self, infos, peers, old(sent), a)
    {
      ghost var sent0, exchanged0 := sent, exchanged;
      var selfAnc := GetAncestry(infos, crypto.self);
      actions := [];
      var todo := sent.Keys;
      while todo != {}
        invariant forall p :: p in todo ==> p in sent0
        invariant forall p :: ToldUnless(todo, crypto.self, infos, sent0, exchanged0, sent, exchanged, p)
        invariant forall a :: a in actions <==> a.to !in todo && Tells(crypto.self, infos, peers, sent0, a)
        decreases todo
      {
        var p :| p in todo;
        ToldNext(todo, crypto.self, infos, sent0, exchanged0, sent, exchanged, p);
        var batch := TellPeer(p, selfAnc);
        todo := todo - {p};
        actions := actions + batch;
      }
      ToldAll(todo, crypto.self, infos, sent0, exchanged0, sent, exchanged);
    }

    // The three stages of a maintenance pass, as transitions of the whole state.

    method Prepare(due: bool)
      modifies this`refresh, this`doRoot2, this`cache
      ensures St() == RouterSpec.Prepare(old(St()), due)
    {
      if due {
        refresh := true;
      }
      doRoot2 := doRoot2 || doRoot1;
      cache := map[];
    }

    method FixPosition(nonce: U64, nonces: Key -> U64, now: nat) returns (actions: seq<Action>, ghost root: Key, ghost parent: Key)
      requires Answered(St())
      modifies this
      ensures Selected(crypto, old(St()), root, parent)
      ensures St() == FixWith(crypto, old(St()), root, parent, nonce, nonces, now)
      ensures forall a :: a in actions <==>
                RouterSpec.Decide(crypto, old(St()), root, parent, nonce).Adopt? && Asks(peers, requests, a)
    {
      var r, p, reqs := Fix(nonce, nonces, now);
      root, parent, actions := r, p, reqs;
      EnactFrame(crypto, old(St()), RouterSpec.Decide(crypto, old(St()), root, parent, nonce), nonces, now);
      assert St() == FixWith(crypto, old(St()), root, parent, nonce, nonces, now);
    }

    method Gossip() returns (actions: seq<Action>)
      modifies this`sent, this`exchanged
      ensures St() == RouterSpec.SendAnnounces(crypto, old(St()))
      ensures forall a :: a in actions <==> Tells(crypto.self, infos, peers, old(sent), a)
    {
      actions := SendAnnounces();
    }

    /** The tree protocol's part of a maintenance pass. */
    method DoMaintenance(due: bool, nonce: U64, nonces: Key -> U64, now: nat)
      returns (actions: seq<Action>, ghost root: Key, ghost parent: Key)
      requires Valid()
      modifies this
      ensures Valid() && Step(crypto, old(St()), Maintenance(due, nonce, nonces, now), St())
      ensures var s := RouterSpec.Prepare(old(St()), due);
              var fixed := FixWith(crypto, s, root, parent, nonce, nonces, now);
              && Selected(crypto, s, root, parent) && St() == RouterSpec.SendAnnounces(crypto, fixed)
              && forall a :: a in actions <==> PassSends(crypto, s, root, parent, nonce, fixed, a)
    {
      ghost var first := St();
      Prepare(due);
      var reqs;
      reqs, root, parent := FixPosition(nonce, nonces, now);
      var news := Gossip();
      actions := reqs + news;
      MaintenanceKeeps(crypto, first, St(), due, nonce, nonces, now);
    }

    method ForceRefresh()
      requires Valid()
      modifies this`refresh, this`doRoot1, this`doRoot2
      ensures Valid() && Step(crypto, old(St()), Event.ForceRefresh, St())
    {
      refresh, doRoot1, doRoot2 := true, true, true;
      StepKeeps(crypto, old(St()), Event.ForceRefresh, St());
    }

    // -------------------------------------------------------------------------
    // Coordinates and forwarding
    // -------------------------------------------------------------------------

    ghost function Sees(): View
      reads this
    {
      View(crypto.self, infos, peers, lags)
    }

    method CachedRootAndPath(k: Key) returns (r: RouterPath)
      requires CacheExact(infos, cache)
      modifies this`cache
      ensures r == PathOf(infos, k)
      ensures Step(crypto, old(St()), CoordsRead(k), St()) && CacheExact(infos, cache)
    {
      if k !in cache {
        var root, path := GetRootAndPath(infos, k);
        cache := cache[k := RouterPath(root, path)];
      }
      r := cache[k];
      assert cache == old(cache)[k := PathOf(infos, k)];
    }

    method GetDist(path: seq<Port>, k: Key) returns (dist: nat)
      requires CacheExact(infos, cache)
      modifies this`cache
      ensures dist == DistFrom(infos, crypto.self, path, k)
      ensures CacheExact(infos, cache)
    {
      var own := CachedRootAndPath(crypto.self);
      var r := CachedRootAndPath(k);
      SelfParentTestExact(infos, k);
      if r.root !in infos || infos[r.root].parent != r.root {
        return U64_MAX;
      }
      RootTestExact(infos, crypto.self, k);
      if r.root != own.root {
        return U64_MAX;
      }
      var end := if |path| < |r.path| then |path| else |r.path|;
      dist := |r.path| + |path|;
      var i := 0;
      while i < end
        invariant i <= end && dist == |r.path| + |path| - 2 * i
        invariant forall j :: 0 <= j < i ==> r.path[j] == path[j]
      {
        if r.path[i] != path[i] {
          break;
        }
        dist := dist - 2;
        i := i + 1;
      }
      CommonIs(r.path, path, i);
    }

    /** The links to one peer, in some order. */
    method LinksTo(k: Key) returns (links: seq<Entry>)
      requires LinksExact(peers) && k in peers
      ensures NoDup(links) && forall e :: e in links <==> e.key == k && IsLink(peers, e)
    {
      links := [];
      var todo := peers[k].Keys;
      while todo != {}
        invariant forall id :: id in todo ==> id in peers[k]
        invariant NoDup(links) && forall e :: e in links <==> e.key == k && IsLink(peers, e) && e.id !in todo
        decreases todo
      {
        var id :| id in todo;
        assert peers[k][id].key == k && peers[k][id].id == id;
        links := links + [peers[k][id]];
        todo := todo - {id};
      }
    }

    /** The links to a peer, if it is closer to the target than `own`. */
    method CandidatesAt(path: seq<Port>, own: nat, k: Key) returns (links: seq<Entry>)
      requires LinksExact(peers) && CacheExact(infos, cache) && k in peers
      modifies this`cache
      ensures CacheExact(infos, cache) && NoDup(links)
      ensures forall e :: e in links <==> e.key == k && IsLink(peers, e) && DistFrom(infos, crypto.self, path, k) < own
    {
      links := [];
      var dist := GetDist(path, k);
      if dist < own {
        links := LinksTo(k);
      }
    }

    /** The links to peers closer to the target than `own`. */
    method Candidates(path: seq<Port>, own: nat) returns (links: seq<Entry>)
      requires LinksExact(peers) && CacheExact(infos, cache)
      requires own == DistFrom(infos, crypto.self, path, crypto.self)
      modifies this`cache
      ensures CacheExact(infos, cache)
      ensures Enumerates(links, Closer(Sees(), path))
    {
      links := [];
      ghost var near := iset k | DistFrom(infos, crypto.self, path, k) < own;
      var todo := peers.Keys;
      while todo != {}
        invariant CacheExact(infos, cache)
        invariant forall k :: k in todo ==> k in peers
        invariant NoDup(links)
        invariant forall e :: e in links <==> IsLink(peers, e) && e.key !in todo && e.key in near
        decreases todo
      {
        var k :| k in todo;
        var more := CandidatesAt(path, own, k);
        AppendDistinct(links, more);
        links := links + more;
        todo := todo - {k};
      }
      EnumeratesCloser(Sees(), path, links);
    }

    /** Greedy next hop: the best of the links to closer peers, if we are closer than the message
        has been so far. */
    method Lookup(path: seq<Port>, watermark: nat) returns (best: Option<Entry>, watermark': nat)
      requires LinksExact(peers) && CacheExact(infos, cache)
      modifies this`cache
      ensures CacheExact(infos, cache)
      ensures LookupResult(Sees(), path, watermark, best, watermark')
    {
      var own := GetDist(path, crypto.self);
      if own >= watermark {
        return None, watermark;
      }
      watermark' := own;
      var links := Candidates(path, own);
      best := None;
      var bestDist := U64_MAX;
      ghost var v := Sees();
      for i := 0 to |links|
        invariant CacheExact(infos, cache) && v == Sees()
        invariant best == Scan(v, path, links[..i])
        invariant best.Some? ==> bestDist == DistOf(v, path, best.value.key)
      {
        var p := links[i];
        var dist := GetDist(path, p.key);
        assert links[..i + 1][..i] == links[..i];
        if best.None? || Replaces(lags, p, dist, best.value, bestDist) {
          best, bestDist := Some(p), dist;
        }
      }
      assert links[..|links|] == links;
    }

    /** Forwarding of traffic and of path notifications (meant for their destination) and of
        broken-path reports (meant for the traffic's source). */
    method Route(path: seq<Port>, target: Key, watermark: nat) returns (out: Outcome)
      requires Valid()
      modifies this`cache
      ensures Valid() && St() == old(St()).(cache := cache)
      ensures RouteResult(Sees(), path, target, watermark, out)
    {
      var next, watermark' := Lookup(path, watermark);
      CacheKeeps(crypto, old(St()), cache);
      assert St() == old(St()).(cache := cache);
      match next
      case Some(e) => out := Forward(e, watermark');
      case None => out := if target == crypto.self then Arrived else Lost;
    }
  }
}
