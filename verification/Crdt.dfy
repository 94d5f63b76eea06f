/** The announcement CRDT: delivery order and duplication do not matter. */
module Crdt {
  import opened Basics
  import opened Tree
  import opened RouterSpec

  ghost predicate SameRank(x: Info, y: Info) {
    x.seqno == y.seqno && x.parent == y.parent && x.nonce == y.nonce
  }

  /** `x` ranks no lower than `y`: the larger sequence number comes first, then the smaller parent, then the
      smaller nonce. */
  ghost predicate AtLeast(x: Info, y: Info) {
    && y.seqno <= x.seqno
    && (y.seqno == x.seqno ==> x.parent <= y.parent)
    && (y.seqno == x.seqno && y.parent == x.parent ==> x.nonce <= y.nonce)
  }

  /** What one announcement does: of the stored and the announced information about a node the one of higher
      rank is kept, and the stored one if they tie; other nodes are left alone. */
  lemma UpdateKeepsHigher(s: State, ann: Announce, now: nat, k: Key)
    ensures var s' := Update(s, ann, now);
            && ann.key in s'.infos && AtLeast(s'.infos[ann.key], ann.info)
            && (ann.key !in s.infos ==> s'.infos[ann.key] == ann.info)
            && (ann.key in s.infos ==>
                  var was, kept := s.infos[ann.key], s'.infos[ann.key];
                  AtLeast(kept, was) && (kept == was || kept == ann.info) && (SameRank(was, ann.info) ==> kept == was))
            && (k != ann.key ==> (k in s'.infos <==> k in s.infos) && (k in s.infos ==> s'.infos[k] == s.infos[k]))
  {
  }

  /** The fold below is what a series of updates stores. */
  lemma UpdateFolds(s: State, ann: Announce, now: nat)
    ensures Update(s, ann, now).infos == Fold(s.infos, [ann])
  {
    assert Fold(s.infos, [ann][..0]) == s.infos;
  }

  /** Receiving announcements one after the other, without expiry. */
  ghost function Fold(infos: Infos, anns: seq<Announce>): Infos {
    if anns == [] then infos
    else
      var before := Fold(infos, anns[..|anns| - 1]);
      var ann := Last(anns);
      if Accepts(before, ann) then before[ann.key := ann.info] else before
  }

  /** What is stored was received: the largest sequence number, with the smallest parent received under it, with
      the smallest nonce received under both. */
  lemma {:induction false} FoldIsMaximum(anns: seq<Announce>, k: Key)
    ensures k in Fold(map[], anns) <==> exists ann :: ann in anns && ann.key == k
    ensures k in Fold(map[], anns) ==> Announce(k, Fold(map[], anns)[k]) in anns
    ensures forall ann :: ann in anns && ann.key == k ==>
              var kept := Fold(map[], anns)[k];
              && ann.info.seqno <= kept.seqno
              && (ann.info.seqno == kept.seqno ==> kept.parent <= ann.info.parent)
              && (ann.info.seqno == kept.seqno && ann.info.parent == kept.parent ==> kept.nonce <= ann.info.nonce)
  {
    if anns == [] {
    } else {
      var init, last := anns[..|anns| - 1], Last(anns);
      assert anns == init + [last];
      FoldIsMaximum(init, k);
    }
  }

  /** Two nodes that received the same announcements, in whatever order and however often,
      store the same rank for every node. */
  lemma Convergence(a: seq<Announce>, b: seq<Announce>)
    requires forall ann :: ann in a <==> ann in b
    ensures Fold(map[], a).Keys == Fold(map[], b).Keys
    ensures forall k :: k in Fold(map[], a) ==> SameRank(Fold(map[], a)[k], Fold(map[], b)[k])
  {
    forall k
      ensures k in Fold(map[], a) <==> k in Fold(map[], b)
      ensures k in Fold(map[], a) ==> SameRank(Fold(map[], a)[k], Fold(map[], b)[k])
    {
      FoldIsMaximum(a, k);
      FoldIsMaximum(b, k);
    }
  }

  /** An announcement is answered exactly when something different and of no lower rank is stored, and then with
      that. */
  lemma ReplyDominates(s: State, ann: Announce)
    ensures Reply(s, ann).Some? <==>
              ann.key in s.infos && s.infos[ann.key] != ann.info && AtLeast(s.infos[ann.key], ann.info)
    ensures Reply(s, ann).Some? ==> Reply(s, ann).value == Announce(ann.key, s.infos[ann.key])
  {
  }

  /** After one exchange the two sides are level: the receiver is at least as new as the sender's
      announcement, and the sender, having handled the reply if there was one, as the receiver. */
  lemma ExchangeLevels(c: Crypto, d: Crypto, sender: State, receiver: State, from: Key, to: Key, k: Key, now: nat)
    requires k in sender.infos
    ensures var ann := Announce(k, sender.infos[k]);
            var receiver' := HandleAnnounce(d, receiver, from, ann, now);
            var sender' := match Reply(receiver, ann)
                           case Some(r) => HandleAnnounce(c, sender, to, r, now)
                           case None => sender;
            && k in receiver'.infos && k in sender'.infos
            && SameRank(sender'.infos[k], receiver'.infos[k])
            && AtLeast(receiver'.infos[k], sender.infos[k])
  {
  }
}
