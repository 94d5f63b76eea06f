/** When a refresh makes a node leave its parent for another way to the same root. */
module Switching {
  import opened Basics
  import opened Tree
  import opened RouterSpec
  import opened RouterRuns
  import opened ParentChoice
  import opened Joining
  import Forwarding

  /** What a way of `hops` hops costs over link `id`: hops times milliseconds, as far as 64 bits reach. */
  ghost function Toll(s: State, id: PeerId, hops: nat): int {
    Min(U64_MAX, hops * Forwarding.Millis(s.lags, id))
  }

  /** Some link to `p` makes a way of `hops` hops cost no more than `n`. */
  ghost predicate Within(s: State, p: Key, hops: nat, n: int) {
    p in s.peers && exists id :: id in s.peers[p] && Toll(s, id, hops) <= n
  }

  /** The cost of a way is that of its cheapest link. */
  lemma LinkCostIs(s: State, p: Key, hops: nat, n: int)
    requires LinksExact(s.peers) && p in s.peers
    ensures LinkCost(s.lags, s.peers[p], hops) <= n <==> Within(s, p, hops, n)
  {
    var links := s.peers[p];
    var cost := LinkCost(s.lags, links, hops);
    forall id | id in links
      ensures SatMul(hops, LinkLatency(s.lags, links[id].id)) == Toll(s, id, hops)
    {
      SatMulIsProduct(hops, LinkLatency(s.lags, id));
    }
    if cost <= n {
      var id :| id in links && (cost == U64_MAX || cost == SatMul(hops, LinkLatency(s.lags, links[id].id)));
      assert Toll(s, id, hops) <= n;
    }
    if Within(s, p, hops, n) {
      var id :| id in links && Toll(s, id, hops) <= n;
      assert cost <= SatMul(hops, LinkLatency(s.lags, links[id].id));
    }
  }

  /** The hops from us to the root by way of `p`. */
  ghost function Hops(s: State, p: Key): nat
    requires Rooted(s.infos, p)
  {
    |ChainOf(s.infos, p)|
  }

  /** No cost is doubled past 64 bits. */
  ghost predicate Unwrapped(c: Crypto, s: State) {
    forall p :: Offer(c, s, p) ==> Within(s, p, Hops(s, p), U64_MAX / 2)
  }

  lemma OfferIsCandidate(c: Crypto, s: State, p: Key)
    requires Shape(s)
    ensures Offer(c, s, p) <==> Candidate(c, s, p)
    ensures Offer(c, s, p) ==> p in s.peers && CandidateCost(c, s, p) == LinkCost(s.lags, s.peers[p], Hops(s, p))
  {
    if Offer(c, s, p) {
      assert ChainOf(s.infos, p)[0] == p;
    }
  }

  lemma UnwrappedIs(c: Crypto, s: State)
    requires Shape(s) && Unwrapped(c, s)
    ensures NoWrap(c, s)
  {
    forall p | Candidate(c, s, p)
      ensures CandidateCost(c, s, p) * 2 <= U64_MAX
    {
      OfferIsCandidate(c, s, p);
      LinkCostIs(s, p, Hops(s, p), U64_MAX / 2);
    }
  }

  /** Our own way costs more than `n`, over every link to our parent. */
  ghost predicate Dearer(c: Crypto, s: State, n: int)
    requires Placed(c, s)
  {
    !Within(s, s.infos[c.self].parent, Hops(s, c.self) - 1, n)
  }

  lemma CurrentCostIs(c: Crypto, s: State)
    requires Shape(s) && Placed(c, s)
    ensures CurrentValid(c, s) && forall n: int :: CurrentCost(c, s) <= n <==> !Dearer(c, s, n)
  {
    forall n: int
      ensures CurrentCost(c, s) <= n <==> !Dearer(c, s, n)
    {
      LinkCostIs(s, s.infos[c.self].parent, Hops(s, c.self) - 1, n);
    }
  }

  /** Offer `p` leads to `root` at a cost within `n`. */
  ghost predicate Costs(c: Crypto, s: State, root: Key, p: Key, n: nat) {
    Offer(c, s, p) && RootOf(s.infos, p) == root && Within(s, p, Hops(s, p), n)
  }

  lemma CostsIs(c: Crypto, s: State, root: Key, p: Key, n: nat)
    requires Shape(s)
    ensures Costs(c, s, root, p, n) <==> Rival(c, s, s.responses.Keys, root, p) && CandidateCost(c, s, p) <= n
  {
    OfferIsCandidate(c, s, p);
    if Offer(c, s, p) {
      LinkCostIs(s, p, Hops(s, p), n);
    }
  }

  /** Which way to a root is taken: one that costs less than half of our own, and no more than any other. */
  ghost predicate Leaves(c: Crypto, s: State, root: Key, parent: Key)
    requires Placed(c, s)
  {
    && (exists n: nat :: Costs(c, s, root, parent, n) && Dearer(c, s, 2 * n))
    && forall p, n: nat :: Costs(c, s, root, p, n) ==> Costs(c, s, root, parent, n)
  }

  /** No way to the root costs less than half of our own. */
  ghost predicate Keeps(c: Crypto, s: State, root: Key)
    requires Placed(c, s)
  {
    forall p, n: nat :: Costs(c, s, root, p, n) ==> !Dearer(c, s, 2 * n)
  }

  lemma BestLeaves(c: Crypto, s: State, root: Key, parent: Key, cost: U64)
    requires Shape(s) && Placed(c, s) && NoWrap(c, s) && Best(c, s, s.responses.Keys, root, parent, cost)
    requires root == OwnRoot(c, s) && parent != s.infos[c.self].parent && Rival(c, s, s.responses.Keys, root, parent)
    requires cost == CandidateCost(c, s, parent)
    ensures Leaves(c, s, root, parent)
  {
    CurrentCostIs(c, s);
    CostsIs(c, s, root, parent, cost);
    assert Costs(c, s, root, parent, cost) && Dearer(c, s, 2 * cost);
    forall p, n: nat | Costs(c, s, root, p, n)
      ensures Costs(c, s, root, parent, n)
    {
      CostsIs(c, s, root, p, n);
      CostsIs(c, s, root, parent, n);
    }
  }

  lemma BestKeeps(c: Crypto, s: State, root: Key, parent: Key, cost: U64)
    requires Shape(s) && Placed(c, s) && NoWrap(c, s) && s.refresh && Best(c, s, s.responses.Keys, root, parent, cost)
    requires root == OwnRoot(c, s) && parent == s.infos[c.self].parent && cost == CurrentCost(c, s)
    ensures Keeps(c, s, root)
  {
    CurrentCostIs(c, s);
    forall p, n: nat | Costs(c, s, root, p, n)
      ensures !Dearer(c, s, 2 * n)
    {
      CostsIs(c, s, root, p, n);
    }
  }

  lemma BestCost(c: Crypto, s: State, root: Key, parent: Key, cost: U64)
    requires Shape(s) && Placed(c, s) && Best(c, s, s.responses.Keys, root, parent, cost) && root == OwnRoot(c, s)
    ensures CurrentValid(c, s)
    ensures parent == s.infos[c.self].parent ==> cost == CurrentCost(c, s)
    ensures parent != s.infos[c.self].parent ==> Rival(c, s, s.responses.Keys, root, parent) && cost == CandidateCost(c, s, parent)
  {
    if parent == s.infos[c.self].parent && Candidate(c, s, parent) {
      RootedParent(s.infos, c.self);
      CurrentAsCandidate(c, s);
    }
  }

  /** On a refresh with no better root on offer: a way to our root that costs less than half of our own is taken, the
      cheapest there is; and without one we stay. */
  lemma SelectedSwitches(c: Crypto, s: State, root: Key, parent: Key)
    requires Shape(s) && Selected(c, s, root, parent) && NothingBetter(c, s) && Placed(c, s) && Unwrapped(c, s) && s.refresh
    ensures root == OwnRoot(c, s)
    ensures if parent == s.infos[c.self].parent then Keeps(c, s, root) else Leaves(c, s, root, parent)
  {
    var cost: U64 :| Best(c, s, s.responses.Keys, root, parent, cost);
    SelectedIs(c, s, root, parent);
    SelectedOrigin(c, s, root, parent);
    UnwrappedIs(c, s);
    BestCost(c, s, root, parent, cost);
    if parent == s.infos[c.self].parent {
      BestKeeps(c, s, root, parent, cost);
    } else {
      BestLeaves(c, s, root, parent, cost);
    }
  }

  lemma DueSwitches(c: Crypto, s: State, due: bool)
    requires Shape(s) && NothingBetter(c, s) && Placed(c, s) && Unwrapped(c, s) && Fresh(c, s)
    ensures var d := Due(s, due);
            Shape(d) && NothingBetter(c, d) && Placed(c, d) && Unwrapped(c, d) && Fresh(c, d) && OwnRoot(c, d) == OwnRoot(c, s)
  {
    var d := Due(s, due);
    assert OwnRoot(c, d) == OwnRoot(c, s);
    assert forall q :: Offer(c, d, q) <==> Offer(c, s, q);
    assert forall q, h, n :: Within(d, q, h, n) <==> Within(s, q, h, n);
  }

  lemma SameCosts(c: Crypto, s: State, due: bool, root: Key, parent: Key)
    requires Placed(c, s) && Placed(c, Due(s, due))
    ensures Leaves(c, Due(s, due), root, parent) ==> Leaves(c, s, root, parent)
    ensures Keeps(c, Due(s, due), root) ==> Keeps(c, s, root)
  {
    var d := Due(s, due);
    assert forall q, h, n :: Within(d, q, h, n) <==> Within(s, q, h, n);
    assert forall p, n: nat :: Costs(c, d, root, p, n) <==> Costs(c, s, root, p, n);
  }

  lemma KeepsOrLeaves(c: Crypto, s: State, root: Key, parent: Key)
    requires Placed(c, s)
    ensures Leaves(c, s, root, parent) ==> !Keeps(c, s, root) && Offer(c, s, parent) && RootOf(s.infos, parent) == root
  {
  }

  /** Our parent after a refresh. */
  ghost predicate Refreshes(c: Crypto, s: State, infos': Infos)
    requires Placed(c, s)
  {
    && c.self in infos'
    && var was, parent, root := s.infos[c.self].parent, infos'[c.self].parent, OwnRoot(c, s);
       if !Keeps(c, s, root) then Leaves(c, s, root, parent)
       else parent == was || (parent == c.self && was !in s.responses)
  }

  lemma OutcomeRefreshes(c: Crypto, s: State, s': State, root: Key, parent: Key)
    requires Shape(s) && Selected(c, s, root, parent) && Outcome(c, s, s', root, parent) && Fresh(c, s)
    requires Placed(c, s) && NothingBetter(c, s) && Unwrapped(c, s) && s.refresh
    ensures Refreshes(c, s, s'.infos)
  {
    SelectedSwitches(c, s, root, parent);
    KeepsOrLeaves(c, s, root, parent);
  }

  lemma DueRefreshes(c: Crypto, s: State, due: bool, infos': Infos)
    requires Placed(c, s) && Placed(c, Due(s, due)) && OwnRoot(c, Due(s, due)) == OwnRoot(c, s)
    requires Refreshes(c, Due(s, due), infos')
    ensures Refreshes(c, s, infos')
  {
    SameCosts(c, s, due, OwnRoot(c, s), infos'[c.self].parent);
    KeepsOrLeaves(c, Due(s, due), OwnRoot(c, s), infos'[c.self].parent);
    KeepsOrLeaves(c, s, OwnRoot(c, s), infos'[c.self].parent);
  }

  /** A pass on a refresh, with fresh offers and no better root: our parent afterwards is the cheapest on offer for our
      root if that costs less than half of our own way, and otherwise our parent, or ourselves if it has not signed. */
  lemma PassSwitches(c: Crypto, s: State, s': State, due: bool, nonce: U64, nonces: Key -> U64, now: nat)
    requires Inv(c, s) && SeqRoom(c, s) && Maintain(c, s, s', due, nonce, nonces, now) && Fresh(c, s)
    requires Placed(c, s) && NothingBetter(c, s) && Unwrapped(c, s) && (s.refresh || due)
    ensures Refreshes(c, s, s'.infos)
  {
    var root, parent, u := MaintenanceOutcome(c, s, s', due, nonce, nonces, now);
    DueSwitches(c, s, due);
    OutcomeRefreshes(c, Due(s, due), u, root, parent);
    DueRefreshes(c, s, due, u.infos);
  }
}
