/** Parent selection visits the candidates in an arbitrary order; each visit keeps the choice best. */
module ParentChoice {
  import opened Basics
  import opened Tree
  import opened RouterSpec

  datatype Choice = Choice(root: Key, parent: Key, cost: U64)

  /** The choice after visiting candidate `p`, which leads to `root` at `cost`. */
  function Consider(refresh: bool, current: Key, best: Choice, p: Key, root: Key, cost: U64): Choice {
    var b := if root < best.root then Choice(root, p, cost) else best;
    if root == b.root && ((refresh && Double(cost) < b.cost) || (b.parent != current && cost < b.cost))
    then Choice(root, p, cost)
    else b
  }

  /** If the present parent is a candidate with a root below us, staying is the same choice. */
  lemma CurrentAsCandidate(c: Crypto, s: State)
    requires Answered(s) && Candidate(c, s, CurrentParent(c, s)) && RootOf(s.infos, CurrentParent(c, s)) < c.self
    ensures CurrentValid(c, s) && CurrentParent(c, s) != c.self
    ensures RootOf(s.infos, c.self) == RootOf(s.infos, CurrentParent(c, s))
    ensures CurrentCost(c, s) == CandidateCost(c, s, CurrentParent(c, s))
  {
    var p := CurrentParent(c, s);
    assert ChainOf(s.infos, p)[0] in ChainOf(s.infos, p);
    RootedBelow(s.infos, c.self);
  }

  /** A candidate never leads to ourselves as root. */
  lemma CandidateRoot(c: Crypto, s: State, p: Key)
    requires Candidate(c, s, p)
    ensures RootOf(s.infos, p) != c.self
  {
    assert RootOf(s.infos, p) in ChainOf(s.infos, p);
  }

  lemma ConsiderOffered(c: Crypto, s: State, seen: set<Key>, b: Choice, p: Key)
    requires Candidate(c, s, p) && Offered(c, s, seen, b.root, b.parent, b.cost) && b.root <= c.self
    ensures var b' := Consider(s.refresh, CurrentParent(c, s), b, p, RootOf(s.infos, p), CandidateCost(c, s, p));
            Offered(c, s, seen + {p}, b'.root, b'.parent, b'.cost)
  {
    CandidateRoot(c, s, p);
  }

  lemma ConsiderSmallest(c: Crypto, s: State, seen: set<Key>, b: Choice, p: Key)
    requires Candidate(c, s, p) && Smallest(c, s, seen, b.root)
    ensures var b' := Consider(s.refresh, CurrentParent(c, s), b, p, RootOf(s.infos, p), CandidateCost(c, s, p));
            Smallest(c, s, seen + {p}, b'.root)
  {
  }

  lemma WinArithmetic(refresh: bool, moved: bool, win: U64, best: U64, rival: U64)
    requires (refresh && Double(win) < best) || (moved && win < best)
    requires win * 2 <= U64_MAX || !refresh
    ensures moved && best <= rival ==> win <= rival
    ensures !moved && best <= rival * 2 ==> win <= rival
    ensures !moved ==> win * 2 < best
    ensures moved ==> win <= best
  {
  }

  /** Without wrap-around, a winner costs no more than any way to the same root seen before, and
      less than half of staying. */
  lemma WinnerCheapest(c: Crypto, s: State, seen: set<Key>, b: Choice, p: Key, q: Key)
    requires Answered(s) && Candidate(c, s, p) && Best(c, s, seen, b.root, b.parent, b.cost) && b.root < c.self
    requires NoWrap(c, s) || !s.refresh
    requires || (s.refresh && Double(CandidateCost(c, s, p)) < b.cost)
             || (b.parent != CurrentParent(c, s) && CandidateCost(c, s, p) < b.cost)
    requires Rival(c, s, seen, b.root, q)
    ensures CandidateCost(c, s, p) <= CandidateCost(c, s, q)
  {
    var moved := b.parent != CurrentParent(c, s);
    WinArithmetic(s.refresh, moved, CandidateCost(c, s, p), b.cost, CandidateCost(c, s, q));
    if !moved && Candidate(c, s, b.parent) && RootOf(s.infos, b.parent) < c.self {
      CurrentAsCandidate(c, s);
    }
  }

  lemma WinnerHalves(c: Crypto, s: State, seen: set<Key>, b: Choice, p: Key)
    requires Answered(s) && Candidate(c, s, p) && Best(c, s, seen, b.root, b.parent, b.cost) && NoWrap(c, s)
    requires CurrentValid(c, s) && b.root == RootOf(s.infos, c.self)
    requires || (s.refresh && Double(CandidateCost(c, s, p)) < b.cost)
             || (b.parent != CurrentParent(c, s) && CandidateCost(c, s, p) < b.cost)
    ensures CandidateCost(c, s, p) * 2 < CurrentCost(c, s)
  {
    var moved := b.parent != CurrentParent(c, s);
    WinArithmetic(s.refresh, moved, CandidateCost(c, s, p), b.cost, 0);
    if !moved && Candidate(c, s, b.parent) && RootOf(s.infos, b.parent) < c.self {
      CurrentAsCandidate(c, s);
    }
  }

  /** A candidate with a larger root changes nothing. */
  lemma LoyalAbove(c: Crypto, s: State, seen: set<Key>, b: Choice, p: Key)
    requires Candidate(c, s, p) && Loyal(c, s, seen, b.root, b.parent, b.cost) && RootOf(s.infos, p) > b.root
    ensures Loyal(c, s, seen + {p}, b.root, b.parent, b.cost)
  {
    assert forall q :: Rival(c, s, seen + {p}, b.root, q) ==> Rival(c, s, seen, b.root, q);
  }

  /** A candidate with a smaller root is the only way to it so far. */
  lemma LoyalBelow(c: Crypto, s: State, seen: set<Key>, b: Choice, p: Key)
    requires Candidate(c, s, p) && Smallest(c, s, seen, b.root) && RootOf(s.infos, p) < b.root
    ensures Loyal(c, s, seen + {p}, RootOf(s.infos, p), p, CandidateCost(c, s, p))
  {
    var root := RootOf(s.infos, p);
    assert forall q :: Rival(c, s, seen + {p}, root, q) ==> q == p;
  }

  /** A candidate with the same root that does not win. */
  lemma LoyalKeeps(c: Crypto, s: State, seen: set<Key>, b: Choice, p: Key)
    requires Candidate(c, s, p) && Loyal(c, s, seen, b.root, b.parent, b.cost)
    requires !(s.refresh && Double(CandidateCost(c, s, p)) < b.cost)
    requires !(b.parent != CurrentParent(c, s) && CandidateCost(c, s, p) < b.cost)
    ensures Loyal(c, s, seen + {p}, b.root, b.parent, b.cost)
  {
    assert forall q :: Rival(c, s, seen + {p}, b.root, q) ==> q == p || Rival(c, s, seen, b.root, q);
  }

  lemma WinnerAgainstAll(c: Crypto, s: State, seen: set<Key>, b: Choice, p: Key)
    requires Answered(s) && Candidate(c, s, p) && Best(c, s, seen, b.root, b.parent, b.cost) && RootOf(s.infos, p) == b.root
    requires NoWrap(c, s) || !s.refresh
    requires || (s.refresh && Double(CandidateCost(c, s, p)) < b.cost)
             || (b.parent != CurrentParent(c, s) && CandidateCost(c, s, p) < b.cost)
    ensures forall q :: Rival(c, s, seen + {p}, b.root, q) ==> CandidateCost(c, s, p) <= CandidateCost(c, s, q)
  {
    CandidateRoot(c, s, p);
    forall q | Rival(c, s, seen + {p}, b.root, q)
      ensures CandidateCost(c, s, p) <= CandidateCost(c, s, q)
    {
      if q != p {
        WinnerCheapest(c, s, seen, b, p, q);
      }
    }
  }

  /** A candidate with the same root that wins. */
  lemma LoyalSwitches(c: Crypto, s: State, seen: set<Key>, b: Choice, p: Key)
    requires Answered(s) && Candidate(c, s, p) && Best(c, s, seen, b.root, b.parent, b.cost) && RootOf(s.infos, p) == b.root
    requires || (s.refresh && Double(CandidateCost(c, s, p)) < b.cost)
             || (b.parent != CurrentParent(c, s) && CandidateCost(c, s, p) < b.cost)
    ensures Loyal(c, s, seen + {p}, b.root, p, CandidateCost(c, s, p))
  {
    if NoWrap(c, s) || !s.refresh {
      WinnerAgainstAll(c, s, seen, b, p);
    }
    if CurrentValid(c, s) && b.root == RootOf(s.infos, c.self) && NoWrap(c, s) {
      WinnerHalves(c, s, seen, b, p);
    }
  }

  lemma ConsiderKeepsBest(c: Crypto, s: State, seen: set<Key>, b: Choice, p: Key)
    requires Answered(s) && Candidate(c, s, p) && Best(c, s, seen, b.root, b.parent, b.cost)
    ensures var b' := Consider(s.refresh, CurrentParent(c, s), b, p, RootOf(s.infos, p), CandidateCost(c, s, p));
            Best(c, s, seen + {p}, b'.root, b'.parent, b'.cost)
  {
    ConsiderOffered(c, s, seen, b, p);
    ConsiderSmallest(c, s, seen, b, p);
    var root, cost := RootOf(s.infos, p), CandidateCost(c, s, p);
    if root > b.root {
      LoyalAbove(c, s, seen, b, p);
    } else if root < b.root {
      LoyalBelow(c, s, seen, b, p);
    } else if (s.refresh && Double(cost) < b.cost) || (b.parent != CurrentParent(c, s) && cost < b.cost) {
      LoyalSwitches(c, s, seen, b, p);
    } else {
      LoyalKeeps(c, s, seen, b, p);
    }
  }

  lemma SkipKeepsBest(c: Crypto, s: State, seen: set<Key>, b: Choice, p: Key)
    requires !Candidate(c, s, p) && Best(c, s, seen, b.root, b.parent, b.cost)
    ensures Best(c, s, seen + {p}, b.root, b.parent, b.cost)
  {
    assert forall q :: Rival(c, s, seen + {p}, b.root, q) ==> Rival(c, s, seen, b.root, q);
  }

  lemma StartIsBest(c: Crypto, s: State)
    ensures CurrentValid(c, s) ==> Best(c, s, {}, RootOf(s.infos, c.self), CurrentParent(c, s), CurrentCost(c, s))
    ensures !CurrentValid(c, s) ==> Best(c, s, {}, c.self, c.self, U64_MAX)
  {
  }

  /** The selected root does not depend on the order in which the candidates are visited. */
  lemma SelectedRootUnique(c: Crypto, s: State, root1: Key, parent1: Key, root2: Key, parent2: Key)
    requires Selected(c, s, root1, parent1) && Selected(c, s, root2, parent2)
    ensures root1 == root2
  {
    var cost1: U64 :| Best(c, s, s.responses.Keys, root1, parent1, cost1);
    var cost2: U64 :| Best(c, s, s.responses.Keys, root2, parent2, cost2);
  }
}
