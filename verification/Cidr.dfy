/** Route prefixes of one address family: collapsing excludes, subtracting them from an include,
    and covering what is left with as few prefixes as possible. */
module Cidr {
  import opened Basics
  import opened Bits
  import opened Dyadic

  /** The prefix `addr/len` in a family of `bits`-bit addresses. */
  datatype Net = Net(addr: nat, len: nat)

  ghost predicate Valid(bits: nat, n: Net) {
    n.len <= bits && Aligned(n.addr, bits - n.len) && n.addr + Pow2(bits - n.len) <= Pow2(bits)
  }

  function LastOf(bits: nat, n: Net): int
    requires n.len <= bits
  {
    n.addr + Pow2(bits - n.len) - 1
  }

  predicate Contains(bits: nat, n: Net, x: nat) {
    n.len <= bits && n.addr <= x <= LastOf(bits, n)
  }

  /** `b` lies inside `n`. */
  predicate Within(bits: nat, b: Net, n: Net) {
    b.len <= bits && n.len <= bits && n.addr <= b.addr && LastOf(bits, b) <= LastOf(bits, n)
  }

  ghost predicate Covers(bits: nat, nets: seq<Net>, x: nat) {
    exists i :: 0 <= i < |nets| && Contains(bits, nets[i], x)
  }

  /** All of `b` is wanted. */
  ghost predicate Inside(bits: nat, b: Net, want: nat -> bool) {
    forall x :: Contains(bits, b, x) ==> want(x)
  }

  ghost predicate WithinOne(bits: nat, b: Net, nets: seq<Net>) {
    exists i :: 0 <= i < |nets| && Within(bits, b, nets[i])
  }

  /** Below `upto`, `nets` are prefixes in ascending order that cover exactly what is wanted, and they are
      maximal: every prefix of wanted addresses that starts there lies inside one of them. */
  ghost predicate Carves(bits: nat, nets: seq<Net>, want: nat -> bool, upto: nat) {
    && (forall i :: 0 <= i < |nets| ==> Valid(bits, nets[i]) && LastOf(bits, nets[i]) < upto)
    && (forall i, j :: 0 <= i < j < |nets| ==> LastOf(bits, nets[i]) < nets[j].addr)
    && (forall x :: 0 <= x < upto ==> (Covers(bits, nets, x) <==> want(x)))
    && (forall b :: Valid(bits, b) && b.addr < upto && Inside(bits, b, want) ==> WithinOne(bits, b, nets))
  }

  // ---------------------------------------------------------------------------
  // Covering one range
  // ---------------------------------------------------------------------------

  /** The block the source takes at `cur`: as large as alignment and the rest of the range allow. */
  function StepSize(bits: nat, cur: nat, hi: nat): nat
    requires cur <= hi
  {
    var align := if cur == 0 then bits else Min(TrailingZeros(cur), bits);
    Min(Min(align, FloorLog2(hi - cur + 1)), bits)
  }

  lemma StepSizeExact(bits: nat, cur: nat, hi: nat, k: nat)
    requires cur <= hi && k <= bits
    ensures k <= StepSize(bits, cur, hi) <==> Aligned(cur, k) && cur + Pow2(k) - 1 <= hi
  {
    FloorLog2Fits(hi - cur + 1, k);
    if cur == 0 {
      AlignedZero(k);
    } else {
      TrailingZerosAligned(cur, k);
    }
  }

  /** A prefix within the rest of the range that starts in the block taken lies inside that block. */
  lemma StepMaximal(bits: nat, cur: nat, hi: nat, b: Net)
    requires cur <= hi && Valid(bits, b) && LastOf(bits, b) <= hi
    requires cur <= b.addr <= cur + Pow2(StepSize(bits, cur, hi)) - 1
    ensures Within(bits, b, Net(cur, bits - StepSize(bits, cur, hi)))
  {
    var s, k := StepSize(bits, cur, hi), bits - b.len;
    StepSizeExact(bits, cur, hi, s);
    if k <= s {
      BlocksNest(b.addr, k, cur, s, b.addr);
    } else {
      BlocksNest(cur, s, b.addr, k, b.addr);
      StepSizeExact(bits, cur, hi, k);
    }
  }

  lemma CoversSnoc(bits: nat, nets: seq<Net>, g: Net, x: nat)
    ensures Covers(bits, nets + [g], x) <==> Covers(bits, nets, x) || Contains(bits, g, x)
  {
    var all := nets + [g];
    if Covers(bits, nets, x) {
      var i :| 0 <= i < |nets| && Contains(bits, nets[i], x);
      assert Contains(bits, all[i], x);
    }
    if Contains(bits, g, x) {
      assert Contains(bits, all[|nets|], x);
    }
  }

  lemma WithinOneSnoc(bits: nat, b: Net, nets: seq<Net>, g: Net)
    requires WithinOne(bits, b, nets) || Within(bits, b, g)
    ensures WithinOne(bits, b, nets + [g])
  {
    var all := nets + [g];
    if Within(bits, b, g) {
      assert Within(bits, b, all[|nets|]);
    } else {
      var i :| 0 <= i < |nets| && Within(bits, b, nets[i]);
      assert Within(bits, b, all[i]);
    }
  }

  /** Taking one block keeps the cover exact, ascending and maximal. */
  lemma CarvesStep(bits: nat, nets: seq<Net>, want: nat -> bool, cur: nat, hi: nat)
    requires Carves(bits, nets, want, cur) && cur <= hi < Pow2(bits)
    requires !want(hi + 1) && forall x :: cur <= x <= hi ==> want(x)
    ensures var s := StepSize(bits, cur, hi);
            cur + Pow2(s) - 1 <= hi && Carves(bits, nets + [Net(cur, bits - s)], want, cur + Pow2(s))
  {
    var s := StepSize(bits, cur, hi);
    var g := Net(cur, bits - s);
    StepSizeExact(bits, cur, hi, s);
    var all, upto := nets + [g], cur + Pow2(s);
    forall x | 0 <= x < upto
      ensures Covers(bits, all, x) <==> want(x)
    {
      CoversSnoc(bits, nets, g, x);
    }
    forall b | Valid(bits, b) && b.addr < upto && Inside(bits, b, want)
      ensures WithinOne(bits, b, all)
    {
      if cur <= b.addr {
        assert !Contains(bits, b, hi + 1);
        StepMaximal(bits, cur, hi, b);
      }
      WithinOneSnoc(bits, b, nets, g);
    }
  }

  /** Where nothing is wanted the cover stays complete. */
  lemma CarvesSkip(bits: nat, nets: seq<Net>, want: nat -> bool, from: nat, upto: nat)
    requires Carves(bits, nets, want, from) && from <= upto
    requires forall x :: from <= x < upto ==> !want(x)
    ensures Carves(bits, nets, want, upto)
  {
    forall x | from <= x < upto
      ensures !Covers(bits, nets, x)
    {
    }
    forall b | Valid(bits, b) && b.addr < upto && Inside(bits, b, want)
      ensures WithinOne(bits, b, nets)
    {
      assert Contains(bits, b, b.addr);
    }
  }

  /** Append the largest block that starts at `cur`; `end` is its last address. */
  method EmitBlock(bits: nat, cur: nat, hi: nat, out: seq<Net>, ghost want: nat -> bool) returns (out': seq<Net>, end: nat)
    requires cur <= hi < Pow2(bits)
    requires !want(hi + 1) && forall x :: cur <= x <= hi ==> want(x)
    requires Carves(bits, out, want, cur)
    ensures cur <= end <= hi && Carves(bits, out', want, end + 1)
    ensures out' == out + [Net(cur, bits - StepSize(bits, cur, hi))] && end == cur + Pow2(StepSize(bits, cur, hi)) - 1
  {
    CarvesStep(bits, out, want, cur, hi);
    var size := StepSize(bits, cur, hi);
    out' := out + [Net(cur, bits - size)];
    end := cur + Pow2(size) - 1;
    assert end + 1 == cur + Pow2(size);
  }

  /** Append the blocks of the greedy decomposition of `[lo, hi]`. */
  method EmitRange(bits: nat, lo: nat, hi: nat, out: seq<Net>, ghost want: nat -> bool) returns (out': seq<Net>)
    requires lo <= hi < Pow2(bits)
    requires !want(hi + 1) && forall x :: lo <= x <= hi ==> want(x)
    requires Carves(bits, out, want, lo)
    ensures Carves(bits, out', want, hi + 1)
    ensures out <= out'
  {
    out' := out;
    var cur := lo;
    while true
      invariant lo <= cur <= hi && out <= out'
      invariant Carves(bits, out', want, cur)
      decreases hi - cur
    {
      var end;
      out', end := EmitBlock(bits, cur, hi, out', want);
      if end >= hi {
        break;
      }
      cur := end + 1;
    }
  }

  /** Addition and decrement modulo `m`. */
  function WrapAdd(a: nat, b: nat, m: nat): int {
    if a + b >= m then a + b - m else a + b
  }

  function WrapDec(a: int, m: nat): int {
    if a == 0 then m - 1 else a - 1
  }

  /** In 128-bit arithmetic the sum behind `end` wraps to zero at the top of the address space; the
      decrement then wraps back, so `end` is exact all the same. */
  lemma EndExactModulo(bits: nat, cur: nat, size: nat)
    requires cur + Pow2(size) <= Pow2(bits)
    ensures WrapDec(WrapAdd(cur, Pow2(size), Pow2(bits)), Pow2(bits)) == cur + Pow2(size) - 1
  {
  }

  // ---------------------------------------------------------------------------
  // Collapsing excludes
  // ---------------------------------------------------------------------------

  datatype Range = Range(lo: nat, hi: nat)

  ghost predicate InRanges(rs: seq<Range>, x: nat) {
    exists r :: r in rs && r.lo <= x <= r.hi
  }

  /** Ascending, disjoint and not even adjacent. */
  ghost predicate Collapsed(rs: seq<Range>) {
    && (forall i :: 0 <= i < |rs| ==> rs[i].lo <= rs[i].hi)
    && (forall i, j :: 0 <= i < j < |rs| ==> rs[i].hi + 1 < rs[j].lo)
  }

  function Bounds(bits: nat, n: Net): Range
    requires n.len <= bits
  {
    Range(n.addr, n.addr + (Pow2(bits - n.len) - 1))
  }

  ghost predicate SortedByLo(rs: seq<Range>) {
    forall i, j :: 0 <= i < j < |rs| ==> rs[i].lo <= rs[j].lo
  }

  function Insert(r: Range, rs: seq<Range>): seq<Range> {
    if rs == [] || r.lo < rs[0].lo || (r.lo == rs[0].lo && r.hi <= rs[0].hi) then [r] + rs
    else [rs[0]] + Insert(r, rs[1..])
  }

  /** The ranges in ascending order. */
  function Sort(rs: seq<Range>): seq<Range> {
    if rs == [] then [] else Insert(rs[0], Sort(rs[1..]))
  }

  lemma {:induction false} InsertMembers(r: Range, rs: seq<Range>, x: Range)
    ensures x in Insert(r, rs) <==> x == r || x in rs
  {
    if rs == [] {
    } else {
      InsertMembers(r, rs[1..], x);
      assert rs == [rs[0]] + rs[1..];
    }
  }

  lemma {:induction false} InsertSorted(r: Range, rs: seq<Range>)
    requires SortedByLo(rs)
    ensures SortedByLo(Insert(r, rs))
  {
    if rs == [] || r.lo < rs[0].lo || (r.lo == rs[0].lo && r.hi <= rs[0].hi) {
    } else {
      var rest := Insert(r, rs[1..]);
      InsertSorted(r, rs[1..]);
      forall x | x in rest
        ensures rs[0].lo <= x.lo
      {
        InsertMembers(r, rs[1..], x);
      }
    }
  }

  lemma {:induction false} SortSorted(rs: seq<Range>)
    ensures SortedByLo(Sort(rs))
    ensures forall x :: x in Sort(rs) <==> x in rs
  {
    if rs == [] {
    } else {
      SortSorted(rs[1..]);
      InsertSorted(rs[0], Sort(rs[1..]));
      forall x
        ensures x in Sort(rs) <==> x in rs
      {
        InsertMembers(rs[0], Sort(rs[1..]), x);
        assert rs == [rs[0]] + rs[1..];
      }
    }
  }

  /** Let `r` extend the last range if it overlaps or touches it, and follow it otherwise. */
  function MergeOne(merged: seq<Range>, r: Range): seq<Range> {
    if merged != [] && r.lo <= Last(merged).hi + 1
    then merged[..|merged| - 1] + [Range(Last(merged).lo, Max(Last(merged).hi, r.hi))]
    else merged + [r]
  }

  lemma MergeOnePoints(merged: seq<Range>, r: Range, x: nat)
    requires r.lo <= r.hi && (merged != [] ==> Last(merged).lo <= r.lo && Last(merged).lo <= Last(merged).hi)
    ensures InRanges(MergeOne(merged, r), x) <==> InRanges(merged, x) || r.lo <= x <= r.hi
  {
    if merged != [] && r.lo <= Last(merged).hi + 1 {
      var init, last := merged[..|merged| - 1], Last(merged);
      var grown := Range(last.lo, Max(last.hi, r.hi));
      assert merged == init + [last];
      assert forall q :: q in merged <==> q in init || q == last;
      assert forall q :: q in MergeOne(merged, r) <==> q in init || q == grown;
      assert grown.lo <= x <= grown.hi <==> last.lo <= x <= last.hi || r.lo <= x <= r.hi;
    } else {
      assert forall q :: q in MergeOne(merged, r) <==> q in merged || q == r;
    }
  }

  lemma MergeOneCollapsed(merged: seq<Range>, r: Range)
    requires Collapsed(merged) && r.lo <= r.hi && (merged != [] ==> Last(merged).lo <= r.lo)
    ensures Collapsed(MergeOne(merged, r)) && Last(MergeOne(merged, r)).lo <= r.lo
  {
  }

  method MergeSorted(sorted: seq<Range>) returns (merged: seq<Range>)
    requires SortedByLo(sorted) && forall r :: r in sorted ==> r.lo <= r.hi
    ensures Collapsed(merged)
    ensures forall x :: InRanges(merged, x) <==> InRanges(sorted, x)
  {
    merged := [];
    for i := 0 to |sorted|
      invariant Collapsed(merged)
      invariant merged != [] && i < |sorted| ==> Last(merged).lo <= sorted[i].lo
      invariant forall x :: InRanges(merged, x) <==> InRanges(sorted[..i], x)
    {
      var r := sorted[i];
      assert forall q :: q in sorted[..i + 1] <==> q in sorted[..i] || q == r;
      forall x: nat
        ensures InRanges(MergeOne(merged, r), x) <==> InRanges(sorted[..i + 1], x)
      {
        MergeOnePoints(merged, r, x);
      }
      MergeOneCollapsed(merged, r);
      merged := MergeOne(merged, r);
    }
    assert sorted[..|sorted|] == sorted;
  }

  lemma BoundsPoints(bits: nat, nets: seq<Net>, ranges: seq<Range>, x: nat)
    requires |ranges| == |nets|
    requires forall i :: 0 <= i < |nets| ==> nets[i].len <= bits && ranges[i] == Bounds(bits, nets[i])
    ensures InRanges(ranges, x) <==> Covers(bits, nets, x)
  {
    if Covers(bits, nets, x) {
      var i :| 0 <= i < |nets| && Contains(bits, nets[i], x);
      assert ranges[i] in ranges;
    }
  }

  method MergeExcludes(bits: nat, excludes: seq<Net>) returns (merged: seq<Range>)
    requires forall i :: 0 <= i < |excludes| ==> excludes[i].len <= bits
    ensures Collapsed(merged)
    ensures forall x :: InRanges(merged, x) <==> Covers(bits, excludes, x)
  {
    var ranges := seq(|excludes|, i requires 0 <= i < |excludes| => Bounds(bits, excludes[i]));
    SortSorted(ranges);
    merged := MergeSorted(Sort(ranges));
    forall x: nat
      ensures InRanges(merged, x) <==> Covers(bits, excludes, x)
    {
      BoundsPoints(bits, excludes, ranges, x);
    }
  }

  // ---------------------------------------------------------------------------
  // Subtracting the excludes from one include
  // ---------------------------------------------------------------------------

  /** The addresses of `inc` outside the excluded ranges. */
  ghost function Remainder(bits: nat, inc: Net, ex: seq<Range>): nat -> bool {
    (x: nat) => Contains(bits, inc, x) && !InRanges(ex, x)
  }

  /** First range that ends at or after `lo`. */
  method PartitionPoint(ex: seq<Range>, lo: nat) returns (start: nat)
    requires Collapsed(ex)
    ensures start <= |ex|
    ensures forall i :: 0 <= i < start ==> ex[i].hi < lo
    ensures forall i :: start <= i < |ex| ==> ex[i].hi >= lo
  {
    start := 0;
    var end := |ex|;
    while start < end
      invariant start <= end <= |ex|
      invariant forall i :: 0 <= i < start ==> ex[i].hi < lo
      invariant forall i :: end <= i < |ex| ==> ex[i].hi >= lo
    {
      var mid := (start + end) / 2;
      if ex[mid].hi < lo {
        start := mid + 1;
      } else {
        end := mid;
      }
    }
  }

  /** The excludes before `i` end below `cur`, and those from `i` on start at or after `next`. */
  ghost predicate Between(ex: seq<Range>, i: nat, cur: nat, next: nat) {
    && i <= |ex|
    && (forall j :: 0 <= j < i ==> ex[j].hi < cur)
    && (forall j :: i <= j < |ex| ==> ex[j].lo >= next)
  }

  lemma BetweenFree(ex: seq<Range>, i: nat, cur: nat, next: nat, x: nat)
    requires Between(ex, i, cur, next) && cur <= x < next
    ensures !InRanges(ex, x)
  {
  }

  /** Cover the gap `[cur, next - 1]` between excludes. */
  method EmitGap(bits: nat, inc: Net, ex: seq<Range>, ghost i: nat, cur: nat, next: nat, out: seq<Net>) returns (out': seq<Net>)
    requires Valid(bits, inc) && Between(ex, i, cur, next)
    requires inc.addr <= cur < next <= LastOf(bits, inc) + 1
    requires !Remainder(bits, inc, ex)(next)
    requires Carves(bits, out, Remainder(bits, inc, ex), cur)
    ensures Carves(bits, out', Remainder(bits, inc, ex), next)
  {
    forall x | cur <= x <= next - 1
      ensures Remainder(bits, inc, ex)(x)
    {
      BetweenFree(ex, i, cur, next, x);
    }
    out' := EmitRange(bits, cur, next - 1, out, Remainder(bits, inc, ex));
  }

  method SubtractMany(bits: nat, inc: Net, ex: seq<Range>) returns (out: seq<Net>)
    requires Valid(bits, inc) && Collapsed(ex)
    ensures Carves(bits, out, Remainder(bits, inc, ex), Pow2(bits))
  {
    ghost var want := Remainder(bits, inc, ex);
    var incLo, incHi := inc.addr, LastOf(bits, inc);
    var i := PartitionPoint(ex, incLo);
    out := [];
    var cur := incLo;
    CarvesSkip(bits, out, want, 0, cur);
    while i < |ex|
      invariant i <= |ex| && incLo <= cur <= incHi
      invariant forall j :: 0 <= j < i ==> ex[j].hi < cur
      invariant forall j :: i <= j < |ex| ==> ex[j].hi >= cur
      invariant Carves(bits, out, want, cur)
    {
      var Range(lo, hi) := ex[i];
      assert ex[i] in ex;
      if lo > incHi {
        break;
      }
      if lo > cur {
        out := EmitGap(bits, inc, ex, i, cur, lo, out);
        cur := lo;
      }
      if hi >= incHi {
        CarvesSkip(bits, out, want, cur, Pow2(bits));
        return;
      }
      CarvesSkip(bits, out, want, cur, hi + 1);
      cur := hi + 1;
      i := i + 1;
    }
    out := EmitGap(bits, inc, ex, i, cur, incHi + 1, out);
    CarvesSkip(bits, out, want, incHi + 1, Pow2(bits));
  }

  // ---------------------------------------------------------------------------
  // The cover is unique
  // ---------------------------------------------------------------------------

  /** A prefix of wanted addresses that no larger one extends. */
  ghost predicate Maximal(bits: nat, b: Net, want: nat -> bool) {
    && Valid(bits, b) && Inside(bits, b, want)
    && forall c :: Valid(bits, c) && Inside(bits, c, want) && Contains(bits, c, b.addr) ==> Within(bits, c, b)
  }

  lemma SameBlock(bits: nat, a: Net, b: Net)
    requires Within(bits, a, b) && Within(bits, b, a)
    ensures a == b
  {
    if a.len < b.len {
      Pow2Monotone(bits - b.len + 1, bits - a.len);
    } else if b.len < a.len {
      Pow2Monotone(bits - a.len + 1, bits - b.len);
    }
  }

  lemma CarvedInside(bits: nat, nets: seq<Net>, want: nat -> bool, i: nat)
    requires Carves(bits, nets, want, Pow2(bits)) && i < |nets|
    ensures Inside(bits, nets[i], want) && Contains(bits, nets[i], nets[i].addr)
  {
    forall x | Contains(bits, nets[i], x)
      ensures want(x)
    {
      assert Covers(bits, nets, x);
    }
  }

  /** The prefixes of a cover are exactly the maximal ones. */
  lemma CarvedIffMaximal(bits: nat, nets: seq<Net>, want: nat -> bool, b: Net)
    requires Carves(bits, nets, want, Pow2(bits))
    ensures b in nets <==> Maximal(bits, b, want)
  {
    if b in nets {
      var i: nat :| i < |nets| && nets[i] == b;
      CarvedInside(bits, nets, want, i);
      forall c | Valid(bits, c) && Inside(bits, c, want) && Contains(bits, c, b.addr)
        ensures Within(bits, c, b)
      {
        assert WithinOne(bits, c, nets);
        var k :| 0 <= k < |nets| && Within(bits, c, nets[k]);
        assert k == i;
      }
    }
    if Maximal(bits, b, want) {
      assert WithinOne(bits, b, nets);
      var k: nat :| k < |nets| && Within(bits, b, nets[k]);
      CarvedInside(bits, nets, want, k);
      assert Contains(bits, nets[k], b.addr);
      SameBlock(bits, b, nets[k]);
    }
  }

  lemma MaximalSame(bits: nat, b: Net, want: nat -> bool, want': nat -> bool)
    requires forall x :: want(x) == want'(x)
    ensures Maximal(bits, b, want) <==> Maximal(bits, b, want')
  {
    assert forall c :: Inside(bits, c, want) <==> Inside(bits, c, want');
  }

  // ---------------------------------------------------------------------------
  // No cover uses fewer prefixes
  // ---------------------------------------------------------------------------

  /** Which of `nets` holds the first address of each block of the cover. */
  lemma Representative(bits: nat, nets: seq<Net>, other: seq<Net>, want: nat -> bool, i: nat) returns (r: nat)
    requires Carves(bits, nets, want, Pow2(bits)) && i < |nets|
    requires forall j :: 0 <= j < |other| ==> Valid(bits, other[j])
    requires forall x :: 0 <= x < Pow2(bits) ==> (Covers(bits, other, x) <==> want(x))
    ensures r < |other| && Within(bits, other[r], nets[i]) && Contains(bits, other[r], nets[i].addr)
  {
    var x := nets[i].addr;
    assert Contains(bits, nets[i], x);
    assert Covers(bits, nets, x);
    r :| 0 <= r < |other| && Contains(bits, other[r], x);
    var b := other[r];
    forall y | Contains(bits, b, y)
      ensures want(y)
    {
      assert Covers(bits, other, y);
    }
    assert Inside(bits, b, want);
    assert WithinOne(bits, b, nets);
    var k :| 0 <= k < |nets| && Within(bits, b, nets[k]);
    assert k == i;
  }

  ghost predicate Represent(bits: nat, nets: seq<Net>, other: seq<Net>, reps: seq<nat>) {
    |reps| <= |nets| && forall i :: 0 <= i < |reps| ==> reps[i] < |other| && Within(bits, other[reps[i]], nets[i])
  }

  lemma RepresentMore(bits: nat, nets: seq<Net>, other: seq<Net>, reps: seq<nat>, r: nat)
    requires |reps| < |nets| && Represent(bits, nets, other, reps) && NoDup(reps)
    requires r < |other| && Within(bits, other[r], nets[|reps|])
    requires forall i :: 0 <= i < |reps| ==> nets[i].len <= bits && LastOf(bits, nets[i]) < nets[|reps|].addr
    ensures Represent(bits, nets, other, reps + [r]) && NoDup(reps + [r])
  {
    forall i | 0 <= i < |reps|
      ensures reps[i] != r
    {
      assert LastOf(bits, nets[i]) < nets[|reps|].addr;
    }
  }

  /** Every set of prefixes with the same addresses has at least as many members. */
  lemma CoverMinimal(bits: nat, nets: seq<Net>, other: seq<Net>, want: nat -> bool)
    requires Carves(bits, nets, want, Pow2(bits))
    requires forall j :: 0 <= j < |other| ==> Valid(bits, other[j])
    requires forall x :: 0 <= x < Pow2(bits) ==> (Covers(bits, other, x) <==> want(x))
    ensures |nets| <= |other|
  {
    var reps: seq<nat> := [];
    var n := 0;
    while n < |nets|
      invariant n == |reps| <= |nets| && Represent(bits, nets, other, reps) && NoDup(reps)
    {
      var r := Representative(bits, nets, other, want, n);
      RepresentMore(bits, nets, other, reps, r);
      reps := reps + [r];
      n := n + 1;
    }
    BelowIs(|other|);
    NoDupBound(reps, Below(|other|));
  }

  ghost function Below(n: nat): set<nat> {
    if n == 0 then {} else Below(n - 1) + {n - 1}
  }

  lemma {:induction false} BelowIs(n: nat)
    ensures |Below(n)| == n && forall k: nat :: k in Below(n) <==> k < n
  {
    if n == 0 {
    } else {
      BelowIs(n - 1);
    }
  }
}
