/** Power-of-two blocks of addresses: shifting, alignment, and how blocks nest. */
module Dyadic {
  import opened Bits

  /** `x >> k`. */
  function Shr(x: nat, k: nat): nat {
    if k == 0 then x else Shr(x / 2, k - 1)
  }

  /** `x << k`. */
  function Shl(x: nat, k: nat): nat
    decreases k
  {
    if k == 0 then x else Shl(2 * x, k - 1)
  }

  /** The low `k` bits of `a` are zero. */
  predicate Aligned(a: nat, k: nat) {
    k == 0 || (a % 2 == 0 && Aligned(a / 2, k - 1))
  }

  lemma {:induction false} AlignedZero(k: nat)
    ensures Aligned(0, k)
  {
    if k == 0 {
    } else {
      AlignedZero(k - 1);
    }
  }

  lemma {:induction false} AlignedLess(a: nat, k: nat, j: nat)
    requires Aligned(a, k) && j <= k
    ensures Aligned(a, j)
  {
    if j == 0 {
    } else {
      AlignedLess(a / 2, k - 1, j - 1);
    }
  }

  /** The points of the block of size `2^k` at an aligned `a` are those that agree with it above bit `k`. */
  lemma {:induction false} BlockPoints(a: nat, k: nat, x: nat)
    requires Aligned(a, k)
    ensures Shr(x, k) == Shr(a, k) <==> a <= x < a + Pow2(k)
  {
    if k == 0 {
    } else {
      BlockPoints(a / 2, k - 1, x / 2);
    }
  }

  lemma {:induction false} ShrFurther(x: nat, y: nat, i: nat, j: nat)
    requires Shr(x, i) == Shr(y, i) && i <= j
    ensures Shr(x, j) == Shr(y, j)
    decreases i
  {
    if i == 0 {
    } else {
      ShrFurther(x / 2, y / 2, i - 1, j - 1);
    }
  }

  lemma PointsNest(a: nat, i: nat, b: nat, j: nat, x: nat, y: nat)
    requires Aligned(a, i) && Aligned(b, j) && i <= j
    requires a <= x < a + Pow2(i) && a <= y < a + Pow2(i) && b <= x < b + Pow2(j)
    ensures b <= y < b + Pow2(j)
  {
    BlockPoints(a, i, x);
    BlockPoints(a, i, y);
    ShrFurther(x, y, i, j);
    BlockPoints(b, j, x);
    BlockPoints(b, j, y);
  }

  /** Two aligned blocks that share a point are nested. */
  lemma BlocksNest(a: nat, i: nat, b: nat, j: nat, x: nat)
    requires Aligned(a, i) && Aligned(b, j) && i <= j
    requires a <= x < a + Pow2(i) && b <= x < b + Pow2(j)
    ensures b <= a && a + Pow2(i) <= b + Pow2(j)
  {
    PointsNest(a, i, b, j, x, a);
    PointsNest(a, i, b, j, x, a + Pow2(i) - 1);
  }

  function TrailingZeros(n: nat): nat
    requires n > 0
  {
    if n % 2 == 1 then 0 else 1 + TrailingZeros(n / 2)
  }

  lemma {:induction false} TrailingZerosAligned(n: nat, k: nat)
    requires n > 0
    ensures Aligned(n, k) <==> k <= TrailingZeros(n)
    decreases n
  {
    if k == 0 || n % 2 == 1 {
    } else {
      TrailingZerosAligned(n / 2, k - 1);
    }
  }

  /** Position of the highest set bit. */
  function FloorLog2(n: nat): nat
    requires n > 0
  {
    if n == 1 then 0 else 1 + FloorLog2(n / 2)
  }

  lemma {:induction false} FloorLog2Fits(n: nat, k: nat)
    requires n > 0
    ensures Pow2(k) <= n <==> k <= FloorLog2(n)
    decreases n
  {
    if k == 0 {
    } else {
      if n > 1 {
        FloorLog2Fits(n / 2, k - 1);
      }
    }
  }

  lemma {:induction false} Pow2Monotone(i: nat, j: nat)
    requires i <= j
    ensures Pow2(i) <= Pow2(j)
  {
    if i >= j {
    } else {
      Pow2Monotone(i, j - 1);
    }
  }

  lemma {:induction false} ShlAligned(x: nat, k: nat)
    ensures Aligned(Shl(x, k), k) && Shr(Shl(x, k), k) == x
  {
    if k == 0 {
    } else {
      ShlHalf(x, k);
      ShlAligned(x, k - 1);
    }
  }

  lemma {:induction false} ShlHalf(x: nat, k: nat)
    requires k > 0
    ensures Shl(x, k) % 2 == 0 && Shl(x, k) / 2 == Shl(x, k - 1)
    decreases k
  {
    if k <= 1 {
    } else {
      ShlHalf(2 * x, k - 1);
    }
  }
}
