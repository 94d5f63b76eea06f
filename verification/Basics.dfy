/** Vocabulary shared by every part of the model. */
module Basics {

  datatype Option<+T> = None | Some(value: T)

  /** A public key, as the number its 32 bytes spell in big-endian order; the
      source compares keys lexicographically, which is the order of these numbers. */
  type Key = nat

  const U64_MAX: nat := 0xFFFF_FFFF_FFFF_FFFF

  type U64 = n: nat | n <= U64_MAX

  type Port = U64
  type PeerId = nat

  /** Signatures are opaque tokens: only their equality is ever observed. */
  type Sig = nat

  function Min(a: int, b: int): int {
    if a < b then a else b
  }

  function Max(a: int, b: int): int {
    if a < b then b else a
  }

  /** `u64::saturating_mul`, as repeated saturating addition; `SatMulIsProduct` says what it is. */
  function SatMul(a: nat, b: nat): U64 {
    if a == 0 then 0
    else
      var sum := b + SatMul(a - 1, b);
      if sum > U64_MAX then U64_MAX else sum
  }

  lemma {:induction false} SatMulIsProduct(a: nat, b: nat)
    ensures SatMul(a, b) == if a * b > U64_MAX then U64_MAX else a * b
  {
    if a == 0 {
    } else {
      SatMulIsProduct(a - 1, b);
      assert a * b == b + (a - 1) * b;
    }
  }

  function Last<T>(s: seq<T>): T
    requires s != []
  {
    s[|s| - 1]
  }

  ghost predicate NoDup<T>(s: seq<T>) {
    forall i, j :: 0 <= i < j < |s| ==> s[i] != s[j]
  }

  ghost function Elems<T>(s: seq<T>): set<T> {
    set x | x in s
  }

  /** A duplicate-free sequence drawn from a finite set is no longer than the set. */
  lemma {:induction false} NoDupBound<T>(s: seq<T>, universe: set<T>)
    requires NoDup(s)
    requires forall x :: x in s ==> x in universe
    ensures |s| <= |universe|
  {
    if s == [] {
    } else {
      NoDupBound(s[1..], universe - {s[0]});
    }
  }
}
