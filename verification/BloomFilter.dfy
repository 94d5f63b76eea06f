/** Bloom filters: 128 words of 64 bits, eight bits per key. */
module BloomFilters {
  import opened Basics
  import opened Bits
  import BloomWire

  const WORDS: nat := BloomWire.WORDS
  const WORD_BITS: nat := 64
  const BITS: nat := 8192
  const HASHES: nat := 8

  type Words = w: seq<U64> | |w| == WORDS witness seq(WORDS, _ => 0)

  // ---------------------------------------------------------------------------
  // Machine words
  // ---------------------------------------------------------------------------

  lemma Pow2Of64()
    ensures Pow2(WORD_BITS) == U64_MAX + 1
  {
    Pow2Of8();
    assert Pow2(16) == 256 * 256;
    assert Pow2(32) == Pow2(16) * Pow2(16) by { Pow2Sum(16, 16); }
    Pow2Sum(32, 32);
  }

  lemma {:induction false} Pow2Sum(m: nat, n: nat)
    ensures Pow2(m + n) == Pow2(m) * Pow2(n)
  {
    if m == 0 {
    } else {
      Pow2Sum(m - 1, n);
    }
  }

  function Spelt(bits: seq<bool>): U64
    requires |bits| == WORD_BITS
  {
    Pow2Of64();
    Pack(bits)
  }

  /** Bit `o` of a word, the least significant being bit 0. */
  predicate Bit(v: U64, o: nat)
    requires o < WORD_BITS
  {
    BitsOf(v, WORD_BITS)[WORD_BITS - 1 - o]
  }

  /** A word with bit `o` set. */
  function WithBit(v: U64, o: nat): U64
    requires o < WORD_BITS
  {
    Spelt(BitsOf(v, WORD_BITS)[WORD_BITS - 1 - o := true])
  }

  /** Bitwise or. */
  function Or(v: U64, w: U64): U64 {
    var a, b := BitsOf(v, WORD_BITS), BitsOf(w, WORD_BITS);
    Spelt(seq(WORD_BITS, i requires 0 <= i < WORD_BITS => a[i] || b[i]))
  }

  lemma WithBitHas(v: U64, o: nat, p: nat)
    requires o < WORD_BITS && p < WORD_BITS
    ensures Bit(WithBit(v, o), p) <==> Bit(v, p) || o == p
  {
    BitsOfPack(BitsOf(v, WORD_BITS)[WORD_BITS - 1 - o := true]);
  }

  lemma OrHas(v: U64, w: U64, p: nat)
    requires p < WORD_BITS
    ensures Bit(Or(v, w), p) <==> Bit(v, p) || Bit(w, p)
  {
    var a, b := BitsOf(v, WORD_BITS), BitsOf(w, WORD_BITS);
    BitsOfPack(seq(WORD_BITS, i requires 0 <= i < WORD_BITS => a[i] || b[i]));
  }

  lemma {:induction false} ZeroBits(w: nat, i: nat)
    requires i < w
    ensures !BitsOf(0, w)[i]
  {
    if i == w - 1 {
    } else {
      ZeroBits(w - 1, i);
    }
  }

  /** Words that agree on every bit are equal. */
  lemma SameBits(v: U64, w: U64)
    requires forall o :: 0 <= o < WORD_BITS ==> Bit(v, o) == Bit(w, o)
    ensures v == w
  {
    forall i | 0 <= i < WORD_BITS
      ensures BitsOf(v, WORD_BITS)[i] == BitsOf(w, WORD_BITS)[i]
    {
      assert Bit(v, WORD_BITS - 1 - i) == Bit(w, WORD_BITS - 1 - i);
    }
    assert BitsOf(v, WORD_BITS) == BitsOf(w, WORD_BITS);
    Pow2Of64();
    PackBitsOf(v, WORD_BITS);
    PackBitsOf(w, WORD_BITS);
  }

  // ---------------------------------------------------------------------------
  // Positions
  // ---------------------------------------------------------------------------

  /** The four base hashes of a key. The hash function itself is not modelled. */
  datatype Hashes = Hashes(h0: U64, h1: U64, h2: U64, h3: U64)

  /** The position of the i-th bit of a key, in arithmetic that wraps around at 64 bits. */
  function Location(h: Hashes, i: nat): nat {
    var base := if i % 2 == 0 then h.h0 else h.h1;
    var mult := if (i + i % 2) % 4 / 2 == 0 then h.h2 else h.h3;
    (base + i * mult) % (U64_MAX + 1) % BITS
  }

  /** Whether the bit at a position is set. */
  predicate Has(words: Words, loc: nat)
    requires loc < BITS
  {
    Bit(words[loc / WORD_BITS], loc % WORD_BITS)
  }

  /** The positions of the set bits. */
  ghost function Ones(words: Words): set<nat> {
    set loc: nat | loc < BITS && Has(words, loc)
  }

  /** Filters with the same set bits are equal. */
  lemma SameOnes(v: Words, w: Words)
    requires Ones(v) == Ones(w)
    ensures v == w
  {
    forall i | 0 <= i < WORDS
      ensures v[i] == w[i]
    {
      forall o | 0 <= o < WORD_BITS
        ensures Bit(v[i], o) == Bit(w[i], o)
      {
        var loc := i * 64 + o;
        assert loc / 64 == i && loc % 64 == o;
        assert loc in Ones(v) <==> loc in Ones(w);
      }
      SameBits(v[i], w[i]);
    }
  }

  /** A filter's positions survive the wire. */
  lemma OnesSurviveWire(words: Words)
    ensures BloomWire.Decode(BloomWire.Encode(words)).Some?
    ensures var back := BloomWire.Decode(BloomWire.Encode(words)).value; |back| == WORDS && Ones(back) == Ones(words)
  {
    BloomWire.BloomRoundTrip(words);
  }

  /** Where the eight bits of a key are. */
  type Positions = at: nat -> nat | forall i :: at(i) < BITS witness _ => 0

  function PositionsOf(h: Hashes): Positions {
    i => Location(h, i)
  }

  ghost function FirstBits(at: Positions, n: nat): set<nat> {
    if n == 0 then {} else FirstBits(at, n - 1) + {at(n - 1)}
  }

  lemma {:induction false} FirstBitsAre(at: Positions, n: nat, loc: nat)
    ensures loc in FirstBits(at, n) <==> exists i :: 0 <= i < n && loc == at(i)
  {
    if n == 0 {
    } else {
      FirstBitsAre(at, n - 1, loc);
    }
  }

  /** The positions that stand for a key. */
  ghost function Footprint(h: Hashes): set<nat> {
    FirstBits(PositionsOf(h), HASHES)
  }

  /** They are its eight locations. */
  lemma FootprintIs(h: Hashes, loc: nat)
    ensures loc in Footprint(h) <==> exists i :: 0 <= i < 8 && loc == Location(h, i)
  {
    FirstBitsAre(PositionsOf(h), HASHES, loc);
    if i :| 0 <= i < HASHES && loc == Location(h, i) {
      assert PositionsOf(h)(i) == loc;
    }
    if i :| 0 <= i < HASHES && loc == PositionsOf(h)(i) {
      assert Location(h, i) == loc;
    }
  }

  lemma SetOne(v: Words, w: Words, loc: nat)
    requires loc < BITS && w == v[loc / WORD_BITS := WithBit(v[loc / WORD_BITS], loc % WORD_BITS)]
    ensures Ones(w) == Ones(v) + {loc}
  {
    forall b: nat | b < BITS
      ensures Has(w, b) <==> Has(v, b) || b == loc
    {
      WithBitHas(v[loc / WORD_BITS], loc % WORD_BITS, b % WORD_BITS);
    }
  }

  lemma MergeOnes(v: Words, w: Words, m: Words)
    requires forall i :: 0 <= i < WORDS ==> m[i] == Or(v[i], w[i])
    ensures Ones(m) == Ones(v) + Ones(w)
  {
    forall b: nat | b < BITS
      ensures Has(m, b) <==> Has(v, b) || Has(w, b)
    {
      OrHas(v[b / WORD_BITS], w[b / WORD_BITS], b % WORD_BITS);
    }
  }

  lemma NoOnes(w: Words)
    requires forall i :: 0 <= i < WORDS ==> w[i] == 0
    ensures Ones(w) == {}
  {
    forall b: nat | b < BITS
      ensures !Has(w, b)
    {
      ZeroBits(WORD_BITS, WORD_BITS - 1 - b % WORD_BITS);
    }
  }

  lemma UnionAssociates(a: set<nat>, b: set<nat>, x: nat)
    ensures a + b + {x} == a + (b + {x})
  {
  }

  class BloomFilter {
    const bits: array<U64>

    ghost predicate Valid() {
      bits.Length == WORDS
    }

    ghost function Value(): Words
      requires Valid()
      reads bits
    {
      bits[..]
    }

    constructor ()
      ensures Valid() && Ones(Value()) == {} && fresh(bits)
    {
      bits := new U64[WORDS](_ => 0);
      new;
      NoOnes(Value());
    }

    method SetBit(loc: nat)
      requires Valid() && loc < BITS
      modifies bits
      ensures Ones(Value()) == old(Ones(Value())) + {loc}
    {
      ghost var was := Value();
      var idx, offset := loc / WORD_BITS, loc % WORD_BITS;
      bits[idx] := WithBit(bits[idx], offset);
      SetOne(was, Value(), loc);
    }

    method GetBit(loc: nat) returns (r: bool)
      requires Valid() && loc < BITS
      ensures r <==> loc in Ones(Value())
    {
      r := Bit(bits[loc / WORD_BITS], loc % WORD_BITS);
    }

    method AddFirst(at: Positions, n: nat)
      requires Valid()
      modifies bits
      ensures Ones(Value()) == old(Ones(Value())) + FirstBits(at, n)
    {
      ghost var was := Ones(Value());
      var i := 0;
      while i < n
        invariant i <= n && Ones(Value()) == was + FirstBits(at, i)
      {
        SetBit(at(i));
        UnionAssociates(was, FirstBits(at, i), at(i));
        i := i + 1;
      }
    }

    method TestFirst(at: Positions, n: nat) returns (r: bool)
      requires Valid()
      ensures r <==> FirstBits(at, n) <= Ones(Value())
    {
      var i := 0;
      while i < n
        invariant i <= n && FirstBits(at, i) <= Ones(Value())
      {
        var on := GetBit(at(i));
        if !on {
          FirstBitsAre(at, n, at(i));
          return false;
        }
        i := i + 1;
      }
      return true;
    }

    /** Set the eight bits of a key. */
    method Add(h: Hashes)
      requires Valid()
      modifies bits
      ensures Ones(Value()) == old(Ones(Value())) + Footprint(h)
    {
      AddFirst(PositionsOf(h), HASHES);
    }

    /** Whether all eight bits of a key are set. */
    method Test(h: Hashes) returns (r: bool)
      requires Valid()
      ensures r <==> Footprint(h) <= Ones(Value())
    {
      r := TestFirst(PositionsOf(h), HASHES);
    }

    /** Add all the bits of another filter. */
    method Merge(other: BloomFilter)
      requires Valid() && other.Valid() && bits != other.bits
      modifies bits
      ensures Ones(Value()) == old(Ones(Value())) + Ones(other.Value())
    {
      ghost var was := Value();
      var i := 0;
      while i < WORDS
        invariant i <= WORDS
        invariant forall j :: 0 <= j < i ==> bits[j] == Or(was[j], other.bits[j])
        invariant forall j :: i <= j < WORDS ==> bits[j] == was[j]
      {
        bits[i] := Or(bits[i], other.bits[i]);
        i := i + 1;
      }
      MergeOnes(was, other.Value(), Value());
    }

    method Equal(other: BloomFilter) returns (r: bool)
      requires Valid() && other.Valid()
      ensures r <==> Ones(Value()) == Ones(other.Value())
    {
      if Ones(Value()) == Ones(other.Value()) {
        SameOnes(Value(), other.Value());
      }
      r := bits[..] == other.bits[..];
    }
  }
}
