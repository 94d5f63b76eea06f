/** Compressed encoding of a bloom filter's 128 words: two bitmaps mark the words that are all
    zeros and all ones; the others follow in big-endian order. */
module BloomWire {
  import opened Basics
  import opened Bits

  const WORDS: nat := 128

  function ToBigEndian(v: nat, n: nat): (bytes: seq<Byte>)
    ensures |bytes| == n
  {
    if n == 0 then [] else ToBigEndian(v / 256, n - 1) + [v % 256]
  }

  function FromBigEndian(bytes: seq<Byte>): nat {
    if bytes == [] then 0 else FromBigEndian(bytes[..|bytes| - 1]) * 256 + bytes[|bytes| - 1]
  }

  function Pow256(n: nat): nat {
    if n == 0 then 1 else 256 * Pow256(n - 1)
  }

  lemma {:induction false} BigEndianRoundTrip(v: nat, n: nat)
    requires v < Pow256(n)
    ensures FromBigEndian(ToBigEndian(v, n)) == v
  {
    if n == 0 {
    } else {
      BigEndianRoundTrip(v / 256, n - 1);
      assert ToBigEndian(v, n)[..n - 1] == ToBigEndian(v / 256, n - 1);
    }
  }

  lemma {:induction false} FromBigEndianBound(bytes: seq<Byte>)
    ensures FromBigEndian(bytes) < Pow256(|bytes|)
  {
    if bytes == [] {
    } else {
      FromBigEndianBound(bytes[..|bytes| - 1]);
    }
  }

  lemma Pow256Of8()
    ensures Pow256(8) == U64_MAX + 1
  {
    assert Pow256(4) == 0x1_0000_0000;
  }

  function Word(bytes: seq<Byte>): U64
    requires |bytes| == 8
  {
    FromBigEndianBound(bytes);
    Pow256Of8();
    FromBigEndian(bytes)
  }

  // ---------------------------------------------------------------------------
  // Encoding
  // ---------------------------------------------------------------------------

  /** For each word, whether it equals `x`. */
  function Marks(words: seq<U64>, x: U64): (bits: seq<bool>)
    ensures |bits| == |words|
  {
    seq(|words|, i requires 0 <= i < |words| => words[i] == x)
  }

  function KeptOf(word: U64): seq<Byte> {
    if word == 0 || word == U64_MAX then [] else ToBigEndian(word, 8)
  }

  /** The words that neither bitmap marks. */
  function Kept(words: seq<U64>): seq<Byte> {
    if words == [] then []
    else KeptOf(words[0]) + Kept(words[1..])
  }

  function Encode(words: seq<U64>): seq<Byte> {
    FromBits(Marks(words, 0)) + FromBits(Marks(words, U64_MAX)) + Kept(words)
  }

  /** Bit `j` from the top of byte `q` says whether word `8 * q + j` is all zeros; of byte `16 + q`, all ones. */
  lemma BitmapsMark(words: seq<U64>, q: nat, j: nat)
    requires |words| == WORDS && q < 16 && j < 8
    ensures |Encode(words)| >= 32
    ensures BitsOf(Encode(words)[q], 8)[j] <==> words[8 * q + j] == 0
    ensures BitsOf(Encode(words)[16 + q], 8)[j] <==> words[8 * q + j] == U64_MAX
  {
    BitmapMarks(words, 0, q, j);
    BitmapMarks(words, U64_MAX, q, j);
  }

  lemma BitmapMarks(words: seq<U64>, x: U64, q: nat, j: nat)
    requires |words| == WORDS && q < 16 && j < 8
    ensures |FromBits(Marks(words, x))| == 16
    ensures BitsOf(FromBits(Marks(words, x))[q], 8)[j] <==> words[8 * q + j] == x
  {
    var bits := Marks(words, x);
    ToFromBits(bits);
    BitAt(FromBits(bits), q, j);
  }

  lemma MarksSnoc(words: seq<U64>, i: nat, x: U64)
    requires i < |words|
    ensures Marks(words[..i + 1], x) == Marks(words[..i], x) + [words[i] == x]
  {
  }

  lemma KeptStep(keep: seq<Byte>, words: seq<U64>, i: nat)
    requires i < |words|
    ensures keep + KeptOf(words[i]) + Kept(words[i + 1..]) == keep + Kept(words[i..])
  {
    assert words[i..][1..] == words[i + 1..];
    KeptJoin(keep, KeptOf(words[i]), Kept(words[i + 1..]));
  }

  lemma KeptJoin(a: seq<Byte>, b: seq<Byte>, c: seq<Byte>)
    ensures a + b + c == a + (b + c) && a + [] == a
  {
  }

  method EncodeBloom(words: seq<U64>) returns (out: seq<Byte>)
    requires |words| == WORDS
    ensures out == Encode(words)
  {
    var zeros, ones: seq<bool>, keep: seq<Byte> := [], [], [];
    for i := 0 to |words|
      invariant zeros == Marks(words[..i], 0) && ones == Marks(words[..i], U64_MAX)
      invariant keep + Kept(words[i..]) == Kept(words)
    {
      KeptStep(keep, words, i);
      KeptJoin(keep, [], []);
      MarksSnoc(words, i, 0);
      MarksSnoc(words, i, U64_MAX);
      zeros := zeros + [words[i] == 0];
      ones := ones + [words[i] != 0 && words[i] == U64_MAX];
      if words[i] != 0 && words[i] != U64_MAX {
        keep := keep + ToBigEndian(words[i], 8);
      }
    }
    assert words[..|words|] == words && keep + [] == keep;
    out := FromBits(zeros) + FromBits(ones) + keep;
  }

  method BloomWireSize(words: seq<U64>) returns (size: nat)
    requires |words| == WORDS
    ensures size == |Encode(words)|
  {
    size := 16 * 2;
    for i := 0 to |words|
      invariant size + |Kept(words[i..])| == 32 + |Kept(words)|
    {
      assert words[i..][1..] == words[i + 1..];
      if words[i] != 0 && words[i] != U64_MAX {
        size := size + 8;
      }
    }
  }

  // ---------------------------------------------------------------------------
  // Decoding
  // ---------------------------------------------------------------------------

  /** The words described by the bitmaps, taking the unmarked ones from `data`, all of which must
      be used up. A word cannot be marked both ways. */
  function TakeWords(zeros: seq<bool>, ones: seq<bool>, data: seq<Byte>): (r: Option<seq<U64>>)
    requires |zeros| == |ones|
    ensures r.Some? ==> |r.value| == |zeros|
  {
    if zeros == [] then (if data == [] then Some([]) else None)
    else if zeros[0] && ones[0] then None
    else if zeros[0] then Prepend(0, TakeWords(zeros[1..], ones[1..], data))
    else if ones[0] then Prepend(U64_MAX, TakeWords(zeros[1..], ones[1..], data))
    else if |data| < 8 then None
    else Prepend(Word(data[..8]), TakeWords(zeros[1..], ones[1..], data[8..]))
  }

  function Prepend(w: U64, r: Option<seq<U64>>): Option<seq<U64>> {
    match r
    case Some(ws) => Some([w] + ws)
    case None => None
  }

  function Decode(data: seq<Byte>): Option<seq<U64>> {
    if |data| < 32 then None else TakeWords(ToBits(data[..16]), ToBits(data[16..32]), data[32..])
  }

  /** Words already decoded in front of the result for the rest. */
  ghost function Resume(done: seq<U64>, r: Option<seq<U64>>): Option<seq<U64>> {
    match r
    case Some(ws) => Some(done + ws)
    case None => None
  }

  lemma ResumeEnds(done: seq<U64>, r: Option<seq<U64>>)
    ensures Resume([], r) == r && Resume(done, Some([])) == Some(done)
  {
    assert done + [] == done;
    if r.Some? {
      assert [] + r.value == r.value;
    }
  }

  lemma ResumeSnoc(done: seq<U64>, w: U64, r: Option<seq<U64>>)
    ensures Resume(done, Prepend(w, r)) == Resume(done + [w], r)
  {
    if r.Some? {
      assert done + ([w] + r.value) == done + [w] + r.value;
    }
  }

  method DecodeBloom(data: seq<Byte>) returns (r: Option<seq<U64>>)
    ensures r == Decode(data)
  {
    if |data| < 16 || |data| - 16 < 16 {
      return None;
    }
    var zeros, ones, rest := ToBits(data[..16]), ToBits(data[16..32]), data[32..];
    var words: seq<U64> := [];
    ResumeEnds([], Decode(data));
    assert zeros[0..] == zeros && ones[0..] == ones;
    for i := 0 to WORDS
      invariant |words| == i
      invariant Decode(data) == Resume(words, TakeWords(zeros[i..], ones[i..], rest))
    {
      assert zeros[i..][1..] == zeros[i + 1..] && ones[i..][1..] == ones[i + 1..];
      if zeros[i] && ones[i] {
        return None;
      }
      if !zeros[i] && !ones[i] && |rest| < 8 {
        return None;
      }
      var w := if zeros[i] then 0 else if ones[i] then U64_MAX else Word(rest[..8]);
      if !zeros[i] && !ones[i] {
        rest := rest[8..];
      }
      ResumeSnoc(words, w, TakeWords(zeros[i + 1..], ones[i + 1..], rest));
      words := words + [w];
    }
    ResumeEnds(words, None);
    r := if rest != [] then None else Some(words);
  }

  lemma MarksTail(words: seq<U64>, x: U64)
    requires words != []
    ensures Marks(words, x)[0] == (words[0] == x) && Marks(words, x)[1..] == Marks(words[1..], x)
  {
  }

  lemma TakeMarked(w: U64, zeros: seq<bool>, ones: seq<bool>, data: seq<Byte>, tail: seq<U64>)
    requires |zeros| == |ones| > 0 && zeros[0] == (w == 0) && ones[0] == (w == U64_MAX) && (w == 0 || w == U64_MAX)
    requires TakeWords(zeros[1..], ones[1..], data) == Some(tail)
    ensures TakeWords(zeros, ones, data) == Some([w] + tail)
  {
  }

  lemma TakeKept(w: U64, zeros: seq<bool>, ones: seq<bool>, bytes: seq<Byte>, data: seq<Byte>, tail: seq<U64>)
    requires |zeros| == |ones| > 0 && !zeros[0] && !ones[0] && |bytes| == 8 && Word(bytes) == w
    requires TakeWords(zeros[1..], ones[1..], data) == Some(tail)
    ensures TakeWords(zeros, ones, bytes + data) == Some([w] + tail)
  {
    assert (bytes + data)[..8] == bytes && (bytes + data)[8..] == data;
  }

  lemma WordBack(w: U64)
    ensures Word(ToBigEndian(w, 8)) == w
  {
    Pow256Of8();
    BigEndianRoundTrip(w, 8);
  }

  lemma {:induction false} TakeWordsBack(words: seq<U64>)
    ensures TakeWords(Marks(words, 0), Marks(words, U64_MAX), Kept(words)) == Some(words)
  {
    if words == [] {
    } else {
      var w, tail := words[0], words[1..];
      var zeros, ones := Marks(words, 0), Marks(words, U64_MAX);
      TakeWordsBack(tail);
      MarksTail(words, 0);
      MarksTail(words, U64_MAX);
      assert words == [w] + tail;
      if w == 0 || w == U64_MAX {
        assert Kept(words) == [] + Kept(tail) == Kept(tail);
        TakeMarked(w, zeros, ones, Kept(tail), tail);
      } else {
        WordBack(w);
        TakeKept(w, zeros, ones, ToBigEndian(w, 8), Kept(tail), tail);
      }
    }
  }

  /** Decoding a filter inverts encoding it. */
  lemma BloomRoundTrip(words: seq<U64>)
    requires |words| == WORDS
    ensures Decode(Encode(words)) == Some(words)
  {
    var data, zeros, ones := Encode(words), Marks(words, 0), Marks(words, U64_MAX);
    assert data[..16] == FromBits(zeros) && data[16..32] == FromBits(ones) && data[32..] == Kept(words);
    ToFromBits(zeros);
    ToFromBits(ones);
    TakeWordsBack(words);
  }
}
