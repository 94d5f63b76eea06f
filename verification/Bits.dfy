/** Bytes, and bytes as bits with the most significant bit first. */
module Bits {

  type Byte = b: nat | b < 256

  function Pow2(n: nat): (p: nat)
    ensures p > 0
  {
    if n == 0 then 1 else 2 * Pow2(n - 1)
  }

  /** The low `w` bits of `n`; bit `j` of the result is what the mask `1 << (w - 1 - j)` selects. */
  function BitsOf(n: nat, w: nat): (bits: seq<bool>)
    ensures |bits| == w
  {
    if w == 0 then [] else BitsOf(n / 2, w - 1) + [n % 2 == 1]
  }

  /** The number these bits spell: shift left and add, bit by bit. */
  function Pack(bits: seq<bool>): (n: nat)
    ensures n < Pow2(|bits|)
  {
    if bits == [] then 0
    else 2 * Pack(bits[..|bits| - 1]) + (if bits[|bits| - 1] then 1 else 0)
  }

  lemma {:induction false} BitsOfPack(bits: seq<bool>)
    ensures BitsOf(Pack(bits), |bits|) == bits
  {
    if bits == [] {
    } else {
      var init := bits[..|bits| - 1];
      BitsOfPack(init);
      assert Pack(bits) / 2 == Pack(init);
      assert bits == init + [bits[|bits| - 1]];
    }
  }

  lemma {:induction false} PackBitsOf(n: nat, w: nat)
    requires n < Pow2(w)
    ensures Pack(BitsOf(n, w)) == n
  {
    if w == 0 {
    } else {
      PackBitsOf(n / 2, w - 1);
      assert BitsOf(n, w)[..w - 1] == BitsOf(n / 2, w - 1);
    }
  }

  lemma Pow2Of8()
    ensures Pow2(8) == 256
  {
    assert Pow2(4) == 16;
  }

  function PackByte(bits: seq<bool>): Byte
    requires |bits| == 8
  {
    Pow2Of8();
    Pack(bits)
  }

  /** All bits of a byte string. */
  function ToBits(bytes: seq<Byte>): (bits: seq<bool>)
    ensures |bits| == 8 * |bytes|
  {
    if bytes == [] then [] else BitsOf(bytes[0], 8) + ToBits(bytes[1..])
  }

  /** The byte string with these bits; bits that do not fill a byte are dropped. */
  function FromBits(bits: seq<bool>): (bytes: seq<Byte>)
    ensures |bytes| == |bits| / 8
  {
    if |bits| < 8 then [] else [PackByte(bits[..8])] + FromBits(bits[8..])
  }

  lemma {:induction false} ToFromBits(bits: seq<bool>)
    requires |bits| % 8 == 0
    ensures ToBits(FromBits(bits)) == bits
  {
    if |bits| < 8 {
    } else {
      BitsOfPack(bits[..8]);
      ToFromBits(bits[8..]);
      assert bits == bits[..8] + bits[8..];
    }
  }

  lemma {:induction false} FromToBits(bytes: seq<Byte>)
    ensures FromBits(ToBits(bytes)) == bytes
  {
    if bytes == [] {
    } else {
      Pow2Of8();
      PackBitsOf(bytes[0], 8);
      FromToBits(bytes[1..]);
      assert ToBits(bytes)[..8] == BitsOf(bytes[0], 8) && ToBits(bytes)[8..] == ToBits(bytes[1..]);
    }
  }

  /** Bit `j` of byte `q` is bit `8 * q + j` of the string. */
  lemma {:induction false} BitAt(bytes: seq<Byte>, q: nat, j: nat)
    requires q < |bytes| && j < 8
    ensures 8 * q + j < |ToBits(bytes)|
    ensures ToBits(bytes)[8 * q + j] == BitsOf(bytes[q], 8)[j]
  {
    if q == 0 {
    } else {
      BitAt(bytes[1..], q - 1, j);
    }
  }
}
