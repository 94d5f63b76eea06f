/** Addresses and subnets derived from public keys, the partial keys recovered from them, and the
    key transform under which bloom filters store and look up nodes. */
module Address {
  import opened Basics
  import opened Bits

  // ---------------------------------------------------------------------------
  // Bit-level definitions
  // ---------------------------------------------------------------------------

  function Not(bits: seq<bool>): (r: seq<bool>)
    ensures |r| == |bits|
    ensures forall i :: 0 <= i < |bits| ==> r[i] == !bits[i]
  {
    seq(|bits|, i requires 0 <= i < |bits| => !bits[i])
  }

  /** Length of the initial run of ones. */
  function LeadingOnes(bits: seq<bool>): (n: nat)
    ensures n <= |bits|
    ensures forall i :: 0 <= i < n ==> bits[i]
    ensures n < |bits| ==> !bits[n]
  {
    if bits == [] || !bits[0] then 0 else 1 + LeadingOnes(bits[1..])
  }

  lemma LeadingOnesIs(bits: seq<bool>, n: nat)
    requires n < |bits| && !bits[n] && forall i :: 0 <= i < n ==> bits[i]
    ensures LeadingOnes(bits) == n
  {
  }

  function Zeros(n: nat): (s: seq<Byte>)
    ensures |s| == n && forall i :: 0 <= i < n ==> s[i] == 0
  {
    seq(n, i => 0)
  }

  /** The first `n` bytes of `s`, with zeros appended if there are fewer. */
  function Fit(s: seq<Byte>, n: nat): (r: seq<Byte>)
    ensures |r| == n
    ensures forall i :: 0 <= i < n ==> r[i] == if i < |s| then s[i] else 0
  {
    if |s| >= n then s[..n] else s + Zeros(n - |s|)
  }

  /** Address of a key, from the inverted key's bits: the prefix, how many leading ones (at most 255),
      and the whole bytes that the bits after the first zero fill, as many as there is room for. */
  function AddressOf(prefix: Byte, inverted: seq<bool>): (addr: seq<Byte>)
    requires |inverted| == 256
    ensures |addr| == 16
  {
    var ones := LeadingOnes(inverted);
    var tail := if ones < 256 then inverted[ones + 1..] else [];
    var count := if ones < 255 then ones else 255;
    [prefix, count] + Fit(FromBits(tail), 14)
  }

  function AddrForKey(prefix: Byte, key: seq<Byte>): seq<Byte>
    requires |key| == 32
  {
    AddressOf(prefix, Not(ToBits(key)))
  }

  /** Bit `i` of the inverted key recovered from an address. */
  function RecoveredBit(addr: seq<Byte>, i: nat): bool
    requires |addr| == 16 && i < 256
  {
    var ones: nat := addr[1];
    if i < ones then true
    else if i == ones || i > ones + 112 then false
    else ToBits(addr[2..])[i - ones - 1]
  }

  function Recovered(addr: seq<Byte>): (bits: seq<bool>)
    requires |addr| == 16
    ensures |bits| == 256
  {
    seq(256, i requires 0 <= i < 256 => RecoveredBit(addr, i))
  }

  function KeyOfAddress(addr: seq<Byte>): (key: seq<Byte>)
    requires |addr| == 16
    ensures |key| == 32
  {
    FromBits(Not(Recovered(addr)))
  }

  // ---------------------------------------------------------------------------
  // The loops that compute them
  // ---------------------------------------------------------------------------

  lemma {:induction false} BitsOfComplement(b: nat, w: nat)
    requires b < Pow2(w)
    ensures BitsOf(Pow2(w) - 1 - b, w) == Not(BitsOf(b, w))
  {
    if w == 0 {
    } else {
      BitsOfComplement(b / 2, w - 1);
      assert (Pow2(w) - 1 - b) / 2 == Pow2(w - 1) - 1 - b / 2;
      assert (Pow2(w) - 1 - b) % 2 == 1 - b % 2;
    }
  }

  /** Byte-wise complement. */
  function Complement(bytes: seq<Byte>): (r: seq<Byte>)
    ensures |r| == |bytes|
  {
    if bytes == [] then [] else [255 - bytes[0]] + Complement(bytes[1..])
  }

  lemma NotJoin(a: seq<bool>, b: seq<bool>)
    ensures Not(a + b) == Not(a) + Not(b)
  {
  }

  lemma {:induction false} ComplementBits(bytes: seq<Byte>)
    ensures ToBits(Complement(bytes)) == Not(ToBits(bytes))
  {
    if bytes == [] {
    } else {
      Pow2Of8();
      BitsOfComplement(bytes[0], 8);
      ComplementBits(bytes[1..]);
      NotJoin(BitsOf(bytes[0], 8), ToBits(bytes[1..]));
      assert Complement(bytes)[0] == 255 - bytes[0] && Complement(bytes)[1..] == Complement(bytes[1..]);
    }
  }

  lemma {:induction false} FromBitsSnoc(whole: seq<bool>, last: seq<bool>)
    requires |whole| % 8 == 0 && |last| == 8
    ensures FromBits(whole + last) == FromBits(whole) + [PackByte(last)]
  {
    if whole == [] {
      assert whole + last == last && last[..8] == last && last[8..] == [];
    } else {
      assert (whole + last)[..8] == whole[..8] && (whole + last)[8..] == whole[8..] + last;
      FromBitsSnoc(whole[8..], last);
    }
  }

  lemma {:induction false} FromBitsPartial(whole: seq<bool>, rest: seq<bool>)
    requires |whole| % 8 == 0 && |rest| < 8
    ensures FromBits(whole + rest) == FromBits(whole)
  {
    if whole == [] {
    } else {
      assert (whole + rest)[..8] == whole[..8] && (whole + rest)[8..] == whole[8..] + rest;
      FromBitsPartial(whole[8..], rest);
    }
  }

  /** Gathers bits into bytes; `whole` have been packed, `part` are pending. */
  ghost predicate Gathered(bits: seq<bool>, temp: seq<Byte>, acc: nat, n: nat) {
    && n < 8 && n <= |bits| && |bits| == 8 * |temp| + n
    && temp == FromBits(bits[..8 * |temp|])
    && acc == Pack(bits[8 * |temp|..])
  }

  lemma SplitSnoc(bits: seq<bool>, bit: bool, m: nat)
    requires m <= |bits|
    ensures (bits + [bit])[..m] == bits[..m] && (bits + [bit])[m..] == bits[m..] + [bit]
    ensures bits + [bit] == bits[..m] + (bits[m..] + [bit])
  {
  }

  lemma GatherStep(bits: seq<bool>, temp: seq<Byte>, acc: nat, n: nat, bit: bool)
    requires Gathered(bits, temp, acc, n)
    ensures var acc' := 2 * acc + (if bit then 1 else 0);
            if n < 7 then Gathered(bits + [bit], temp, acc', n + 1)
            else acc' < 256 && Gathered(bits + [bit], temp + [acc'], 0, 0)
  {
    var m := 8 * |temp|;
    var whole, part := bits[..m], bits[m..] + [bit];
    SplitSnoc(bits, bit, m);
    assert part[..|part| - 1] == bits[m..];
    if n == 7 {
      Pow2Of8();
      FromBitsSnoc(whole, part);
      assert (bits + [bit])[..m + 8] == bits + [bit];
    }
  }

  lemma GatherEnd(bits: seq<bool>, temp: seq<Byte>, acc: nat, n: nat)
    requires Gathered(bits, temp, acc, n)
    ensures temp == FromBits(bits)
  {
    assert bits == bits[..8 * |temp|] + bits[8 * |temp|..];
    FromBitsPartial(bits[..8 * |temp|], bits[8 * |temp|..]);
  }

  /** Shift one more bit in; a full byte is appended. */
  method Gather(ghost bits: seq<bool>, temp: seq<Byte>, acc: nat, n: nat, bit: bool)
    returns (temp': seq<Byte>, acc': nat, n': nat)
    requires Gathered(bits, temp, acc, n)
    ensures Gathered(bits + [bit], temp', acc', n')
  {
    GatherStep(bits, temp, acc, n, bit);
    temp', acc', n' := temp, 2 * acc + (if bit then 1 else 0), n + 1;
    if n' == 8 {
      temp' := temp' + [acc'];
      acc', n' := 0, 0;
    }
  }

  /** Reading bit `i` through its byte and mask. */
  method GetBit(bytes: seq<Byte>, i: nat) returns (bit: bool)
    requires i < 8 * |bytes|
    ensures bit == ToBits(bytes)[i]
  {
    BitAt(bytes, i / 8, i % 8);
    bit := BitsOf(bytes[i / 8], 8)[i % 8];
  }

  /** After `idx` bits: still among the leading ones, or past the first zero with the bits since then gathered. */
  ghost predicate Scanned(all: seq<bool>, idx: nat, done: bool, ones: nat, temp: seq<Byte>, acc: nat, n: nat) {
    && ones <= idx <= |all| && (forall i :: 0 <= i < ones ==> all[i])
    && if done then ones < idx && !all[ones] && Gathered(all[ones + 1..idx], temp, acc, n)
       else ones == idx && temp == [] && acc == 0 && n == 0
  }

  lemma ScannedZero(all: seq<bool>, idx: nat)
    requires idx < |all| && !all[idx] && forall i :: 0 <= i < idx ==> all[i]
    ensures Scanned(all, idx + 1, true, idx, [], 0, 0)
  {
    assert all[idx + 1..idx + 1] == [];
  }

  lemma ScannedMore(all: seq<bool>, idx: nat, ones: nat, temp: seq<Byte>, acc: nat, n: nat, temp': seq<Byte>, acc': nat, n': nat)
    requires idx < |all| && Scanned(all, idx, true, ones, temp, acc, n)
    requires Gathered(all[ones + 1..idx] + [all[idx]], temp', acc', n')
    ensures Scanned(all, idx + 1, true, ones, temp', acc', n')
  {
    assert all[ones + 1..idx + 1] == all[ones + 1..idx] + [all[idx]];
  }

  lemma ScannedTail(all: seq<bool>, ones: nat, tail: seq<bool>, temp: seq<Byte>, acc: nat, n: nat)
    requires ones < |all| && tail == all[ones + 1..|all|] && Gathered(tail, temp, acc, n)
    ensures tail == all[ones + 1..] && temp == FromBits(tail)
  {
    GatherEnd(tail, temp, acc, n);
  }

  lemma ScannedAll(all: seq<bool>, done: bool, ones: nat, temp: seq<Byte>, acc: nat, n: nat)
    requires Scanned(all, |all|, done, ones, temp, acc, n)
    ensures ones == LeadingOnes(all) && temp == FromBits(if ones < |all| then all[ones + 1..] else [])
  {
    if done {
      LeadingOnesIs(all, ones);
      ScannedTail(all, ones, all[ones + 1..|all|], temp, acc, n);
    } else {
      assert LeadingOnes(all) == |all|;
      assert FromBits([]) == [];
    }
  }

  /** One pass over the bits: count the leading ones, skip the zero, gather the rest into bytes. */
  method CountAndGather(buf: seq<Byte>) returns (ones: nat, temp: seq<Byte>)
    requires |buf| == 32
    ensures ones == LeadingOnes(ToBits(buf))
    ensures temp == FromBits(if ones < 256 then ToBits(buf)[ones + 1..] else [])
  {
    ghost var all := ToBits(buf);
    var done := false;
    var acc: nat, n: nat := 0, 0;
    ones, temp := 0, [];
    for idx := 0 to 256
      invariant Scanned(all, idx, done, ones, temp, acc, n)
    {
      var bit := GetBit(buf, idx);
      if !done && bit {
        ones := ones + 1;
        continue;
      }
      if !done {
        ScannedZero(all, idx);
        done := true;
        continue;
      }
      var temp', acc', n' := Gather(all[ones + 1..idx], temp, acc, n, bit);
      ScannedMore(all, idx, ones, temp, acc, n, temp', acc', n');
      temp, acc, n := temp', acc', n';
    }
    ScannedAll(all, done, ones, temp, acc, n);
  }

  method ComputeAddress(prefix: Byte, key: seq<Byte>) returns (addr: seq<Byte>)
    requires |key| == 32
    ensures addr == AddrForKey(prefix, key)
  {
    ComplementBits(key);
    var ones, temp := CountAndGather(Complement(key));
    var count := if ones < 255 then ones else 255;
    var copied := if |temp| < 14 then temp else temp[..14];
    assert copied + Zeros(14 - |copied|) == Fit(temp, 14);
    addr := [prefix, count] + (copied + Zeros(14 - |copied|));
  }

  method ComputeKey(addr: seq<Byte>) returns (key: seq<Byte>)
    requires |addr| == 16
    ensures key == KeyOfAddress(addr)
  {
    var ones: nat := addr[1];
    var bits := new bool[256](i => false);
    for idx := 0 to ones
      invariant forall i :: 0 <= i < 256 ==> bits[i] == (i < idx)
    {
      bits[idx] := true;
    }
    var offset := ones + 1;
    for idx := 0 to 112
      invariant forall i :: 0 <= i < 256 ==> bits[i] == if i < offset + idx then RecoveredBit(addr, i) else false
    {
      if offset + idx >= 256 {
        break;
      }
      var bit := GetBit(addr[2..], idx);
      if bit {
        bits[offset + idx] := true;
      }
    }
    assert bits[..] == Recovered(addr);
    for i := 0 to 256
      invariant forall j :: 0 <= j < 256 ==> bits[j] == if j < i then !Recovered(addr)[j] else Recovered(addr)[j]
    {
      bits[i] := !bits[i];
    }
    assert bits[..] == Not(Recovered(addr));
    key := FromBits(bits[..]);
  }

  // ---------------------------------------------------------------------------
  // Subnets
  // ---------------------------------------------------------------------------

  /** The subnet that goes with an address: its first half, with the low bit of the first byte set. */
  function SubnetOf(addr: seq<Byte>): (subnet: seq<Byte>)
    requires |addr| == 16
    ensures |subnet| == 8
  {
    [if addr[0] % 2 == 0 then addr[0] + 1 else addr[0]] + addr[1..8]
  }

  function SubnetForKey(prefix: Byte, key: seq<Byte>): (subnet: seq<Byte>)
    requires |key| == 32
    ensures |subnet| == 8
  {
    SubnetOf(AddrForKey(prefix, key))
  }

  function KeyOfSubnet(subnet: seq<Byte>): (key: seq<Byte>)
    requires |subnet| == 8
    ensures |key| == 32
  {
    KeyOfAddress([subnet[0] - subnet[0] % 2] + subnet[1..] + Zeros(8))
  }

  /** The transform applied to keys before they go into or are looked up in a bloom filter. */
  function BloomTransform(prefix: Byte, key: seq<Byte>): (t: seq<Byte>)
    requires |key| == 32
    ensures |t| == 32
  {
    KeyOfSubnet(SubnetForKey(prefix, key))
  }

  // ---------------------------------------------------------------------------
  // Theorems
  // ---------------------------------------------------------------------------

  /** Whole bytes left in a 256-bit key after `ones` leading ones and a zero. */
  function Room(ones: Byte): nat {
    (255 - ones) / 8
  }

  /** The address has nothing in bytes that no key could put there. */
  ghost predicate Canonical(prefix: Byte, addr: seq<Byte>) {
    && |addr| == 16 && addr[0] == prefix
    && forall i :: 2 + Room(addr[1]) <= i < 16 ==> addr[i] == 0
  }

  lemma AddressCanonical(prefix: Byte, key: seq<Byte>)
    requires |key| == 32
    ensures Canonical(prefix, AddrForKey(prefix, key))
  {
  }

  lemma InvertRecovered(addr: seq<Byte>)
    requires |addr| == 16
    ensures Not(ToBits(KeyOfAddress(addr))) == Recovered(addr)
  {
    ToFromBits(Not(Recovered(addr)));
  }

  lemma FirstByte(bits: seq<bool>, bytes: seq<Byte>)
    requires bytes != [] && |bits| >= 8 && forall i :: 0 <= i < 8 ==> bits[i] == ToBits(bytes)[i]
    ensures PackByte(bits[..8]) == bytes[0]
  {
    assert bits[..8] == BitsOf(bytes[0], 8);
    Pow2Of8();
    PackBitsOf(bytes[0], 8);
  }

  lemma {:induction false} FromBitsPrefix(bits: seq<bool>, bytes: seq<Byte>, m: nat)
    requires m <= |bytes| && 8 * m <= |bits|
    requires forall i :: 0 <= i < 8 * m ==> bits[i] == ToBits(bytes)[i]
    ensures m <= |FromBits(bits)| && FromBits(bits)[..m] == bytes[..m]
  {
    if m == 0 {
    } else {
      FirstByte(bits, bytes);
      forall i | 0 <= i < 8 * (m - 1)
        ensures bits[8..][i] == ToBits(bytes[1..])[i]
      {
        assert bits[8 + i] == ToBits(bytes)[8 + i];
      }
      FromBitsPrefix(bits[8..], bytes[1..], m - 1);
      var more := FromBits(bits[8..]);
      assert FromBits(bits) == [bytes[0]] + more;
      assert ([bytes[0]] + more)[..m] == [bytes[0]] + more[..m - 1];
      assert bytes[..m] == [bytes[0]] + bytes[1..][..m - 1];
    }
  }

  /** The bits recovered behind the first zero. */
  function RecoveredTail(addr: seq<Byte>): seq<bool>
    requires |addr| == 16
  {
    Recovered(addr)[addr[1] + 1..]
  }

  lemma RecoveredPrefix(addr: seq<Byte>, m: nat)
    requires |addr| == 16 && m <= 14 && m <= Room(addr[1])
    ensures m <= |FromBits(RecoveredTail(addr))| && FromBits(RecoveredTail(addr))[..m] == addr[2..][..m]
  {
    forall i | 0 <= i < 8 * m
      ensures RecoveredTail(addr)[i] == ToBits(addr[2..])[i]
    {
    }
    FromBitsPrefix(RecoveredTail(addr), addr[2..], m);
  }

  lemma RecoveredAddress(prefix: Byte, addr: seq<Byte>)
    requires |addr| == 16
    ensures AddrForKey(prefix, KeyOfAddress(addr)) == [prefix, addr[1]] + Fit(FromBits(RecoveredTail(addr)), 14)
  {
    InvertRecovered(addr);
    LeadingOnesIs(Recovered(addr), addr[1]);
  }

  lemma RecoveredFits(prefix: Byte, addr: seq<Byte>)
    requires Canonical(prefix, addr)
    ensures Fit(FromBits(RecoveredTail(addr)), 14) == addr[2..]
  {
    var m, bytes := Min(Room(addr[1]), 14), FromBits(RecoveredTail(addr));
    RecoveredPrefix(addr, m);
    forall i | 0 <= i < 14
      ensures Fit(bytes, 14)[i] == addr[2..][i]
    {
      assert i < m ==> bytes[i] == bytes[..m][i] == addr[2..][..m][i];
    }
  }

  /** An address is the address of the key recovered from it exactly when it is canonical. */
  lemma RecoverThenAddress(prefix: Byte, addr: seq<Byte>)
    requires |addr| == 16
    ensures AddrForKey(prefix, KeyOfAddress(addr)) == addr <==> Canonical(prefix, addr)
  {
    AddressCanonical(prefix, KeyOfAddress(addr));
    if Canonical(prefix, addr) {
      RecoveredAddress(prefix, addr);
      RecoveredFits(prefix, addr);
      assert addr == [addr[0], addr[1]] + addr[2..];
    }
  }

  /** Every address survives the detour through the partial key recovered from it. */
  lemma AddressRoundTrip(prefix: Byte, key: seq<Byte>)
    requires |key| == 32
    ensures AddrForKey(prefix, KeyOfAddress(AddrForKey(prefix, key))) == AddrForKey(prefix, key)
  {
    AddressCanonical(prefix, key);
    RecoverThenAddress(prefix, AddrForKey(prefix, key));
  }

  /** Recovery does not look at the prefix. */
  lemma KeyIgnoresPrefix(a: seq<Byte>, b: seq<Byte>)
    requires |a| == |b| == 16 && a[1..] == b[1..]
    ensures KeyOfAddress(a) == KeyOfAddress(b)
  {
    assert a[1] == a[1..][0] == b[1..][0] == b[1];
    assert a[2..] == a[1..][1..] == b[1..][1..] == b[2..];
    assert Recovered(a) == Recovered(b);
  }

  /** The address with everything past its first eight bytes cleared. */
  function Truncated(addr: seq<Byte>): (r: seq<Byte>)
    requires |addr| == 16
    ensures |r| == 16
  {
    addr[..8] + Zeros(8)
  }

  lemma SubnetIsTruncation(addr: seq<Byte>)
    requires |addr| == 16
    ensures KeyOfSubnet(SubnetOf(addr)) == KeyOfAddress(Truncated(addr))
  {
    var subnet := SubnetOf(addr);
    var back := [subnet[0] - subnet[0] % 2] + subnet[1..] + Zeros(8);
    assert subnet[1..] == addr[1..8];
    assert back[1..] == addr[1..8] + Zeros(8) == Truncated(addr)[1..];
    KeyIgnoresPrefix(back, Truncated(addr));
  }

  lemma TransformIsTruncation(prefix: Byte, key: seq<Byte>)
    requires |key| == 32
    ensures BloomTransform(prefix, key) == KeyOfAddress(Truncated(AddrForKey(prefix, key)))
  {
    SubnetIsTruncation(AddrForKey(prefix, key));
  }

  /** The transform agrees on a key and on the partial key recovered from its address, so a lookup
      that knows only the address finds the node. */
  lemma TransformOfAddressKey(prefix: Byte, key: seq<Byte>)
    requires |key| == 32
    ensures BloomTransform(prefix, KeyOfAddress(AddrForKey(prefix, key))) == BloomTransform(prefix, key)
  {
    AddressRoundTrip(prefix, key);
  }

  /** The transform is idempotent: it also agrees on the partial key recovered from the subnet. */
  lemma TransformIdempotent(prefix: Byte, key: seq<Byte>)
    requires |key| == 32
    ensures BloomTransform(prefix, BloomTransform(prefix, key)) == BloomTransform(prefix, key)
  {
    var addr := AddrForKey(prefix, key);
    var short := Truncated(addr);
    TransformIsTruncation(prefix, key);
    TransformIsTruncation(prefix, KeyOfAddress(short));
    AddressCanonical(prefix, key);
    assert Canonical(prefix, short);
    RecoverThenAddress(prefix, short);
    assert Truncated(short) == short;
  }

  /** A derived subnet passes the validity test, which expects the prefix plus one, exactly when
      the configured prefix is even. */
  lemma SubnetValidIffEven(prefix: Byte, key: seq<Byte>)
    requires |key| == 32
    ensures SubnetForKey(prefix, key)[0] == (prefix + 1) % 256 <==> prefix % 2 == 0
  {
    assert AddrForKey(prefix, key)[0] == prefix;
  }
}
