/** The wire format: variable-length integers, zero-terminated paths, messages and frames. */
module Wire {
  import opened Basics
  import opened Bits

  // ---------------------------------------------------------------------------
  // Variable-length integers
  // ---------------------------------------------------------------------------

  /** Groups of seven bits, least significant first, each but the last marked by the high bit. */
  function Uvarint(value: nat): (bytes: seq<Byte>)
    ensures |bytes| > 0
  {
    if value < 128 then [value] else [value % 128 + 128] + Uvarint(value / 128)
  }

  /** The number that groups of seven bits spell, least significant first. */
  ghost function Spelled(bytes: seq<Byte>): nat {
    if bytes == [] then 0 else bytes[0] % 128 + 128 * Spelled(bytes[1..])
  }

  /** A varint spells its value, marks all bytes but the last, and has no superfluous last byte. */
  lemma {:induction false} UvarintSpells(value: nat)
    ensures var bytes := Uvarint(value);
            && Spelled(bytes) == value && Last(bytes) < 128 && (|bytes| > 1 ==> Last(bytes) > 0)
            && forall i :: 0 <= i < |bytes| - 1 ==> bytes[i] >= 128
  {
    if value < 128 {
      assert Spelled([value][1..]) == 0;
    } else {
      var tail := Uvarint(value / 128);
      UvarintSpells(value / 128);
      assert Uvarint(value) == [value % 128 + 128] + tail && Uvarint(value)[1..] == tail;
    }
  }

  method EncodeUvarint(out: seq<Byte>, value: U64) returns (out': seq<Byte>)
    ensures out' == out + Uvarint(value)
  {
    out' := out;
    var v := value;
    while true
      invariant out' + Uvarint(v) == out + Uvarint(value)
      decreases v
    {
      var byte := v % 128;
      v := v / 128;
      if v != 0 {
        byte := byte + 128;
      }
      out' := out' + [byte];
      if v == 0 {
        break;
      }
    }
  }

  method UvarintSize(value: U64) returns (size: nat)
    ensures size == |Uvarint(value)|
  {
    size := 1;
    var v := value;
    while v >= 128
      invariant size + |Uvarint(v)| == 1 + |Uvarint(value)|
    {
      v := v / 128;
      size := size + 1;
    }
  }

  /** A value and the number of bytes it was read from. */
  datatype Read<+T> = Read(value: T, used: nat)

  /** One more than the largest value that group `i` and those after it may spell. */
  function Bound(i: nat): nat
    requires i <= 9
    decreases 9 - i
  {
    if i == 9 then 2 else 128 * Bound(i + 1)
  }

  lemma BoundIs64Bits()
    ensures Bound(0) == U64_MAX + 1
  {
    assert Bound(7) == 32768;
    assert Bound(5) == 536870912;
    assert Bound(3) == 8796093022208;
    assert Bound(1) == 144115188075855872;
  }

  lemma {:induction false} BoundLow(i: nat)
    requires i <= 9
    ensures Bound(i) >= if i < 9 then 256 else 2
    decreases 9 - i
  {
    if i >= 9 {
    } else {
      BoundLow(i + 1);
    }
  }

  /** Value of the integer at the front of `data`, if its first byte is group `i`. A tenth group
      may only contribute the 64th bit. */
  function Decode(data: seq<Byte>, i: nat): (r: Option<Read<nat>>)
    requires i <= 9
    ensures r.Some? ==> 0 < r.value.used <= |data| && r.value.value < Bound(i)
    decreases |data|
  {
    BoundLow(i);
    if data == [] || (i == 9 && data[0] > 1) then None
    else if data[0] < 128 then Some(Read(data[0], 1))
    else
      match Decode(data[1..], i + 1)
      case Some(rest) => Some(Read(data[0] % 128 + 128 * rest.value, rest.used + 1))
      case None => None
  }

  lemma DecodeShort(first: Byte, tail: seq<Byte>, i: nat)
    requires i <= 9 && first < 128 && (i == 9 ==> first <= 1)
    ensures Decode([first] + tail, i) == Some(Read(first, 1))
  {
  }

  lemma DecodeLong(first: Byte, tail: seq<Byte>, i: nat, v: nat, n: nat)
    requires i < 9 && first >= 128 && Decode(tail, i + 1) == Some(Read(v, n))
    ensures Decode([first] + tail, i) == Some(Read(first % 128 + 128 * v, n + 1))
  {
    assert ([first] + tail)[1..] == tail;
  }

  lemma Reassociate(a: seq<Byte>, b: seq<Byte>, c: seq<Byte>)
    ensures a + b + c == a + (b + c)
  {
  }

  /** Decoding inverts encoding, whatever follows. */
  lemma {:induction false} DecodeUvarintBack(value: nat, i: nat, rest: seq<Byte>)
    requires i <= 9 && value < Bound(i)
    ensures Decode(Uvarint(value) + rest, i) == Some(Read(value, |Uvarint(value)|))
    decreases 9 - i
  {
    BoundLow(i);
    if value < 128 {
      assert Uvarint(value) == [value];
      DecodeShort(value, rest, i);
    } else {
      var tail := Uvarint(value / 128);
      assert Uvarint(value) == [value % 128 + 128] + tail;
      DecodeUvarintBack(value / 128, i + 1, rest);
      Reassociate([value % 128 + 128], tail, rest);
      DecodeLong(value % 128 + 128, tail + rest, i, value / 128, |tail|);
    }
  }

  function DecodeU64(data: seq<Byte>): (r: Option<Read<U64>>)
    ensures r.Some? ==> 0 < r.value.used <= |data|
  {
    BoundIs64Bits();
    match Decode(data, 0)
    case Some(Read(v, n)) => var u: U64 := v; Some(Read(u, n))
    case None => None
  }

  lemma U64RoundTrip(value: U64, rest: seq<Byte>)
    ensures DecodeU64(Uvarint(value) + rest) == Some(Read(value, |Uvarint(value)|))
  {
    BoundIs64Bits();
    DecodeUvarintBack(value, 0, rest);
  }

  /** `v << (7 * i)`. */
  function Shift(v: nat, i: nat): nat {
    if i == 0 then v else 128 * Shift(v, i - 1)
  }

  lemma {:induction false} ShiftSplits(x: nat, y: nat, i: nat)
    ensures Shift(x + 128 * y, i) == Shift(x, i) + Shift(y, i + 1)
  {
    if i == 0 {
    } else {
      ShiftSplits(x, y, i - 1);
    }
  }

  /** The result of decoding after `i` groups have contributed `value`. */
  ghost function Resume(value: nat, i: nat, rest: Option<Read<nat>>): Option<Read<nat>> {
    match rest
    case Some(r) => Some(Read(value + Shift(r.value, i), i + r.used))
    case None => None
  }

  lemma ResumeStep(value: nat, data: seq<Byte>, i: nat)
    requires i < 9 && i < |data| && data[i] >= 128
    ensures Resume(value, i, Decode(data[i..], i))
         == Resume(value + Shift(data[i] % 128, i), i + 1, Decode(data[i + 1..], i + 1))
  {
    assert data[i..][1..] == data[i + 1..];
    match Decode(data[i + 1..], i + 1)
    case Some(r) => ShiftSplits(data[i] % 128, r.value, i);
    case None =>
  }

  lemma ResumeEnd(value: nat, data: seq<Byte>, i: nat)
    requires i <= 9 && i <= |data|
    ensures i == |data| || (i == 9 && data[i] > 1) ==> Resume(value, i, Decode(data[i..], i)) == None
    ensures i < |data| && (i < 9 || data[i] <= 1) && data[i] < 128 ==>
              Resume(value, i, Decode(data[i..], i)) == Some(Read(value + Shift(data[i] % 128, i), i + 1))
  {
  }

  method DecodeUvarint(data: seq<Byte>) returns (r: Option<Read<U64>>)
    ensures r == DecodeU64(data)
  {
    BoundIs64Bits();
    var value: nat, i := 0, 0;
    assert data[0..] == data;
    ghost var whole := Decode(data, 0);
    while i < |data|
      invariant i <= |data| && i <= 9
      invariant whole == Resume(value, i, Decode(data[i..], i))
    {
      var byte := data[i];
      ResumeEnd(value, data, i);
      if i >= 9 && byte > 1 {
        return None;
      }
      if byte < 128 {
        return Some(Read(value + Shift(byte % 128, i), i + 1));
      }
      ResumeStep(value, data, i);
      value := value + Shift(byte % 128, i);
      i := i + 1;
    }
    r := None;
  }

  datatype Error = EndOfStream | Malformed

  datatype Result<+T> = Ok(value: T) | Err(error: Error)

  /** Reading one byte at a time from a stream, of which `data` is what will ever arrive. */
  method ReadUvarint(data: seq<Byte>) returns (r: Result<Read<U64>>)
    ensures r.Ok? <==> DecodeU64(data).Some?
    ensures r.Ok? ==> r.value == DecodeU64(data).value
  {
    BoundIs64Bits();
    var value: nat, shift, i := 0, 0, 0;
    assert data[0..] == data;
    ghost var whole := Decode(data, 0);
    while true
      invariant i <= |data| && i <= 9 && shift == 7 * i
      invariant whole == Resume(value, i, Decode(data[i..], i))
      decreases 10 - i
    {
      ResumeEnd(value, data, i);
      if i == |data| {
        return Err(EndOfStream);
      }
      var byte := data[i];
      if shift >= 63 && byte > 1 {
        return Err(Malformed);
      }
      if byte < 128 {
        return Ok(Read(value + Shift(byte % 128, i), i + 1));
      }
      ResumeStep(value, data, i);
      value := value + Shift(byte % 128, i);
      shift := shift + 7;
      i := i + 1;
    }
  }

  // ---------------------------------------------------------------------------
  // Paths
  // ---------------------------------------------------------------------------

  function Path(path: seq<Port>): (bytes: seq<Byte>)
    ensures |bytes| > 0
  {
    if path == [] then Uvarint(0) else Uvarint(path[0]) + Path(path[1..])
  }

  method EncodePath(out: seq<Byte>, path: seq<Port>) returns (out': seq<Byte>)
    ensures out' == out + Path(path)
  {
    out' := out;
    for i := 0 to |path|
      invariant out' + Path(path[i..]) == out + Path(path)
    {
      assert path[i..][1..] == path[i + 1..];
      out' := EncodeUvarint(out', path[i]);
    }
    out' := EncodeUvarint(out', 0);
  }

  method PathSize(path: seq<Port>) returns (size: nat)
    ensures size == |Path(path)|
  {
    size := 0;
    for i := 0 to |path|
      invariant size + |Path(path[i..])| == |Path(path)|
    {
      assert path[i..][1..] == path[i + 1..];
      var n := UvarintSize(path[i]);
      size := size + n;
    }
    var n := UvarintSize(0);
    size := size + n;
  }

  function DecodePathAt(data: seq<Byte>): (r: Option<Read<seq<Port>>>)
    ensures r.Some? ==> 0 < r.value.used <= |data|
    decreases |data|
  {
    match DecodeU64(data)
    case None => None
    case Some(Read(v, n)) =>
      if v == 0 then Some(Read([], n))
      else
        match DecodePathAt(data[n..])
        case None => None
        case Some(Read(path, m)) => Some(Read([v] + path, n + m))
  }

  /** The result of reading the rest of a path of which `path` was in the `used` bytes before `data`. */
  ghost function ReadOn(path: seq<Port>, used: nat, data: seq<Byte>): Option<Read<seq<Port>>>
    decreases |data|
  {
    match DecodeU64(data)
    case None => None
    case Some(Read(v, n)) => if v == 0 then Some(Read(path, used + n)) else ReadOn(path + [v], used + n, data[n..])
  }

  /** What was read before stands in front of what is read on its own. */
  ghost function Continued(path: seq<Port>, used: nat, r: Option<Read<seq<Port>>>): Option<Read<seq<Port>>> {
    match r
    case Some(Read(more, n)) => Some(Read(path + more, used + n))
    case None => None
  }

  lemma ContinuedStep(path: seq<Port>, used: nat, v: Port, n: nat, r: Option<Read<seq<Port>>>)
    ensures Continued(path + [v], used + n, r)
         == Continued(path, used, match r case Some(Read(more, m)) => Some(Read([v] + more, n + m)) case None => None)
  {
    if r.Some? {
      assert path + [v] + r.value.value == path + ([v] + r.value.value);
    }
  }

  lemma {:induction false} ReadOnIs(path: seq<Port>, used: nat, data: seq<Byte>)
    ensures ReadOn(path, used, data) == Continued(path, used, DecodePathAt(data))
    decreases |data|
  {
    match DecodeU64(data)
    case None =>
    case Some(Read(v, n)) =>
      if v == 0 {
        assert path + [] == path;
      } else {
        ReadOnIs(path + [v], used + n, data[n..]);
        ContinuedStep(path, used, v, n, DecodePathAt(data[n..]));
      }
  }

  lemma ReadOnAll(data: seq<Byte>)
    ensures ReadOn([], 0, data) == DecodePathAt(data)
  {
    ReadOnIs([], 0, data);
    if DecodePathAt(data).Some? {
      assert [] + DecodePathAt(data).value.value == DecodePathAt(data).value.value;
    }
  }

  lemma ReadOnStep(path: seq<Port>, used: nat, data: seq<Byte>, v: Port, n: nat)
    requires DecodeU64(data) == Some(Read(v, n)) && v != 0
    ensures ReadOn(path, used, data) == ReadOn(path + [v], used + n, data[n..])
  {
  }

  method DecodePath(data: seq<Byte>) returns (r: Option<Read<seq<Port>>>)
    ensures r == DecodePathAt(data)
  {
    ReadOnAll(data);
    var path: seq<Port>, offset, rest := [], 0, data;
    while true
      invariant DecodePathAt(data) == ReadOn(path, offset, rest)
      decreases |rest|
    {
      var next := DecodeUvarint(rest);
      if next.None? {
        return None;
      }
      var Read(v, n) := next.value;
      if v == 0 {
        return Some(Read(path, offset + n));
      }
      ReadOnStep(path, offset, rest, v, n);
      path, offset, rest := path + [v], offset + n, rest[n..];
    }
  }

  /** The part of a path before its first zero. */
  function UpToZero(path: seq<Port>): seq<Port> {
    if path == [] || path[0] == 0 then [] else [path[0]] + UpToZero(path[1..])
  }

  /** What comes back of a path is the part before its first zero. */
  lemma {:induction false} DecodePathBack(path: seq<Port>, rest: seq<Byte>)
    ensures DecodePathAt(Path(path) + rest).Some?
    ensures DecodePathAt(Path(path) + rest).value.value == UpToZero(path)
    ensures 0 !in path ==> DecodePathAt(Path(path) + rest).value.used == |Path(path)|
  {
    if path == [] {
      U64RoundTrip(0, rest);
    } else {
      var head, tail := Uvarint(path[0]), Path(path[1..]);
      assert Path(path) == head + tail;
      Reassociate(head, tail, rest);
      U64RoundTrip(path[0], tail + rest);
      assert (head + (tail + rest))[|head|..] == tail + rest;
      DecodePathBack(path[1..], rest);
    }
  }

  lemma {:induction false} UpToZeroAll(path: seq<Port>)
    ensures UpToZero(path) == path <==> 0 !in path
  {
    if path == [] {
    } else {
      UpToZeroAll(path[1..]);
      assert path == [path[0]] + path[1..];
    }
  }

  /** Zero termination is safe for exactly the paths that contain no zero. */
  lemma PathRoundTrip(path: seq<Port>, rest: seq<Byte>)
    ensures DecodePathAt(Path(path) + rest) == Some(Read(path, |Path(path)|)) <==> 0 !in path
  {
    DecodePathBack(path, rest);
    UpToZeroAll(path);
  }

  // ---------------------------------------------------------------------------
  // Messages
  // ---------------------------------------------------------------------------

  datatype PacketType =
    | Dummy | KeepAlive | ProtoSigReq | ProtoSigRes | ProtoAnnounce | ProtoBloomFilter
    | ProtoPathLookup | ProtoPathNotify | ProtoPathBroken | Traffic

  /** The kinds of field a message is made of: an integer, that many bytes, or a path. */
  datatype Kind = Number | Fixed(size: nat) | Ports

  datatype Field = NumberField(value: U64) | FixedField(bytes: seq<Byte>) | PortsField(path: seq<Port>)

  const KEY: Kind := Fixed(32)
  const SIGNATURE: Kind := Fixed(64)

  /** The fields of each kind of message, in wire order. */
  function Layout(t: PacketType): seq<Kind> {
    match t
    case ProtoSigReq => [Number, Number]
    case ProtoSigRes => [Number, Number, Number, SIGNATURE]
    case ProtoAnnounce => [KEY, KEY, Number, Number, Number, SIGNATURE, SIGNATURE]
    case ProtoPathLookup => [KEY, KEY, Ports]
    case ProtoPathNotify => [Ports, Number, KEY, KEY, Number, Ports, SIGNATURE]
    case ProtoPathBroken => [Ports, Number, KEY, KEY]
    case Traffic => [Ports, Ports, KEY, KEY, Number]
    case _ => []
  }

  /** What may follow the fields: anything, which is ignored; the packet's payload; or nothing. */
  datatype Trailing = Ignored | Payload | Forbidden

  function TrailingOf(t: PacketType): Trailing {
    match t
    case ProtoSigReq | ProtoSigRes => Ignored
    case Traffic => Payload
    case _ => Forbidden
  }

  datatype Message = Message(kind: PacketType, fields: seq<Field>, payload: seq<Byte>)

  predicate Fits(f: Field, k: Kind) {
    match k
    case Number => f.NumberField?
    case Fixed(n) => f.FixedField? && |f.bytes| == n
    case Ports => f.PortsField?
  }

  /** The message has the fields of its kind, and no path in it contains a zero port. */
  predicate WellFormed(m: Message) {
    && |m.fields| == |Layout(m.kind)|
    && (forall i :: 0 <= i < |m.fields| ==> Fits(m.fields[i], Layout(m.kind)[i]))
    && (forall i :: 0 <= i < |m.fields| && m.fields[i].PortsField? ==> 0 !in m.fields[i].path)
    && (TrailingOf(m.kind) != Payload ==> m.payload == [])
  }

  function EncodeField(f: Field): seq<Byte> {
    match f
    case NumberField(v) => Uvarint(v)
    case FixedField(bytes) => bytes
    case PortsField(path) => Path(path)
  }

  function EncodeFields(fs: seq<Field>): seq<Byte> {
    if fs == [] then [] else EncodeField(fs[0]) + EncodeFields(fs[1..])
  }

  function EncodeMessage(m: Message): seq<Byte> {
    EncodeFields(m.fields) + m.payload
  }

  /** A decoded value and what is left of the input: the cursor of a reader. */
  datatype Taken<+T> = Taken(value: T, rest: seq<Byte>)

  function TakeField(k: Kind, data: seq<Byte>): Option<Taken<Field>> {
    match k
    case Number =>
      (match DecodeU64(data)
       case Some(Read(v, n)) => Some(Taken(NumberField(v), data[n..]))
       case None => None)
    case Fixed(n) =>
      if |data| < n then None else Some(Taken(FixedField(data[..n]), data[n..]))
    case Ports =>
      match DecodePathAt(data)
      case Some(Read(path, n)) => Some(Taken(PortsField(path), data[n..]))
      case None => None
  }

  function TakeFields(ks: seq<Kind>, data: seq<Byte>): Option<Taken<seq<Field>>> {
    if ks == [] then Some(Taken([], data))
    else
      match TakeField(ks[0], data)
      case None => None
      case Some(Taken(f, rest)) =>
        match TakeFields(ks[1..], rest)
        case None => None
        case Some(Taken(fs, rest')) => Some(Taken([f] + fs, rest'))
  }

  function DecodeMessage(t: PacketType, data: seq<Byte>): Option<Message> {
    match TakeFields(Layout(t), data)
    case None => None
    case Some(Taken(fs, rest)) =>
      match TrailingOf(t)
      case Ignored => Some(Message(t, fs, []))
      case Payload => Some(Message(t, fs, rest))
      case Forbidden => if rest == [] then Some(Message(t, fs, [])) else None
  }

  lemma FieldRoundTrip(f: Field, k: Kind, rest: seq<Byte>)
    requires Fits(f, k) && (f.PortsField? ==> 0 !in f.path)
    ensures TakeField(k, EncodeField(f) + rest) == Some(Taken(f, rest))
  {
    match f
    case NumberField(v) => U64RoundTrip(v, rest);
    case FixedField(bytes) =>
    case PortsField(path) => PathRoundTrip(path, rest);
  }

  lemma TakeMore(ks: seq<Kind>, head: seq<Byte>, tail: seq<Byte>, rest: seq<Byte>, f: Field, fs: seq<Field>)
    requires ks != [] && TakeField(ks[0], head + (tail + rest)) == Some(Taken(f, tail + rest))
    requires TakeFields(ks[1..], tail + rest) == Some(Taken(fs, rest))
    ensures TakeFields(ks, head + tail + rest) == Some(Taken([f] + fs, rest))
  {
    Reassociate(head, tail, rest);
  }

  lemma {:induction false} FieldsRoundTrip(fs: seq<Field>, ks: seq<Kind>, rest: seq<Byte>)
    requires |fs| == |ks| && forall i :: 0 <= i < |fs| ==> Fits(fs[i], ks[i])
    requires forall i :: 0 <= i < |fs| && fs[i].PortsField? ==> 0 !in fs[i].path
    ensures TakeFields(ks, EncodeFields(fs) + rest) == Some(Taken(fs, rest))
  {
    if fs == [] {
      assert EncodeFields(fs) + rest == rest;
    } else {
      var head, tail := EncodeField(fs[0]), EncodeFields(fs[1..]);
      FieldRoundTrip(fs[0], ks[0], tail + rest);
      FieldsRoundTrip(fs[1..], ks[1..], rest);
      TakeMore(ks, head, tail, rest, fs[0], fs[1..]);
      assert fs == [fs[0]] + fs[1..] && EncodeFields(fs) == head + tail;
    }
  }

  /** Decoding a message of any kind inverts encoding it. */
  lemma MessageRoundTrip(m: Message)
    requires WellFormed(m)
    ensures DecodeMessage(m.kind, EncodeMessage(m)) == Some(m)
  {
    FieldsRoundTrip(m.fields, Layout(m.kind), m.payload);
  }

  // ---------------------------------------------------------------------------
  // Frames
  // ---------------------------------------------------------------------------

  function TypeByte(t: PacketType): Byte {
    match t
    case Dummy => 0
    case KeepAlive => 1
    case ProtoSigReq => 2
    case ProtoSigRes => 3
    case ProtoAnnounce => 4
    case ProtoBloomFilter => 5
    case ProtoPathLookup => 6
    case ProtoPathNotify => 7
    case ProtoPathBroken => 8
    case Traffic => 9
  }

  function TypeOf(b: Byte): Option<PacketType> {
    match b
    case 0 => Some(Dummy)
    case 1 => Some(KeepAlive)
    case 2 => Some(ProtoSigReq)
    case 3 => Some(ProtoSigRes)
    case 4 => Some(ProtoAnnounce)
    case 5 => Some(ProtoBloomFilter)
    case 6 => Some(ProtoPathLookup)
    case 7 => Some(ProtoPathNotify)
    case 8 => Some(ProtoPathBroken)
    case 9 => Some(Traffic)
    case _ => None
  }

  function EncodeFrame(t: PacketType, payload: seq<Byte>): seq<Byte> {
    Uvarint(1 + |payload|) + [TypeByte(t)] + payload
  }

  datatype Frame = Frame(kind: PacketType, payload: seq<Byte>, used: nat)

  function DecodeFrame(data: seq<Byte>): Option<Frame> {
    match DecodeU64(data)
    case None => None
    case Some(Read(length, n)) =>
      if |data| < n + length || length == 0 then None
      else
        match TypeOf(data[n])
        case None => None
        case Some(t) => Some(Frame(t, data[n + 1..n + length], n + length))
  }

  lemma FrameFrom(data: seq<Byte>, length: nat, n: nat, t: PacketType)
    requires DecodeU64(data) == Some(Read(length, n)) && 0 < length && n + length <= |data| && data[n] == TypeByte(t)
    ensures DecodeFrame(data) == Some(Frame(t, data[n + 1..n + length], n + length))
  {
  }

  lemma FrameSlices(head: seq<Byte>, kind: Byte, payload: seq<Byte>, rest: seq<Byte>)
    ensures var data := head + [kind] + payload + rest;
            && data == head + ([kind] + payload + rest) && data[|head|] == kind
            && data[|head| + 1..|head| + 1 + |payload|] == payload
  {
  }

  /** A frame comes back whole from a stream that continues after it. */
  lemma FrameRoundTrip(t: PacketType, payload: seq<Byte>, rest: seq<Byte>)
    requires 1 + |payload| <= U64_MAX
    ensures DecodeFrame(EncodeFrame(t, payload) + rest) == Some(Frame(t, payload, |EncodeFrame(t, payload)|))
  {
    var head := Uvarint(1 + |payload|);
    FrameSlices(head, TypeByte(t), payload, rest);
    U64RoundTrip(1 + |payload|, [TypeByte(t)] + payload + rest);
    FrameFrom(EncodeFrame(t, payload) + rest, 1 + |payload|, |head|, t);
  }

  /** A user packet. */
  datatype Packet = Packet(path: seq<Port>, from: seq<Port>, source: seq<Byte>, dest: seq<Byte>, watermark: U64, payload: seq<Byte>)

  function AsMessage(p: Packet): Message {
    Message(Traffic,
            [PortsField(p.path), PortsField(p.from), FixedField(p.source), FixedField(p.dest), NumberField(p.watermark)],
            p.payload)
  }

  /** Bytes a packet occupies on the wire, without the frame header. */
  function WireSize(p: Packet): nat {
    |Path(p.path)| + |Path(p.from)| + |p.source| + |p.dest| + |Uvarint(p.watermark)| + |p.payload|
  }

  function PacketBytes(p: Packet): seq<Byte> {
    Path(p.path) + Path(p.from) + p.source + p.dest + Uvarint(p.watermark) + p.payload
  }

  lemma EncodeFirst(f: Field, fs: seq<Field>)
    ensures EncodeFields([f] + fs) == EncodeField(f) + EncodeFields(fs)
  {
    assert ([f] + fs)[1..] == fs;
  }

  lemma Flatten(a: seq<Byte>, b: seq<Byte>, c: seq<Byte>, d: seq<Byte>, e: seq<Byte>, f: seq<Byte>)
    ensures a + (b + (c + (d + e))) + f == a + b + c + d + e + f
  {
  }

  lemma EncodeLast(f: Field)
    ensures EncodeFields([f]) == EncodeField(f)
  {
    EncodeFirst(f, []);
    assert [f] + [] == [f] && EncodeField(f) + [] == EncodeField(f);
  }

  /** What the one-pass encoder writes after the header is the encoding of the packet as a message. */
  lemma PacketEncoding(p: Packet)
    ensures EncodeMessage(AsMessage(p)) == PacketBytes(p)
    ensures |PacketBytes(p)| == WireSize(p)
  {
    var f4 := [NumberField(p.watermark)];
    var f3 := [FixedField(p.dest)] + f4;
    var f2 := [FixedField(p.source)] + f3;
    var f1 := [PortsField(p.from)] + f2;
    EncodeLast(NumberField(p.watermark));
    EncodeFirst(FixedField(p.dest), f4);
    EncodeFirst(FixedField(p.source), f3);
    EncodeFirst(PortsField(p.from), f2);
    EncodeFirst(PortsField(p.path), f1);
    assert AsMessage(p).fields == [PortsField(p.path)] + f1;
    Flatten(Path(p.path), Path(p.from), p.source, p.dest, Uvarint(p.watermark), p.payload);
  }

  lemma Regroup(h: seq<Byte>, a: seq<Byte>, b: seq<Byte>, c: seq<Byte>, d: seq<Byte>, e: seq<Byte>, f: seq<Byte>)
    ensures h + a + b + c + d + e + f == h + (a + b + c + d + e + f)
  {
  }

  /** The one-pass traffic encoder: it writes the length before the content it has yet to encode. */
  method EncodeTrafficFrame(p: Packet) returns (frame: seq<Byte>)
    requires |p.source| == 32 && |p.dest| == 32 && 1 + WireSize(p) <= U64_MAX
    ensures frame == EncodeFrame(Traffic, PacketBytes(p))
  {
    var a := PathSize(p.path);
    var b := PathSize(p.from);
    var c := UvarintSize(p.watermark);
    var contentLen := 1 + a + b + 32 + 32 + c + |p.payload|;
    Regroup(Uvarint(contentLen) + [9], Path(p.path), Path(p.from), p.source, p.dest, Uvarint(p.watermark), p.payload);
    frame := EncodeUvarint([], contentLen);
    assert frame == Uvarint(1 + |PacketBytes(p)|);
    frame := frame + [9];
    frame := EncodePath(frame, p.path);
    frame := EncodePath(frame, p.from);
    frame := frame + p.source;
    frame := frame + p.dest;
    frame := EncodeUvarint(frame, p.watermark);
    frame := frame + p.payload;
  }
}
