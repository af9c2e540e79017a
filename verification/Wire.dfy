/** The wire primitives of the protocol buffer runtime: base-128 varints, little-endian fixed
    words, tags, length prefixes, and unknown fields with their nested groups.
    Readers work on the bytes that remain before the current limit and return what is left. */
module Wire {
  import opened Octets

  const INT_MAX: nat := 0x7fff_ffff
  const TWO32: nat := 0x1_0000_0000
  const TWO64: nat := 0x1_0000_0000_0000_0000

  /** Outcome of reading one item from the front of a byte string. */
  datatype Read<+T> = Fail | Got(value: T, rest: Bytes)

  lemma ConcatAssociative<T>(a: seq<T>, b: seq<T>, c: seq<T>)
    ensures a + b + c == a + (b + c)
  {
  }

  lemma SplitExtends<T>(s: seq<T>, n: nat, t: seq<T>)
    requires n <= |s|
    ensures (s + t)[..n] == s[..n] && (s + t)[n..] == s[n..] + t
  {
  }

  lemma HeadAndTail<T>(s: seq<T>, before: seq<T>)
    requires s != []
    ensures before + [s[0]] + s[1..] == before + s
  {
  }

  /** Reducing a small number to 32 or 64 bits changes nothing. */
  lemma SmallResidue(n: nat)
    requires n < TWO64
    ensures n % TWO64 == n && (n < TWO32 ==> n % TWO32 == n)
  {
  }

  // ---------------------------------------------------------------- varints

  /** Seven bits a byte, low group first; every byte but the last has its top bit set. */
  function WriteVarint(v: nat): (s: Bytes)
    ensures |s| >= 1
  {
    if v < 128 then [v] else [v % 128 + 128] + WriteVarint(v / 128)
  }

  lemma FirstVarintByte(v: nat)
    ensures WriteVarint(v) == if v < 128 then [v] else [v % 128 + 128] + WriteVarint(v / 128)
  {
  }

  /** At most `budget` bytes; a continuation bit on the last allowed byte is an error. */
  function ReadVarint(s: Bytes, budget: nat := 10): (r: Read<nat>)
    ensures r.Got? ==> |r.rest| < |s|
    decreases s
  {
    if s == [] || budget == 0 then Fail
    else if s[0] < 128 then Got(s[0], s[1..])
    else match ReadVarint(s[1..], budget - 1)
      case Fail => Fail
      case Got(v, rest) => Got(s[0] - 128 + 128 * v, rest)
  }

  /** VarintSize32 and VarintSize64: thresholds at multiples of seven bits. */
  function VarintSize(v: nat): nat {
    if v < 0x80 then 1
    else if v < 0x4000 then 2
    else if v < 0x20_0000 then 3
    else if v < 0x1000_0000 then 4
    else if v < 0x8_0000_0000 then 5
    else if v < 0x400_0000_0000 then 6
    else if v < 0x2_0000_0000_0000 then 7
    else if v < 0x100_0000_0000_0000 then 8
    else if v < 0x8000_0000_0000_0000 then 9
    else 10
  }

  ghost function Pow128(n: nat): nat { if n == 0 then 1 else 128 * Pow128(n - 1) }

  lemma {:induction false} VarintRoundTrip(v: nat, budget: nat, t: Bytes)
    requires budget > 0 && v < Pow128(budget)
    ensures ReadVarint(WriteVarint(v) + t, budget) == Got(v, t)
  {
    if v < 128 {
      assert ([v] + t)[1..] == t;
    } else {
      var low: Byte, tail := v % 128 + 128, WriteVarint(v / 128) + t;
      assert WriteVarint(v) + t == [low] + tail;
      assert ([low] + tail)[1..] == tail;
      assert v / 128 < Pow128(budget - 1);
      assert budget > 1;
      VarintRoundTrip(v / 128, budget - 1, t);
      assert v == low - 128 + 128 * (v / 128);
    }
  }

  lemma Varint64RoundTrip(v: nat, t: Bytes)
    requires v < TWO64
    ensures ReadVarint(WriteVarint(v) + t) == Got(v, t)
  {
    assert Pow128(10) == 128 * 128 * 128 * 128 * 128 * Pow128(5);
    assert Pow128(5) == 128 * 128 * 128 * 128 * 128;
    VarintRoundTrip(v, 10, t);
  }

  lemma {:induction false} VarintSizeIsLength(v: nat)
    requires v < TWO64
    ensures |WriteVarint(v)| == VarintSize(v)
  {
    if v >= 128 {
      VarintSizeIsLength(v / 128);
    }
  }

  lemma {:induction false} VarintExtends(s: Bytes, budget: nat, t: Bytes)
    requires ReadVarint(s, budget).Got?
    ensures ReadVarint(s + t, budget) == Got(ReadVarint(s, budget).value, ReadVarint(s, budget).rest + t)
  {
    assert (s + t)[1..] == s[1..] + t;
    if s[0] >= 128 {
      VarintExtends(s[1..], budget - 1, t);
    }
  }

  // ------------------------------------------------------------ fixed words

  function WriteFixed32(v: nat): (s: Bytes)
    ensures |s| == 4
  {
    [v % 256, v / 256 % 256, v / 0x1_0000 % 256, v / 0x100_0000 % 256]
  }

  function ReadFixed32(s: Bytes): (r: Read<nat>)
    ensures r.Got? ==> r.value < TWO32 && |s| >= 4 && r.rest == s[4..]
  {
    if |s| < 4 then Fail
    else
      var b0: int, b1: int, b2: int, b3: int := s[0], s[1], s[2], s[3];
      Got(b0 + 0x100 * b1 + 0x1_0000 * b2 + 0x100_0000 * b3, s[4..])
  }

  function WriteFixed64(v: nat): (s: Bytes)
    ensures |s| == 8
  {
    WriteFixed32(v % TWO32) + WriteFixed32(v / TWO32)
  }

  function ReadFixed64(s: Bytes): (r: Read<nat>)
    ensures r.Got? ==> r.value < TWO64 && |s| >= 8 && r.rest == s[8..]
  {
    match ReadFixed32(s)
    case Fail => Fail
    case Got(low, t) =>
      match ReadFixed32(t)
      case Fail => Fail
      case Got(high, u) => assert s[8..] == t[4..]; Got(low + TWO32 * high, u)
  }

  lemma FourBytes(v: nat)
    requires v < TWO32
    ensures v == v % 256 + 0x100 * (v / 256 % 256) + 0x1_0000 * (v / 0x1_0000 % 256) + 0x100_0000 * (v / 0x100_0000 % 256)
  {
    var a, b, c := v / 0x100, v / 0x1_0000, v / 0x100_0000;
    assert v == 0x100 * a + v % 256;
    assert b == a / 256;
    assert c == b / 256;
    assert c % 256 == c;
  }

  lemma Fixed32RoundTrip(v: nat, t: Bytes)
    requires v < TWO32
    ensures ReadFixed32(WriteFixed32(v) + t) == Got(v, t)
  {
    var s := WriteFixed32(v) + t;
    assert s[0] == v % 256 && s[1] == v / 256 % 256 && s[2] == v / 0x1_0000 % 256 && s[3] == v / 0x100_0000 % 256;
    FourBytes(v);
    assert s[4..] == t;
  }

  lemma Fixed64RoundTrip(v: nat, t: Bytes)
    requires v < TWO64
    ensures ReadFixed64(WriteFixed64(v) + t) == Got(v, t)
  {
    var low, high := WriteFixed32(v % TWO32), WriteFixed32(v / TWO32);
    assert low + high + t == low + (high + t);
    Fixed32RoundTrip(v % TWO32, high + t);
    Fixed32RoundTrip(v / TWO32, t);
  }

  lemma Fixed32Extends(s: Bytes, t: Bytes)
    requires ReadFixed32(s).Got?
    ensures ReadFixed32(s + t) == Got(ReadFixed32(s).value, ReadFixed32(s).rest + t)
  {
    assert (s + t)[4..] == s[4..] + t;
  }

  lemma Fixed64Extends(s: Bytes, t: Bytes)
    requires ReadFixed64(s).Got?
    ensures ReadFixed64(s + t) == Got(ReadFixed64(s).value, ReadFixed64(s).rest + t)
  {
    Fixed32Extends(s, t);
    Fixed32Extends(ReadFixed32(s).rest, t);
  }

  // -------------------------------------------------------- length prefixes

  /** A `bytes` or `string` payload: a 32-bit length that must fit in what remains. */
  function ReadString(s: Bytes): (r: Read<Bytes>)
    ensures r.Got? ==> |r.value| <= INT_MAX && |r.rest| < |s|
  {
    match ReadVarint(s)
    case Fail => Fail
    case Got(v, t) =>
      var size := v % TWO32;
      if size > INT_MAX || size > |t| then Fail else Got(t[..size], t[size..])
  }

  function WriteString(b: Bytes): Bytes { WriteVarint(|b|) + b }

  lemma StringRoundTrip(b: Bytes, t: Bytes)
    requires |b| <= INT_MAX
    ensures ReadString(WriteString(b) + t) == Got(b, t)
  {
    Varint64RoundTrip(|b|, b + t);
    SmallResidue(|b|);
    assert WriteString(b) + t == WriteVarint(|b|) + (b + t);
    assert (b + t)[..|b|] == b && (b + t)[|b|..] == t;
  }

  lemma StringExtends(s: Bytes, t: Bytes)
    requires ReadString(s).Got?
    ensures ReadString(s + t) == Got(ReadString(s).value, ReadString(s).rest + t)
  {
    VarintExtends(s, 10, t);
    SplitExtends(ReadVarint(s).rest, ReadVarint(s).value % TWO32, t);
  }

  // -------------------------------------------------------------------- tags

  const WIRETYPE_VARINT: nat := 0
  const WIRETYPE_FIXED64: nat := 1
  const WIRETYPE_LENGTH_DELIMITED: nat := 2
  const WIRETYPE_START_GROUP: nat := 3
  const WIRETYPE_END_GROUP: nat := 4
  const WIRETYPE_FIXED32: nat := 5

  function MakeTag(number: nat, wireType: nat): nat { number * 8 + wireType }
  function FieldNumber(tag: nat): nat { tag / 8 }
  function WireType(tag: nat): nat { tag % 8 }

  /** A tag is the low 32 bits of a varint.  An unreadable tag comes back as 0, like a zero byte. */
  function ReadTag(s: Bytes): (r: Read<nat>)
    ensures r.Got? ==> 0 < r.value < TWO32 && |r.rest| < |s|
  {
    match ReadVarint(s)
    case Fail => Fail
    case Got(v, rest) => if v % TWO32 == 0 then Fail else Got(v % TWO32, rest)
  }

  lemma TagRoundTrip(tag: nat, t: Bytes)
    requires 0 < tag < TWO32
    ensures ReadTag(WriteVarint(tag) + t) == Got(tag, t)
  {
    Varint64RoundTrip(tag, t);
    SmallResidue(tag);
  }

  // ---------------------------------------------------------- unknown fields

  /** One entry of an UnknownFieldSet. */
  datatype Unknown =
    | UVarint(number: nat, varint: nat)
    | UFixed64(number: nat, fixed64: nat)
    | UString(number: nat, data: Bytes)
    | UGroup(number: nat, group: seq<Unknown>)
    | UFixed32(number: nat, fixed32: nat)

  function UnknownTag(u: Unknown): nat {
    MakeTag(u.number,
      match u
      case UVarint(_, _) => WIRETYPE_VARINT
      case UFixed64(_, _) => WIRETYPE_FIXED64
      case UString(_, _) => WIRETYPE_LENGTH_DELIMITED
      case UGroup(_, _) => WIRETYPE_START_GROUP
      case UFixed32(_, _) => WIRETYPE_FIXED32)
  }

  /** WireFormat::SkipField, keeping what it skips. */
  function SkipField(tag: nat, s: Bytes): (r: Read<Unknown>)
    ensures r.Got? ==> |r.rest| <= |s|
    decreases |s|, 1
  {
    var number := FieldNumber(tag);
    var wireType := WireType(tag);
    if wireType == WIRETYPE_VARINT then
      match ReadVarint(s)
      case Fail => Fail
      case Got(v, rest) => Got(UVarint(number, v % TWO64), rest)
    else if wireType == WIRETYPE_FIXED64 then
      match ReadFixed64(s)
      case Fail => Fail
      case Got(v, rest) => Got(UFixed64(number, v), rest)
    else if wireType == WIRETYPE_LENGTH_DELIMITED then
      match ReadString(s)
      case Fail => Fail
      case Got(b, rest) => Got(UString(number, b), rest)
    else if wireType == WIRETYPE_START_GROUP then
      match ReadGroup(number, s)
      case Fail => Fail
      case Got(fields, rest) => Got(UGroup(number, fields), rest)
    else if wireType == WIRETYPE_FIXED32 then
      match ReadFixed32(s)
      case Fail => Fail
      case Got(v, rest) => Got(UFixed32(number, v), rest)
    else
      Fail
  }

  /** WireFormat::SkipMessage inside a group, with the caller's check that the tag which stopped
      it was the group's own end tag; the end of input, a zero tag and a foreign end tag all fail. */
  function ReadGroup(number: nat, s: Bytes): (r: Read<seq<Unknown>>)
    ensures r.Got? ==> |r.rest| < |s|
    decreases |s|, 0
  {
    match ReadTag(s)
    case Fail => Fail
    case Got(tag, t) =>
      if WireType(tag) == WIRETYPE_END_GROUP then
        if tag == MakeTag(number, WIRETYPE_END_GROUP) then Got([], t) else Fail
      else
        match SkipField(tag, t)
        case Fail => Fail
        case Got(u, v) =>
          match ReadGroup(number, v)
          case Fail => Fail
          case Got(us, rest) => Got([u] + us, rest)
  }

  /** Field numbers and payloads that a parser can have put into an UnknownFieldSet. */
  predicate Storable(u: Unknown) {
    0 < UnknownTag(u) < TWO32 &&
    match u
    case UVarint(_, v) => v < TWO64
    case UFixed64(_, v) => v < TWO64
    case UString(_, b) => |b| <= INT_MAX
    case UGroup(_, fields) => MakeTag(u.number, WIRETYPE_END_GROUP) < TWO32 && AllStorable(fields)
    case UFixed32(_, v) => v < TWO32
  }

  predicate AllStorable(us: seq<Unknown>) {
    us == [] || (Storable(us[0]) && AllStorable(us[1..]))
  }

  /** WireFormat::SerializeUnknownFields. */
  function WriteUnknown(u: Unknown): Bytes
    decreases u, 1
  {
    WriteVarint(UnknownTag(u)) + WritePayload(u)
  }

  function WritePayload(u: Unknown): Bytes
    decreases u, 0
  {
    match u
    case UVarint(_, v) => WriteVarint(v)
    case UFixed64(_, v) => WriteFixed64(v)
    case UString(_, b) => WriteString(b)
    case UGroup(n, fields) => WriteUnknowns(fields) + WriteVarint(MakeTag(n, WIRETYPE_END_GROUP))
    case UFixed32(_, v) => WriteFixed32(v)
  }

  function WriteUnknowns(us: seq<Unknown>): Bytes
    decreases us
  {
    if us == [] then [] else WriteUnknown(us[0]) + WriteUnknowns(us[1..])
  }

  /** WireFormat::ComputeUnknownFieldsSize. */
  function UnknownSize(u: Unknown): nat {
    VarintSize(UnknownTag(u)) +
    match u
    case UVarint(_, v) => VarintSize(v)
    case UFixed64(_, v) => 8
    case UString(_, b) => VarintSize(|b|) + |b|
    case UGroup(_, fields) => UnknownsSize(fields) + VarintSize(MakeTag(u.number, WIRETYPE_END_GROUP))
    case UFixed32(_, v) => 4
  }

  function UnknownsSize(us: seq<Unknown>): nat {
    if us == [] then 0 else UnknownSize(us[0]) + UnknownsSize(us[1..])
  }

  lemma {:induction false} UnknownSizeIsLength(u: Unknown)
    requires Storable(u)
    ensures |WriteUnknown(u)| == UnknownSize(u)
  {
    VarintSizeIsLength(UnknownTag(u));
    match u
    case UVarint(_, v) => VarintSizeIsLength(v);
    case UFixed64(_, v) =>
    case UString(_, b) => VarintSizeIsLength(|b|);
    case UGroup(_, fields) =>
      UnknownsSizeIsLength(fields);
      VarintSizeIsLength(MakeTag(u.number, WIRETYPE_END_GROUP));
    case UFixed32(_, v) =>
  }

  lemma {:induction false} UnknownsSizeIsLength(us: seq<Unknown>)
    requires AllStorable(us)
    ensures |WriteUnknowns(us)| == UnknownsSize(us)
  {
    if us != [] {
      UnknownSizeIsLength(us[0]);
      UnknownsSizeIsLength(us[1..]);
    }
  }

  lemma TagParts(number: nat, wireType: nat)
    requires wireType < 8
    ensures FieldNumber(MakeTag(number, wireType)) == number && WireType(MakeTag(number, wireType)) == wireType
  {
  }

  /** Reading back a written unknown field, whatever follows it. */
  lemma UnknownRoundTrip(u: Unknown, t: Bytes)
    requires Storable(u)
    ensures ReadTag(WriteUnknown(u) + t) == Got(UnknownTag(u), WritePayload(u) + t)
    ensures SkipField(UnknownTag(u), WritePayload(u) + t) == Got(u, t)
    decreases u, 1
  {
    assert WriteUnknown(u) + t == WriteVarint(UnknownTag(u)) + (WritePayload(u) + t);
    TagRoundTrip(UnknownTag(u), WritePayload(u) + t);
    PayloadRoundTrip(u, t);
  }

  lemma {:induction false} PayloadRoundTrip(u: Unknown, t: Bytes)
    requires Storable(u)
    ensures SkipField(UnknownTag(u), WritePayload(u) + t) == Got(u, t)
    decreases u, 0
  {
    match u
    case UVarint(n, v) =>
      TagParts(n, WIRETYPE_VARINT);
      SmallResidue(v);
      Varint64RoundTrip(v, t);
    case UFixed64(n, v) =>
      TagParts(n, WIRETYPE_FIXED64);
      Fixed64RoundTrip(v, t);
    case UString(n, b) =>
      TagParts(n, WIRETYPE_LENGTH_DELIMITED);
      StringRoundTrip(b, t);
    case UGroup(n, fields) =>
      TagParts(n, WIRETYPE_START_GROUP);
      var end := WriteVarint(MakeTag(n, WIRETYPE_END_GROUP));
      GroupEnd(n, t);
      GroupRoundTrip(n, fields, end + t, t);
      ConcatAssociative(WriteUnknowns(fields), end, t);
    case UFixed32(n, v) =>
      TagParts(n, WIRETYPE_FIXED32);
      Fixed32RoundTrip(v, t);
  }

  lemma GroupStep(number: nat, u: Unknown, us: seq<Unknown>, s: Bytes, t: Bytes)
    requires Storable(u) && ReadGroup(number, s) == Got(us, t)
    ensures ReadGroup(number, WriteUnknown(u) + s) == Got([u] + us, t)
    decreases u, 2
  {
    UnknownRoundTrip(u, s);
    UnknownTagStarts(u);
  }

  lemma GroupEnd(number: nat, t: Bytes)
    requires MakeTag(number, WIRETYPE_END_GROUP) < TWO32
    ensures ReadGroup(number, WriteVarint(MakeTag(number, WIRETYPE_END_GROUP)) + t) == Got([], t)
  {
    TagParts(number, WIRETYPE_END_GROUP);
    TagRoundTrip(MakeTag(number, WIRETYPE_END_GROUP), t);
  }

  /** The unknown fields, then `s`. */
  function WriteUnknownsThen(us: seq<Unknown>, s: Bytes): (r: Bytes)
    ensures r == WriteUnknowns(us) + s
  {
    if us == [] then s
    else
      ConcatAssociative(WriteUnknown(us[0]), WriteUnknowns(us[1..]), s);
      WriteUnknown(us[0]) + WriteUnknownsThen(us[1..], s)
  }

  lemma {:induction false} GroupRoundTrip(number: nat, us: seq<Unknown>, s: Bytes, t: Bytes)
    requires AllStorable(us) && ReadGroup(number, s) == Got([], t)
    ensures ReadGroup(number, WriteUnknownsThen(us, s)) == Got(us, t)
    decreases us
  {
    if us != [] {
      GroupRoundTrip(number, us[1..], s, t);
      GroupStep(number, us[0], us[1..], WriteUnknownsThen(us[1..], s), t);
      assert [us[0]] + us[1..] == us;
    }
  }

  lemma UnknownTagStarts(u: Unknown)
    ensures WireType(UnknownTag(u)) != WIRETYPE_END_GROUP
  {
  }

  /** A field that was skipped is skipped the same way when more bytes follow. */
  lemma {:induction false} SkipFieldExtends(tag: nat, s: Bytes, t: Bytes)
    requires SkipField(tag, s).Got?
    ensures SkipField(tag, s + t) == Got(SkipField(tag, s).value, SkipField(tag, s).rest + t)
    decreases |s|, 1
  {
    var wireType := WireType(tag);
    if wireType == WIRETYPE_VARINT {
      VarintExtends(s, 10, t);
    } else if wireType == WIRETYPE_FIXED64 {
      Fixed64Extends(s, t);
    } else if wireType == WIRETYPE_LENGTH_DELIMITED {
      StringExtends(s, t);
    } else if wireType == WIRETYPE_START_GROUP {
      GroupExtends(FieldNumber(tag), s, t);
    } else {
      Fixed32Extends(s, t);
    }
  }

  lemma {:induction false} GroupExtends(number: nat, s: Bytes, t: Bytes)
    requires ReadGroup(number, s).Got?
    ensures ReadGroup(number, s + t) == Got(ReadGroup(number, s).value, ReadGroup(number, s).rest + t)
    decreases |s|, 0
  {
    VarintExtends(s, 10, t);
    var Got(tag, u) := ReadTag(s);
    if WireType(tag) != WIRETYPE_END_GROUP {
      SkipFieldExtends(tag, u, t);
      GroupExtends(number, SkipField(tag, u).rest, t);
    }
  }
}
