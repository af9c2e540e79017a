/** The generated parser and serializer, read as functions of the schema: what
    MergePartialFromCodedStream leaves in a message when the message ends where its bytes end,
    and the bytes that serialization emits. */
module Codec {
  import opened Octets
  import opened Wire
  import opened Schemas

  datatype Option<+T> = None | Some(value: T)

  // ----------------------------------------------------------------- parsing

  /** Index of the field with exactly this tag, or the number of fields. */
  function FindTag(sch: Schema, tag: nat, from: nat := 0): (i: nat)
    requires from <= |sch.fields|
    ensures from <= i <= |sch.fields|
    ensures i < |sch.fields| ==> FieldTag(sch.fields[i]) == tag
    ensures forall j :: from <= j < i ==> FieldTag(sch.fields[j]) != tag
    decreases |sch.fields| - from
  {
    if from == |sch.fields| || FieldTag(sch.fields[from]) == tag then from else FindTag(sch, tag, from + 1)
  }

  /** A 32-bit pattern converted to int and then to uint64. */
  function SignExtend(n: nat): nat {
    if n > INT_MAX then n + (TWO64 - TWO32) else n
  }

  /** PushLimit: a length that is negative or reaches past the current limit keeps that limit. */
  function Delimit(length: nat, s: Bytes): (r: (Bytes, Bytes))
    ensures r.0 + r.1 == s
  {
    var n := if length > INT_MAX || length > |s| then |s| else length;
    (s[..n], s[n..])
  }

  /** ReadVarintSizeAsInt and PushLimit, before a singular submessage: body and what follows it. */
  function ReadBody(s: Bytes): (r: Read<Bytes>)
    ensures r.Got? ==> |r.value| < |s| && |r.rest| < |s|
  {
    match ReadVarint(s)
    case Fail => Fail
    case Got(v, t) =>
      if v % TWO64 > INT_MAX then Fail
      else var (body, rest) := Delimit(v % TWO64, t); Got(body, rest)
  }

  /** ReadLengthAndPushLimit, before an element of a repeated field: an unreadable length counts as
      zero.  It is left in place if it is ten bytes long and consumed if the input ends in it. */
  function ReadElementBody(s: Bytes): (r: (Bytes, Bytes))
    ensures |r.0| <= |s| && |r.1| <= |s|
  {
    match ReadVarint(s)
    case Got(v, t) => Delimit(v % TWO32, t)
    case Fail => ([], if |s| < 10 then [] else s)
  }

  function SetSlot(sch: Schema, m: Msg, i: nat, vs: seq<Value>): (r: Msg)
    requires Typed(sch, m) && i < |sch.fields| && SlotTyped(sch.fields[i], vs)
    ensures Typed(sch, r)
  {
    m.(slots := m.slots[i := vs])
  }

  function AddUnknown(m: Msg, u: Unknown): Msg {
    m.(unknown := m.unknown + [u])
  }

  /** The submessage that mutable_x hands out: the present one, or a new empty one. */
  function Mutable(f: Field, vs: seq<Value>): (m: Msg)
    requires f.kind.MessageKind? && f.arity != Repeated && SlotTyped(f, vs)
    ensures Typed(f.kind.schema, m)
  {
    if vs == [] then Empty(f.kind.schema) else assert ValueTyped(f.kind, vs[0]); vs[0].m
  }

  /** The payload of known field `i`, read into `m`. */
  function ReadField(sch: Schema, i: nat, m: Msg, s: Bytes): (r: Read<Msg>)
    requires WellFormed(sch) && i < |sch.fields| && Typed(sch, m)
    ensures r.Got? ==> |r.rest| <= |s| && Typed(sch, r.value)
    decreases |s|, 2
  {
    var f := sch.fields[i];
    match f.kind
    case EnumKind =>
      (match ReadVarint(s)
       case Fail => Fail
       case Got(v, rest) =>
         var e := v % TWO32;
         Got(if EMsgIsValid(e) then SetSlot(sch, m, i, [Num(e)]) else AddUnknown(m, UVarint(f.number, SignExtend(e))), rest))
    case Int32Kind => ReadWord(sch, m, i, ReadVarint(s))
    case UInt32Kind => ReadWord(sch, m, i, ReadVarint(s))
    case Fixed32Kind => ReadWord(sch, m, i, ReadFixed32(s))
    case BoolKind =>
      (match ReadVarint(s)
       case Fail => Fail
       case Got(v, rest) => Got(SetSlot(sch, m, i, [Num(if v % TWO64 != 0 then 1 else 0)]), rest))
    case BytesKind =>
      (match ReadString(s)
       case Fail => Fail
       case Got(b, rest) => Got(SetSlot(sch, m, i, [Str(b)]), rest))
    case MessageKind(sub) =>
      if f.arity == Repeated then
        var (body, rest) := ReadElementBody(s);
        match Parse(sub, Empty(sub), body)
        case None => Fail
        case Some(x) =>
          assert SlotTyped(f, m.slots[i]) && ValueTyped(f.kind, Sub(x));
          Got(SetSlot(sch, m, i, m.slots[i] + [Sub(x)]), rest)
      else
        match ReadBody(s)
        case Fail => Fail
        case Got(body, rest) =>
          match Parse(sub, Mutable(f, m.slots[i]), body)
          case None => Fail
          case Some(x) => Got(SetSlot(sch, m, i, [Sub(x)]), rest)
  }

  predicate IsWord(f: Field) {
    f.arity != Repeated && (f.kind.Int32Kind? || f.kind.UInt32Kind? || f.kind.Fixed32Kind?)
  }

  function ReadWord(sch: Schema, m: Msg, i: nat, r: Read<nat>): (w: Read<Msg>)
    requires Typed(sch, m) && i < |sch.fields| && IsWord(sch.fields[i])
    ensures w.Got? ==> r.Got? && w.rest == r.rest && Typed(sch, w.value)
  {
    match r
    case Fail => Fail
    case Got(v, rest) => Got(SetSlot(sch, m, i, [Num(v % TWO32)]), rest)
  }

  /** One record after its tag: a known field with the expected wire type, or an unknown one. */
  function ReadRecord(sch: Schema, m: Msg, tag: nat, s: Bytes): (r: Read<Msg>)
    requires WellFormed(sch) && Typed(sch, m)
    ensures r.Got? ==> |r.rest| <= |s| && Typed(sch, r.value)
    decreases |s|, 3
  {
    var i := FindTag(sch, tag);
    if i < |sch.fields| then ReadField(sch, i, m, s)
    else
      match SkipField(tag, s)
      case Fail => Fail
      case Got(u, rest) => Got(AddUnknown(m, u), rest)
  }

  /** Plain dispatch: read a tag, read its record, repeat until the bytes are used up.
      An end-group tag or a zero tag stops the generated loop before the end of the message, which
      the caller of the loop rejects. */
  function Parse(sch: Schema, m: Msg, s: Bytes): (r: Option<Msg>)
    requires WellFormed(sch) && Typed(sch, m)
    ensures r.Some? ==> Typed(sch, r.value)
    decreases |s|, 1
  {
    if s == [] then Some(m)
    else
      match ReadTag(s)
      case Fail => None
      case Got(tag, t) =>
        if WireType(tag) == WIRETYPE_END_GROUP then None
        else
          match ReadRecord(sch, m, tag, t)
          case Fail => None
          case Got(m', rest) => Parse(sch, m', rest)
  }

  /** How a parse loop can come to rest: at the end of its bytes, in front of a tag that ends the
      message for it, or on a record that it cannot read. */
  datatype Scanned = Ended(m: Msg) | Stopped(m: Msg, tag: nat, rest: Bytes) | Failed

  /** The tag that ReadTag returns and what it leaves: 0 for an unreadable tag, which is consumed if the
      input ends in it and left in place if it is ten bytes long. */
  function NextTag(s: Bytes): (r: (nat, Bytes))
    ensures r.0 != 0 ==> |r.1| < |s|
  {
    match ReadVarint(s)
    case Got(v, rest) => (v % TWO32, rest)
    case Fail => (0, if |s| < 10 then [] else s)
  }

  /** The generated loop by itself, for callers that accept a message ended by a zero or end-group tag. */
  function Scan(sch: Schema, m: Msg, s: Bytes): (r: Scanned)
    requires WellFormed(sch) && Typed(sch, m)
    ensures !r.Failed? ==> Typed(sch, r.m)
    decreases |s|
  {
    if s == [] then Ended(m)
    else
      var (tag, t) := NextTag(s);
      if tag == 0 || WireType(tag) == WIRETYPE_END_GROUP then Stopped(m, tag, t)
      else
        match ReadRecord(sch, m, tag, t)
        case Fail => Failed
        case Got(m', rest) => Scan(sch, m', rest)
  }

  /** A parse succeeds exactly if the loop runs to the end of the bytes. */
  lemma {:induction false} ScanIsParse(sch: Schema, m: Msg, s: Bytes)
    requires WellFormed(sch) && Typed(sch, m)
    ensures var r := Scan(sch, m, s); Parse(sch, m, s) == if r.Ended? then Some(r.m) else None
    decreases |s|
  {
    if s != [] && NextTag(s).0 != 0 && WireType(NextTag(s).0) != WIRETYPE_END_GROUP {
      var r := ReadRecord(sch, m, NextTag(s).0, NextTag(s).1);
      if r.Got? {
        ScanIsParse(sch, r.value, r.rest);
      }
    }
  }

  // ------------------------------------------------------------- serializing

  function WriteValue(f: Field, v: Value): Bytes
    requires ValueTyped(f.kind, v)
    decreases f, 0
  {
    WriteVarint(FieldTag(f)) +
    match f.kind
    case EnumKind => WriteVarint(SignExtend(v.n))
    case Int32Kind => WriteVarint(SignExtend(v.n))
    case UInt32Kind => WriteVarint(v.n)
    case Fixed32Kind => WriteFixed32(v.n)
    case BoolKind => [v.n]
    case BytesKind => WriteString(v.b)
    case MessageKind(sub) => WriteString(Serialize(sub, v.m))
  }

  function WriteSlot(f: Field, vs: seq<Value>): Bytes
    requires ValuesTyped(f.kind, vs)
    decreases f, 1, |vs|
  {
    if vs == [] then [] else WriteValue(f, vs[0]) + WriteSlot(f, vs[1..])
  }

  /** The present fields from index `i` on, in schema order. */
  function WriteFields(sch: Schema, m: Msg, i: nat): Bytes
    requires Typed(sch, m) && i <= |sch.fields|
    decreases sch, 0, |sch.fields| - i
  {
    if i == |sch.fields| then []
    else
      assert SlotTyped(sch.fields[i], m.slots[i]);
      WriteSlot(sch.fields[i], m.slots[i]) + WriteFields(sch, m, i + 1)
  }

  /** Known fields in order, then the unknown ones. */
  function Serialize(sch: Schema, m: Msg): Bytes
    requires Typed(sch, m)
    decreases sch, 1
  {
    WriteFields(sch, m, 0) + WriteUnknowns(m.unknown)
  }

  // -------------------------------------------------------------------- size

  /** LengthDelimitedSize, BytesSize and StringSize. */
  function DelimitedSize(length: nat): nat { VarintSize(length) + length }

  /** VarintSize32SignExtended: ten bytes for a negative value. */
  function SignedSize(n: nat): nat { if n > INT_MAX then 10 else VarintSize(n) }

  function ValueSize(f: Field, v: Value): nat
    requires ValueTyped(f.kind, v)
    decreases f, 0
  {
    1 + match f.kind
        case EnumKind => SignedSize(v.n)
        case Int32Kind => SignedSize(v.n)
        case UInt32Kind => VarintSize(v.n)
        case Fixed32Kind => 4
        case BoolKind => 1
        case BytesKind => DelimitedSize(|v.b|)
        case MessageKind(sub) => DelimitedSize(ByteSize(sub, v.m))
  }

  function SlotSize(f: Field, vs: seq<Value>): nat
    requires ValuesTyped(f.kind, vs)
    decreases f, 1, |vs|
  {
    if vs == [] then 0 else ValueSize(f, vs[0]) + SlotSize(f, vs[1..])
  }

  function FieldsSize(sch: Schema, m: Msg, i: nat): nat
    requires Typed(sch, m) && i <= |sch.fields|
    decreases sch, 0, |sch.fields| - i
  {
    if i == |sch.fields| then 0
    else
      assert SlotTyped(sch.fields[i], m.slots[i]);
      SlotSize(sch.fields[i], m.slots[i]) + FieldsSize(sch, m, i + 1)
  }

  /** ByteSize, computed without serializing. */
  function ByteSize(sch: Schema, m: Msg): nat
    requires Typed(sch, m)
    decreases sch, 1
  {
    FieldsSize(sch, m, 0) + UnknownsSize(m.unknown)
  }

  // ----------------------------------------------------------------- writable

  predicate ValueWritable(k: Kind, v: Value): (b: bool)
    ensures b ==> ValueTyped(k, v)
    decreases k, 0
  {
    ValueTyped(k, v) && (k.MessageKind? ==> Writable(k.schema, v.m) && ByteSize(k.schema, v.m) <= INT_MAX)
  }

  predicate ValuesWritable(k: Kind, vs: seq<Value>): (b: bool)
    ensures b ==> ValuesTyped(k, vs)
    decreases k, 1
  {
    forall j :: 0 <= j < |vs| ==> ValueWritable(k, vs[j])
  }

  /** Well-typed values, and submessages whose size is an int: what can be serialized. */
  predicate Writable(sch: Schema, m: Msg)
    decreases sch, 0
  {
    Typed(sch, m) && AllStorable(m.unknown) &&
    forall i :: 0 <= i < |sch.fields| ==> ValuesWritable(sch.fields[i].kind, m.slots[i])
  }

  // ------------------------------------------------------------ transmission

  /** The parser for `sch` would put `u` among the unknown fields again: no field has its tag, or the
      field is an enum and the value is none of its constants. */
  predicate Foreign(sch: Schema, u: Unknown) {
    Storable(u) &&
    var i := FindTag(sch, UnknownTag(u));
    i < |sch.fields| ==>
      && sch.fields[i].kind.EnumKind?
      && u.UVarint?
      && u.varint == SignExtend(u.varint % TWO32)
      && !EMsgIsValid(u.varint % TWO32)
  }

  predicate AllForeign(sch: Schema, us: seq<Unknown>) {
    forall j :: 0 <= j < |us| ==> Foreign(sch, us[j])
  }

  predicate ValueTransmissible(k: Kind, v: Value): (b: bool)
    ensures b ==> ValueTyped(k, v)
    decreases k, 0
  {
    ValueTyped(k, v) &&
    (k.MessageKind? ==> Transmissible(k.schema, v.m) && ByteSize(k.schema, v.m) <= INT_MAX)
  }

  predicate ValuesTransmissible(k: Kind, vs: seq<Value>): (b: bool)
    ensures b ==> ValuesTyped(k, vs)
    decreases k, 1
  {
    forall j :: 0 <= j < |vs| ==> ValueTransmissible(k, vs[j])
  }

  /** Well-typed values, foreign unknown fields, and submessages whose size is an int. */
  predicate Transmissible(sch: Schema, m: Msg)
    decreases sch, 0
  {
    Typed(sch, m) && AllForeign(sch, m.unknown) &&
    forall i :: 0 <= i < |sch.fields| ==> ValuesTransmissible(sch.fields[i].kind, m.slots[i])
  }
}
