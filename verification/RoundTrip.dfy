/** The size pass counts exactly the bytes that serialization emits, and parsing undoes
    serialization at every nesting level. */
module RoundTrip {
  import opened Octets
  import opened Wire
  import opened Schemas
  import opened Codec
  import Concatenation

  // -------------------------------------------------------------------- size

  lemma FieldTagIsOneByte(sch: Schema, i: nat)
    requires WellFormed(sch) && i < |sch.fields|
    ensures 8 <= FieldTag(sch.fields[i]) < 128 && WireType(FieldTag(sch.fields[i])) != WIRETYPE_END_GROUP
    ensures FieldNumber(FieldTag(sch.fields[i])) == sch.fields[i].number
  {
  }

  lemma {:induction false} ValueSizeIsLength(sch: Schema, i: nat, v: Value)
    requires WellFormed(sch) && i < |sch.fields| && ValueWritable(sch.fields[i].kind, v)
    ensures |WriteValue(sch.fields[i], v)| == ValueSize(sch.fields[i], v)
    decreases sch, 0
  {
    var f := sch.fields[i];
    FieldTagIsOneByte(sch, i);
    match f.kind
    case EnumKind => VarintSizeIsLength(SignExtend(v.n));
    case Int32Kind => VarintSizeIsLength(SignExtend(v.n));
    case UInt32Kind => VarintSizeIsLength(v.n);
    case Fixed32Kind =>
    case BoolKind =>
    case BytesKind => VarintSizeIsLength(|v.b|);
    case MessageKind(sub) =>
      ByteSizeIsLength(sub, v.m);
      VarintSizeIsLength(ByteSize(sub, v.m));
  }

  lemma {:induction false} SlotSizeIsLength(sch: Schema, i: nat, vs: seq<Value>)
    requires WellFormed(sch) && i < |sch.fields|
    requires ValuesWritable(sch.fields[i].kind, vs)
    ensures |WriteSlot(sch.fields[i], vs)| == SlotSize(sch.fields[i], vs)
    decreases sch, 1, |vs|
  {
    if vs != [] {
      ValueSizeIsLength(sch, i, vs[0]);
      SlotSizeIsLength(sch, i, vs[1..]);
    }
  }

  lemma {:induction false} FieldsSizeIsLength(sch: Schema, m: Msg, i: nat)
    requires WellFormed(sch) && Writable(sch, m) && i <= |sch.fields|
    ensures |WriteFields(sch, m, i)| == FieldsSize(sch, m, i)
    decreases sch, 2, |sch.fields| - i
  {
    if i < |sch.fields| {
      SlotSizeIsLength(sch, i, m.slots[i]);
      FieldsSizeIsLength(sch, m, i + 1);
    }
  }

  /** ByteSize is the length of the serialization, whichever required fields are missing. */
  lemma {:induction false} ByteSizeIsLength(sch: Schema, m: Msg)
    requires WellFormed(sch) && Writable(sch, m)
    ensures |Serialize(sch, m)| == ByteSize(sch, m)
    decreases sch, 3
  {
    FieldsSizeIsLength(sch, m, 0);
    UnknownsSizeIsLength(m.unknown);
  }

  // -------------------------------------------------------------- round trip

  lemma AllForeignAreStorable(sch: Schema, us: seq<Unknown>)
    requires AllForeign(sch, us)
    ensures AllStorable(us)
  {
    if us != [] {
      assert Foreign(sch, us[0]);
      assert forall j :: 0 <= j < |us[1..]| ==> us[1..][j] == us[j + 1];
      AllForeignAreStorable(sch, us[1..]);
    }
  }

  lemma {:induction false} TransmissibleIsWritable(sch: Schema, m: Msg)
    requires Transmissible(sch, m)
    ensures Writable(sch, m)
    decreases sch, 1
  {
    AllForeignAreStorable(sch, m.unknown);
    forall i | 0 <= i < |sch.fields| ensures ValuesWritable(sch.fields[i].kind, m.slots[i]) {
      assert ValuesTransmissible(sch.fields[i].kind, m.slots[i]);
      ValuesTransmissibleAreWritable(sch.fields[i], m.slots[i]);
    }
  }

  lemma {:induction false} ValuesTransmissibleAreWritable(f: Field, vs: seq<Value>)
    requires ValuesTransmissible(f.kind, vs)
    ensures ValuesWritable(f.kind, vs)
    decreases f, 0
  {
    forall j | 0 <= j < |vs| ensures ValueWritable(f.kind, vs[j]) {
      assert ValueTransmissible(f.kind, vs[j]);
      if f.kind.MessageKind? {
        TransmissibleIsWritable(f.kind.schema, vs[j].m);
      }
    }
  }

  lemma FindsField(sch: Schema, i: nat)
    requires WellFormed(sch) && i < |sch.fields|
    ensures FindTag(sch, FieldTag(sch.fields[i])) == i
  {
    FieldTagIsOneByte(sch, i);
    var k := FindTag(sch, FieldTag(sch.fields[i]));
    if k < |sch.fields| {
      FieldTagIsOneByte(sch, k);
    }
  }

  lemma SignExtendInverts(n: nat)
    requires n < TWO32
    ensures SignExtend(n) < TWO64 && SignExtend(n) % TWO32 == n
  {
    assert TWO64 - TWO32 == (TWO32 - 1) * TWO32;
    assert (n + (TWO32 - 1) * TWO32) % TWO32 == n;
  }

  lemma DelimitExact(b: Bytes, t: Bytes)
    requires |b| <= INT_MAX
    ensures Delimit(|b|, b + t) == (b, t)
  {
    assert (b + t)[..|b|] == b && (b + t)[|b|..] == t;
  }

  lemma BodyRoundTrip(b: Bytes, t: Bytes)
    requires |b| <= INT_MAX
    ensures ReadBody(WriteString(b) + t) == Got(b, t)
    ensures ReadElementBody(WriteString(b) + t) == (b, t)
  {
    assert WriteString(b) + t == WriteVarint(|b|) + (b + t);
    Varint64RoundTrip(|b|, b + t);
    SmallResidue(|b|);
    DelimitExact(b, t);
  }

  /** The payload that follows a field's tag. */
  function Payload(f: Field, v: Value): Bytes
    requires ValueTyped(f.kind, v)
  {
    WriteValue(f, v)[|WriteVarint(FieldTag(f))|..]
  }

  lemma PayloadSplits(f: Field, v: Value, t: Bytes)
    requires ValueTyped(f.kind, v)
    ensures WriteValue(f, v) + t == WriteVarint(FieldTag(f)) + (Payload(f, v) + t)
  {
  }

  /** Room for one more value in the slot. */
  predicate HasRoom(f: Field, vs: seq<Value>) {
    f.arity == Repeated || vs == []
  }

  lemma NumberRoundTrip(sch: Schema, i: nat, m: Msg, v: Value, t: Bytes)
    requires WellFormed(sch) && i < |sch.fields| && Typed(sch, m)
    requires ValueTyped(sch.fields[i].kind, v) && m.slots[i] == [] && v.Num?
    ensures ReadField(sch, i, m, Payload(sch.fields[i], v) + t) == Got(SetSlot(sch, m, i, [v]), t)
  {
    var f, p := sch.fields[i], Payload(sch.fields[i], v);
    SmallResidue(v.n);
    if f.kind.EnumKind? || f.kind.Int32Kind? {
      SignExtendInverts(v.n);
      assert p == WriteVarint(SignExtend(v.n));
      Varint64RoundTrip(SignExtend(v.n), t);
    } else if f.kind.Fixed32Kind? {
      assert p == WriteFixed32(v.n);
      Fixed32RoundTrip(v.n, t);
    } else {
      assert p == WriteVarint(v.n);
      Varint64RoundTrip(v.n, t);
    }
  }

  lemma PayloadRoundTrip(sch: Schema, i: nat, m: Msg, v: Value, t: Bytes)
    requires WellFormed(sch) && i < |sch.fields| && Typed(sch, m)
    requires ValueTransmissible(sch.fields[i].kind, v) && HasRoom(sch.fields[i], m.slots[i])
    ensures SlotTyped(sch.fields[i], m.slots[i] + [v])
    ensures ReadField(sch, i, m, Payload(sch.fields[i], v) + t) == Got(SetSlot(sch, m, i, m.slots[i] + [v]), t)
    decreases sch, 0
  {
    var f, p := sch.fields[i], Payload(sch.fields[i], v);
    assert SlotTyped(f, m.slots[i]);
    assert m.slots[i] == [] ==> m.slots[i] + [v] == [v];
    match f.kind
    case BytesKind =>
      assert p == WriteString(v.b);
      StringRoundTrip(v.b, t);
    case MessageKind(sub) =>
      assert p == WriteString(Serialize(sub, v.m));
      TransmissibleIsWritable(sub, v.m);
      ByteSizeIsLength(sub, v.m);
      BodyRoundTrip(Serialize(sub, v.m), t);
      ParseUndoesSerialize(sub, v.m);
    case EnumKind => NumberRoundTrip(sch, i, m, v, t);
    case Int32Kind => NumberRoundTrip(sch, i, m, v, t);
    case UInt32Kind => NumberRoundTrip(sch, i, m, v, t);
    case Fixed32Kind => NumberRoundTrip(sch, i, m, v, t);
    case BoolKind => NumberRoundTrip(sch, i, m, v, t);
  }

  lemma ValueRoundTrip(sch: Schema, i: nat, m: Msg, v: Value, t: Bytes)
    requires WellFormed(sch) && i < |sch.fields| && Typed(sch, m)
    requires ValueTransmissible(sch.fields[i].kind, v) && HasRoom(sch.fields[i], m.slots[i])
    ensures SlotTyped(sch.fields[i], m.slots[i] + [v])
    ensures Parse(sch, m, WriteValue(sch.fields[i], v) + t) == Parse(sch, SetSlot(sch, m, i, m.slots[i] + [v]), t)
    decreases sch, 1
  {
    var f := sch.fields[i];
    var rest := Payload(f, v) + t;
    PayloadSplits(f, v, t);
    FieldTagIsOneByte(sch, i);
    FindsField(sch, i);
    TagRoundTrip(FieldTag(f), rest);
    PayloadRoundTrip(sch, i, m, v, t);
    assert ReadRecord(sch, m, FieldTag(f), rest) == ReadField(sch, i, m, rest);
  }

  lemma {:induction false} SlotRoundTrip(sch: Schema, i: nat, m: Msg, vs: seq<Value>, t: Bytes)
    requires WellFormed(sch) && i < |sch.fields| && Typed(sch, m)
    requires ValuesTransmissible(sch.fields[i].kind, vs)
    requires sch.fields[i].arity != Repeated ==> |vs| <= 1 && m.slots[i] == []
    ensures SlotTyped(sch.fields[i], m.slots[i] + vs)
    ensures Parse(sch, m, WriteSlot(sch.fields[i], vs) + t) == Parse(sch, SetSlot(sch, m, i, m.slots[i] + vs), t)
    decreases sch, 2, |vs|
  {
    var f := sch.fields[i];
    SlotExtends(f, m.slots[i], vs);
    if vs == [] {
      assert WriteSlot(f, vs) + t == t;
      assert m.slots[i] + vs == m.slots[i] && m.slots[i := m.slots[i]] == m.slots;
    } else {
      var tail, first, rest := WriteSlot(f, vs[1..]) + t, m.slots[i] + [vs[0]], vs[1..];
      ConcatAssociative(WriteValue(f, vs[0]), WriteSlot(f, rest), t);
      ValueRoundTrip(sch, i, m, vs[0], tail);
      HeadAndTail(vs, m.slots[i]);
      if rest == [] {
        assert tail == t && m.slots[i] + vs == first;
      } else {
        var m' := SetSlot(sch, m, i, first);
        SlotRoundTrip(sch, i, m', rest, t);
        SetSlotTwice(sch, m, i, first, first + rest);
      }
    }
  }

  lemma SetSlotTwice(sch: Schema, m: Msg, i: nat, a: seq<Value>, b: seq<Value>)
    requires Typed(sch, m) && i < |sch.fields| && SlotTyped(sch.fields[i], a) && SlotTyped(sch.fields[i], b)
    ensures SetSlot(sch, SetSlot(sch, m, i, a), i, b) == SetSlot(sch, m, i, b)
  {
    assert m.slots[i := a][i := b] == m.slots[i := b];
  }

  lemma SlotExtends(f: Field, a: seq<Value>, b: seq<Value>)
    requires SlotTyped(f, a) && ValuesTyped(f.kind, b)
    requires f.arity != Repeated ==> |b| <= 1 && a == []
    ensures SlotTyped(f, a + b)
  {
  }

  lemma {:induction false} FieldsRoundTrip(sch: Schema, i: nat, m: Msg, x: Msg, t: Bytes)
    requires WellFormed(sch) && Typed(sch, m) && Transmissible(sch, x) && i <= |sch.fields|
    requires forall j :: 0 <= j < i ==> m.slots[j] == x.slots[j]
    requires forall j :: i <= j < |sch.fields| ==> m.slots[j] == []
    ensures Typed(sch, Msg(x.slots, m.unknown))
    ensures Parse(sch, m, WriteFields(sch, x, i) + t) == Parse(sch, Msg(x.slots, m.unknown), t)
    decreases sch, 3, |sch.fields| - i
  {
    if i == |sch.fields| {
      assert WriteFields(sch, x, i) + t == t;
      assert m.slots == x.slots;
    } else {
      var f, vs := sch.fields[i], x.slots[i];
      assert SlotTyped(f, vs);
      var tail := WriteFields(sch, x, i + 1) + t;
      ConcatAssociative(WriteSlot(f, vs), WriteFields(sch, x, i + 1), t);
      SlotRoundTrip(sch, i, m, vs, tail);
      assert m.slots[i] + vs == vs;
      FieldsRoundTrip(sch, i + 1, SetSlot(sch, m, i, vs), x, t);
    }
  }

  lemma ForeignRoundTrip(sch: Schema, m: Msg, u: Unknown, t: Bytes)
    requires WellFormed(sch) && Typed(sch, m) && Foreign(sch, u)
    ensures Parse(sch, m, WriteUnknown(u) + t) == Parse(sch, AddUnknown(m, u), t)
  {
    UnknownRoundTrip(u, t);
    var tag, rest := UnknownTag(u), WritePayload(u) + t;
    var i := FindTag(sch, tag);
    if i < |sch.fields| {
      FieldTagIsOneByte(sch, i);
      Varint64RoundTrip(u.varint, t);
      assert ReadRecord(sch, m, tag, rest) == ReadField(sch, i, m, rest);
      TagParts(u.number, WIRETYPE_VARINT);
      assert u == UVarint(sch.fields[i].number, SignExtend(u.varint % TWO32));
    }
    assert ReadRecord(sch, m, tag, rest) == Got(AddUnknown(m, u), t);
  }

  lemma {:induction false} UnknownsRoundTrip(sch: Schema, m: Msg, us: seq<Unknown>, t: Bytes)
    requires WellFormed(sch) && Typed(sch, m) && AllForeign(sch, us)
    ensures Parse(sch, m, WriteUnknowns(us) + t) == Parse(sch, m.(unknown := m.unknown + us), t)
    decreases |us|
  {
    if us == [] {
      assert WriteUnknowns(us) + t == t;
      assert m.unknown + us == m.unknown;
    } else {
      var tail := WriteUnknowns(us[1..]) + t;
      ConcatAssociative(WriteUnknown(us[0]), WriteUnknowns(us[1..]), t);
      ForeignRoundTrip(sch, m, us[0], tail);
      assert AllForeign(sch, us[1..]);
      UnknownsRoundTrip(sch, AddUnknown(m, us[0]), us[1..], t);
      HeadAndTail(us, m.unknown);
    }
  }

  /** Whatever follows a serialized message is read into that message. */
  lemma {:induction false} SerializedPrefix(sch: Schema, x: Msg, t: Bytes)
    requires WellFormed(sch) && Transmissible(sch, x)
    ensures Parse(sch, Empty(sch), Serialize(sch, x) + t) == Parse(sch, x, t)
    decreases sch, 4
  {
    var known, unknown := WriteFields(sch, x, 0), WriteUnknowns(x.unknown);
    assert Serialize(sch, x) + t == known + (unknown + t);
    FieldsRoundTrip(sch, 0, Empty(sch), x, unknown + t);
    UnknownsRoundTrip(sch, Msg(x.slots, []), x.unknown, t);
    assert [] + x.unknown == x.unknown;
  }

  /** Parsing a serialized message into an empty one gives the message back: every value, every
      presence, every present but empty submessage and every unknown field. */
  lemma {:induction false} ParseUndoesSerialize(sch: Schema, x: Msg)
    requires WellFormed(sch) && Transmissible(sch, x)
    ensures Parse(sch, Empty(sch), Serialize(sch, x)) == Some(x)
    decreases sch, 5
  {
    SerializedPrefix(sch, x, []);
    assert Serialize(sch, x) + [] == Serialize(sch, x);
  }

  /** A serialized message is closed, so concatenated serializations always merge. */
  lemma SerializedIsClosed(sch: Schema, x: Msg)
    requires WellFormed(sch) && Transmissible(sch, x)
    ensures Concatenation.Closed(sch, Serialize(sch, x))
  {
    ParseUndoesSerialize(sch, x);
    forall t: Bytes
      ensures Parse(sch, Empty(sch), Serialize(sch, x) + t)
           == Concatenation.MergeParsed(sch, x, Parse(sch, Empty(sch), t))
    {
      SerializedPrefix(sch, x, t);
      Concatenation.ParseIsMerge(sch, x, t);
    }
    Concatenation.ConcatenationMergesExactlyWhenClosed(sch, Serialize(sch, x));
  }

  /** Two messages with the same serialization are the same message. */
  lemma SerializeIsInjective(sch: Schema, x: Msg, y: Msg)
    requires WellFormed(sch) && Transmissible(sch, x) && Transmissible(sch, y)
    requires Serialize(sch, x) == Serialize(sch, y)
    ensures x == y
  {
    ParseUndoesSerialize(sch, x);
    ParseUndoesSerialize(sch, y);
  }
}
