/** What a parser can have produced: messages that serialization and a second parse give back, and that
    are at most twice as long on the wire as the bytes that they came from. */
module Reparse {
  import opened Octets
  import opened Wire
  import opened Schemas
  import opened Codec
  import opened RecursionLimit
  import opened CodedStream
  import RoundTrip

  // ------------------------------------------------------------ what was skipped

  lemma TagSplits(tag: nat)
    ensures MakeTag(FieldNumber(tag), WireType(tag)) == tag
    ensures WireType(tag) == WIRETYPE_START_GROUP && tag < TWO32 ==> MakeTag(FieldNumber(tag), WIRETYPE_END_GROUP) < TWO32
  {
  }

  /** A skipped field has the tag that it was found by, and can be stored. */
  lemma {:induction false} SkippedIsStorable(tag: nat, s: Bytes)
    requires 0 < tag < TWO32 && SkipField(tag, s).Got?
    ensures UnknownTag(SkipField(tag, s).value) == tag && Storable(SkipField(tag, s).value)
    decreases |s|, 1
  {
    hide MakeTag, FieldNumber, WireType, ReadVarint, ReadFixed32, ReadString, ReadGroup;
    TagSplits(tag);
    if WireType(tag) == WIRETYPE_START_GROUP {
      GroupIsStorable(FieldNumber(tag), s);
    }
  }

  lemma {:induction false} GroupIsStorable(number: nat, s: Bytes)
    requires ReadGroup(number, s).Got?
    ensures AllStorable(ReadGroup(number, s).value)
    decreases |s|, 0
  {
    var Got(tag, t) := ReadTag(s);
    if WireType(tag) != WIRETYPE_END_GROUP {
      SkippedIsStorable(tag, t);
      var Got(u, v) := SkipField(tag, t);
      GroupIsStorable(number, v);
      var us := ReadGroup(number, v).value;
      assert ([u] + us)[1..] == us;
    }
  }

  // ------------------------------------------------------------------- settled

  predicate ValueSettled(k: Kind, v: Value): (b: bool)
    ensures b ==> ValueTyped(k, v)
    decreases k, 0
  {
    ValueTyped(k, v) && (k.MessageKind? ==> Settled(k.schema, v.m))
  }

  predicate ValuesSettled(k: Kind, vs: seq<Value>): (b: bool)
    ensures b ==> ValuesTyped(k, vs)
    decreases k, 1
  {
    forall j :: 0 <= j < |vs| ==> ValueSettled(k, vs[j])
  }

  /** Well typed, and at every level each unknown field is one that the parser would find unknown again. */
  predicate Settled(sch: Schema, m: Msg)
    decreases sch, 0
  {
    Typed(sch, m) && AllForeign(sch, m.unknown) &&
    forall i :: 0 <= i < |sch.fields| ==> ValuesSettled(sch.fields[i].kind, m.slots[i])
  }

  lemma EmptyIsSettled(sch: Schema)
    ensures Settled(sch, Empty(sch))
  {
  }

  lemma SetSlotSettles(sch: Schema, m: Msg, i: nat, vs: seq<Value>)
    requires Settled(sch, m) && i < |sch.fields| && SlotTyped(sch.fields[i], vs) && ValuesSettled(sch.fields[i].kind, vs)
    ensures Settled(sch, SetSlot(sch, m, i, vs))
  {
  }

  lemma AddUnknownSettles(sch: Schema, m: Msg, u: Unknown)
    requires Settled(sch, m) && Foreign(sch, u)
    ensures Settled(sch, AddUnknown(m, u))
  {
    assert Typed(sch, AddUnknown(m, u));
  }

  lemma MutableIsSettled(f: Field, vs: seq<Value>)
    requires f.kind.MessageKind? && f.arity != Repeated && SlotTyped(f, vs) && ValuesSettled(f.kind, vs)
    ensures Settled(f.kind.schema, Mutable(f, vs))
  {
    if vs == [] {
      EmptyIsSettled(f.kind.schema);
    } else {
      assert ValueSettled(f.kind, vs[0]);
    }
  }

  /** An enum value that is not a constant goes to the unknown fields, and would go there again. */
  lemma EnumIsForeign(sch: Schema, i: nat, e: nat)
    requires WellFormed(sch) && i < |sch.fields| && sch.fields[i].kind.EnumKind? && e < TWO32 && !EMsgIsValid(e)
    ensures Foreign(sch, UVarint(sch.fields[i].number, SignExtend(e)))
  {
    RoundTrip.SignExtendInverts(e);
    RoundTrip.FindsField(sch, i);
    RoundTrip.FieldTagIsOneByte(sch, i);
  }

  lemma {:induction false} FieldSettles(sch: Schema, i: nat, m: Msg, s: Bytes)
    requires WellFormed(sch) && i < |sch.fields| && Settled(sch, m) && ReadField(sch, i, m, s).Got?
    ensures Settled(sch, ReadField(sch, i, m, s).value)
    decreases |s|, 2
  {
    hide Settled;
    SettledParts(sch, m);
    var f, r := sch.fields[i], ReadField(sch, i, m, s);
    assert SlotTyped(f, m.slots[i]) && ValuesSettled(f.kind, m.slots[i]);
    match f.kind
    case EnumKind =>
      var e := ReadVarint(s).value % TWO32;
      if EMsgIsValid(e) { SetSlotSettles(sch, m, i, [Num(e)]); } else {
        EnumIsForeign(sch, i, e);
        AddUnknownSettles(sch, m, UVarint(f.number, SignExtend(e)));
      }
    case MessageKind(sub) =>
      if f.arity == Repeated {
        EmptyIsSettled(sub);
        var body := ReadElementBody(s).0;
        ParseSettles(sub, Empty(sub), body);
        SetSlotSettles(sch, m, i, m.slots[i] + [Sub(Parse(sub, Empty(sub), body).value)]);
      } else {
        MutableIsSettled(f, m.slots[i]);
        var body := ReadBody(s).value;
        ParseSettles(sub, Mutable(f, m.slots[i]), body);
        SetSlotSettles(sch, m, i, [Sub(Parse(sub, Mutable(f, m.slots[i]), body).value)]);
      }
    case _ =>
      var vs := r.value.slots[i];
      assert r.value == SetSlot(sch, m, i, vs) && SlotTyped(f, vs);
      SetSlotSettles(sch, m, i, vs);
  }

  lemma SettledParts(sch: Schema, m: Msg)
    requires Settled(sch, m)
    ensures Typed(sch, m) && forall i :: 0 <= i < |sch.fields| ==> ValuesSettled(sch.fields[i].kind, m.slots[i])
  {
  }

  lemma RecordSettles(sch: Schema, m: Msg, tag: nat, s: Bytes)
    requires WellFormed(sch) && Settled(sch, m) && 0 < tag < TWO32 && ReadRecord(sch, m, tag, s).Got?
    ensures Settled(sch, ReadRecord(sch, m, tag, s).value)
    decreases |s|, 3
  {
    hide Settled;
    SettledParts(sch, m);
    var i := FindTag(sch, tag);
    if i < |sch.fields| {
      FieldSettles(sch, i, m, s);
    } else {
      SkippedIsStorable(tag, s);
      AddUnknownSettles(sch, m, SkipField(tag, s).value);
    }
  }

  /** A parse into a settled message leaves it settled. */
  lemma {:induction false} ParseSettles(sch: Schema, m: Msg, s: Bytes)
    requires WellFormed(sch) && Settled(sch, m) && Parse(sch, m, s).Some?
    ensures Settled(sch, Parse(sch, m, s).value)
    decreases |s|, 1
  {
    hide Settled, ReadRecord;
    SettledParts(sch, m);
    if s != [] {
      var Got(tag, t) := ReadTag(s);
      RecordSettles(sch, m, tag, t);
      var Got(m', rest) := ReadRecord(sch, m, tag, t);
      ParseSettles(sch, m', rest);
    }
  }

  /** So does the parse loop when it stops at a zero or an end-group tag. */
  lemma {:induction false} ScanSettles(sch: Schema, m: Msg, s: Bytes)
    requires WellFormed(sch) && Settled(sch, m) && !Scan(sch, m, s).Failed?
    ensures Settled(sch, Scan(sch, m, s).m)
    decreases |s|
  {
    hide Settled, ReadRecord;
    SettledParts(sch, m);
    var (tag, t) := NextTag(s);
    if s != [] && tag != 0 && WireType(tag) != WIRETYPE_END_GROUP {
      RecordSettles(sch, m, tag, t);
      var Got(m', rest) := ReadRecord(sch, m, tag, t);
      ScanSettles(sch, m', rest);
    }
  }

  // -------------------------------------------------------------------- growth

  lemma {:induction false} VarintTakes(s: Bytes, budget: nat)
    requires ReadVarint(s, budget).Got?
    ensures var k := |s| - |ReadVarint(s, budget).rest|; 1 <= k && ReadVarint(s, budget).value < Pow128(k)
  {
    if s[0] < 128 {
      assert Pow128(1) == 128;
    } else {
      VarintTakes(s[1..], budget - 1);
      var k := |s| - |ReadVarint(s, budget).rest|;
      assert Pow128(k) == 128 * Pow128(k - 1);
    }
  }

  lemma {:induction false} ShortVarint(v: nat, k: nat)
    requires v < Pow128(k) && 1 <= k
    ensures |WriteVarint(v)| <= k
  {
    if v >= 128 {
      assert Pow128(k) == 128 * Pow128(k - 1);
      assert Pow128(0) == 1;
      ShortVarint(v / 128, k - 1);
    }
  }

  lemma {:induction false} PowGrows(j: nat, k: nat)
    requires j <= k
    ensures Pow128(j) <= Pow128(k)
  {
    if j < k {
      PowGrows(j, k - 1);
    }
  }

  /** A number below 2^64 that is not above what a varint of `k` bytes can hold. */
  lemma SizeWithin(n: nat, v: nat, k: nat)
    requires n <= v < Pow128(k) && 1 <= k && n < TWO64
    ensures VarintSize(n) <= k && (n > INT_MAX ==> 5 <= k)
  {
    ShortVarint(n, k);
    VarintSizeIsLength(n);
    if k < 5 {
      PowGrows(k, 4);
      assert Pow128(4) == 128 * 128 * 128 * 128;
    }
  }

  lemma Residues(v: nat)
    ensures v % TWO32 <= v && v % TWO64 <= v && v % TWO32 < TWO32 && v % TWO64 < TWO64
  {
  }

  /** No number is read from fewer bytes than it is written to, except for the sign extension. */
  lemma VarintNotShorter(s: Bytes)
    requires ReadVarint(s).Got?
    ensures var v, k := ReadVarint(s).value, |s| - |ReadVarint(s).rest|;
      && 1 <= k && VarintSize(v % TWO32) <= k && VarintSize(v % TWO64) <= k
      && SignedSize(v % TWO32) <= 2 * k && (v % TWO32 > INT_MAX ==> 5 <= k)
  {
    hide VarintSize, ReadVarint;
    var v, k := ReadVarint(s).value, |s| - |ReadVarint(s).rest|;
    VarintTakes(s, 10);
    Residues(v);
    SizeWithin(v % TWO32, v, k);
    SizeWithin(v % TWO64, v, k);
  }

  lemma VarintSizeGrows(a: nat, b: nat)
    requires a <= b
    ensures 1 <= VarintSize(a) <= VarintSize(b) <= 10 && VarintSize(2 * b) <= VarintSize(b) + 1
  {
  }

  lemma VarintSizeAdds(a: nat, b: nat)
    ensures VarintSize(a + b) <= VarintSize(a) + VarintSize(b)
  {
    hide VarintSize;
    var m := if a < b then b else a;
    VarintSizeGrows(a + b, 2 * m);
    VarintSizeGrows(a, m);
    VarintSizeGrows(b, m);
  }

  // ------------------------------------------------------------ sizes of the parts

  lemma {:induction false} FieldsSizeSet(sch: Schema, m: Msg, i: nat, vs: seq<Value>, from: nat)
    requires Typed(sch, m) && i < |sch.fields| && SlotTyped(sch.fields[i], vs) && from <= |sch.fields|
    ensures SlotTyped(sch.fields[i], m.slots[i])
    ensures FieldsSize(sch, SetSlot(sch, m, i, vs), from)
         == FieldsSize(sch, m, from) + if from <= i then SlotSize(sch.fields[i], vs) - SlotSize(sch.fields[i], m.slots[i]) else 0
    decreases |sch.fields| - from
  {
    if from < |sch.fields| {
      FieldsSizeSet(sch, m, i, vs, from + 1);
    }
  }

  lemma ByteSizeSet(sch: Schema, m: Msg, i: nat, vs: seq<Value>)
    requires Typed(sch, m) && i < |sch.fields| && SlotTyped(sch.fields[i], vs)
    ensures SlotTyped(sch.fields[i], m.slots[i])
    ensures ByteSize(sch, SetSlot(sch, m, i, vs))
         == ByteSize(sch, m) + SlotSize(sch.fields[i], vs) - SlotSize(sch.fields[i], m.slots[i])
  {
    FieldsSizeSet(sch, m, i, vs, 0);
  }

  lemma {:induction false} SlotSizeAppend(f: Field, vs: seq<Value>, v: Value)
    requires ValuesTyped(f.kind, vs) && ValueTyped(f.kind, v)
    ensures ValuesTyped(f.kind, vs + [v]) && SlotSize(f, vs + [v]) == SlotSize(f, vs) + ValueSize(f, v)
  {
    if vs == [] {
      assert [] + [v] == [v] && [v][1..] == [];
    } else {
      assert (vs + [v])[1..] == vs[1..] + [v];
      SlotSizeAppend(f, vs[1..], v);
    }
  }

  lemma {:induction false} UnknownsSizeAppend(us: seq<Unknown>, u: Unknown)
    ensures UnknownsSize(us + [u]) == UnknownsSize(us) + UnknownSize(u)
  {
    if us == [] {
      assert [] + [u] == [u] && [u][1..] == [];
    } else {
      assert (us + [u])[1..] == us[1..] + [u];
      UnknownsSizeAppend(us[1..], u);
    }
  }

  lemma ByteSizeAddUnknown(sch: Schema, m: Msg, u: Unknown)
    requires Typed(sch, m)
    ensures Typed(sch, AddUnknown(m, u)) && ByteSize(sch, AddUnknown(m, u)) == ByteSize(sch, m) + UnknownSize(u)
  {
    UnknownsSizeAppend(m.unknown, u);
    SameFields(sch, m, AddUnknown(m, u), 0);
  }

  lemma {:induction false} SameFields(sch: Schema, m: Msg, n: Msg, i: nat)
    requires Typed(sch, m) && Typed(sch, n) && m.slots == n.slots && i <= |sch.fields|
    ensures FieldsSize(sch, m, i) == FieldsSize(sch, n, i)
    decreases |sch.fields| - i
  {
    if i < |sch.fields| {
      SameFields(sch, m, n, i + 1);
    }
  }

  // ------------------------------------------------------------ growth of a parse

  lemma StringNotShorter(s: Bytes)
    requires ReadString(s).Got?
    ensures VarintSize(|ReadString(s).value|) + |ReadString(s).value| <= |s| - |ReadString(s).rest|
  {
    hide VarintSize, ReadVarint;
    VarintNotShorter(s);
  }

  /** An unknown field is not longer than the bytes that it was skipped from. */
  lemma {:induction false} SkippedNotLonger(tag: nat, s: Bytes)
    requires 0 < tag < TWO32 && SkipField(tag, s).Got?
    ensures UnknownSize(SkipField(tag, s).value) <= VarintSize(tag) + |s| - |SkipField(tag, s).rest|
    decreases |s|, 1
  {
    hide VarintSize, MakeTag, FieldNumber, WireType, ReadVarint, ReadString, ReadGroup;
    TagSplits(tag);
    var t := WireType(tag);
    if t == WIRETYPE_VARINT {
      VarintNotShorter(s);
    } else if t == WIRETYPE_LENGTH_DELIMITED {
      StringNotShorter(s);
    } else if t == WIRETYPE_START_GROUP {
      GroupNotLonger(FieldNumber(tag), s);
    }
  }

  lemma {:induction false} GroupNotLonger(number: nat, s: Bytes)
    requires ReadGroup(number, s).Got?
    ensures UnknownsSize(ReadGroup(number, s).value) + VarintSize(MakeTag(number, WIRETYPE_END_GROUP))
         <= |s| - |ReadGroup(number, s).rest|
    decreases |s|, 0
  {
    hide VarintSize, MakeTag, WireType, ReadVarint, SkipField;
    VarintNotShorter(s);
    var Got(tag, t) := ReadTag(s);
    if WireType(tag) != WIRETYPE_END_GROUP {
      SkippedNotLonger(tag, t);
      var Got(u, v) := SkipField(tag, t);
      GroupNotLonger(number, v);
      var us := ReadGroup(number, v).value;
      assert ([u] + us)[1..] == us;
    }
  }

  /** A submessage that grew by at most twice its body, behind a prefix of `p` bytes. */
  lemma SubmessageGrows(before: nat, after: nat, body: nat, p: nat)
    requires after <= before + 2 * body && 1 <= p && (VarintSize(body) <= p || 5 <= p)
    ensures DelimitedSize(after) <= DelimitedSize(before) + 2 * p + 1 + 2 * body
    ensures before == 0 ==> DelimitedSize(after) <= 2 * p + 1 + 2 * body
  {
    hide VarintSize;
    VarintSizeGrows(after, before + 2 * body);
    VarintSizeAdds(before, 2 * body);
    VarintSizeGrows(body, body);
    VarintSizeGrows(2 * body, 2 * body);
    VarintSizeGrows(before, before);
  }

  lemma NothingDelimited()
    ensures DelimitedSize(0) == 1
  {
  }

  lemma OneValueSize(f: Field, v: Value)
    requires ValueTyped(f.kind, v)
    ensures ValuesTyped(f.kind, [v]) && SlotSize(f, [v]) == ValueSize(f, v) && SlotSize(f, []) == 0
  {
    assert [v][1..] == [];
  }

  /** A field that is replaced by one value. */
  lemma ReplacedSize(sch: Schema, m: Msg, i: nat, v: Value)
    requires Typed(sch, m) && i < |sch.fields| && SlotTyped(sch.fields[i], [v])
    ensures ValueTyped(sch.fields[i].kind, v)
    ensures ByteSize(sch, SetSlot(sch, m, i, [v])) <= ByteSize(sch, m) + ValueSize(sch.fields[i], v)
  {
    assert [v][0] == v;
    ByteSizeSet(sch, m, i, [v]);
    OneValueSize(sch.fields[i], v);
  }

  /** Body, prefix and what follows of a singular submessage. */
  lemma BodyPrefix(s: Bytes) returns (p: nat)
    requires ReadBody(s).Got?
    ensures |s| == p + |ReadBody(s).value| + |ReadBody(s).rest| && 1 <= p && VarintSize(|ReadBody(s).value|) <= p
  {
    hide VarintSize, ReadVarint;
    var Got(v, t) := ReadVarint(s);
    p := |s| - |t|;
    VarintNotShorter(s);
    assert |Delimit(v % TWO64, t).0 + Delimit(v % TWO64, t).1| == |t|;
    VarintSizeGrows(|ReadBody(s).value|, v % TWO64);
  }

  lemma ElementPrefix(s: Bytes) returns (p: nat)
    requires ReadVarint(s).Got?
    ensures var (body, rest) := ReadElementBody(s);
      |s| == p + |body| + |rest| && 1 <= p && (VarintSize(|body|) <= p || 5 <= p)
  {
    hide VarintSize, ReadVarint;
    var Got(v, t) := ReadVarint(s);
    p := |s| - |t|;
    VarintNotShorter(s);
    assert |Delimit(v % TWO32, t).0 + Delimit(v % TWO32, t).1| == |t|;
    if v % TWO32 <= INT_MAX {
      VarintSizeGrows(|ReadElementBody(s).0|, v % TWO32);
    }
  }

  lemma {:induction false} EmptySize(sch: Schema, i: nat)
    requires i <= |sch.fields|
    ensures FieldsSize(sch, Empty(sch), i) == 0 && (i == 0 ==> ByteSize(sch, Empty(sch)) == 0)
    decreases |sch.fields| - i
  {
    if i < |sch.fields| {
      EmptySize(sch, i + 1);
    }
  }

  lemma ChildGrows(sch: Schema, i: nat, m: Msg, body: nat, p: nat, x: Msg)
    requires Typed(sch, m) && i < |sch.fields| && sch.fields[i].kind.MessageKind? && sch.fields[i].arity != Repeated
    requires SlotTyped(sch.fields[i], m.slots[i]) && Typed(sch.fields[i].kind.schema, x)
    requires ByteSize(sch.fields[i].kind.schema, x)
          <= ByteSize(sch.fields[i].kind.schema, Mutable(sch.fields[i], m.slots[i])) + 2 * body
    requires 1 <= p && (VarintSize(body) <= p || 5 <= p)
    ensures SlotTyped(sch.fields[i], [Sub(x)])
    ensures ByteSize(sch, SetSlot(sch, m, i, [Sub(x)])) <= ByteSize(sch, m) + 2 + 2 * p + 2 * body
  {
    hide VarintSize, ByteSize, DelimitedSize;
    var f, sub, vs := sch.fields[i], sch.fields[i].kind.schema, m.slots[i];
    var old' := Mutable(f, vs);
    SubmessageGrows(ByteSize(sub, old'), ByteSize(sub, x), body, p);
    OneValueSize(f, Sub(x));
    ByteSizeSet(sch, m, i, [Sub(x)]);
    if vs == [] {
      EmptySize(sub, 0);
    } else {
      assert ValueTyped(f.kind, vs[0]) && vs == [Sub(old')];
      OneValueSize(f, Sub(old'));
    }
  }

  lemma ElementGrows(sch: Schema, i: nat, m: Msg, body: nat, p: nat, x: Msg)
    requires Typed(sch, m) && i < |sch.fields| && sch.fields[i].kind.MessageKind? && sch.fields[i].arity == Repeated
    requires Typed(sch.fields[i].kind.schema, x) && ByteSize(sch.fields[i].kind.schema, x) <= 2 * body
    requires if p == 0 then body == 0 else VarintSize(body) <= p || 5 <= p
    ensures SlotTyped(sch.fields[i], m.slots[i] + [Sub(x)])
    ensures ByteSize(sch, SetSlot(sch, m, i, m.slots[i] + [Sub(x)])) <= ByteSize(sch, m) + 2 + 2 * p + 2 * body
  {
    hide VarintSize, ByteSize, DelimitedSize;
    var f, sub, vs := sch.fields[i], sch.fields[i].kind.schema, m.slots[i];
    assert SlotTyped(f, vs) && ValueTyped(f.kind, Sub(x));
    SlotSizeAppend(f, vs, Sub(x));
    ByteSizeSet(sch, m, i, vs + [Sub(x)]);
    if p == 0 {
      NothingDelimited();
    } else {
      SubmessageGrows(0, ByteSize(sub, x), body, p);
    }
  }

  /** A number or a bytes field, one byte of tag aside. */
  lemma ScalarGrows(sch: Schema, i: nat, m: Msg, s: Bytes)
    requires WellFormed(sch) && i < |sch.fields| && Typed(sch, m) && !sch.fields[i].kind.MessageKind?
          && ReadField(sch, i, m, s).Got?
    ensures ByteSize(sch, ReadField(sch, i, m, s).value) <= ByteSize(sch, m) + 2 + 2 * (|s| - |ReadField(sch, i, m, s).rest|)
  {
    hide VarintSize, ReadVarint, ReadString, ByteSize, EMsgIsValid;
    var f := sch.fields[i];
    if f.kind.BytesKind? {
      StringNotShorter(s);
      ReplacedSize(sch, m, i, Str(ReadString(s).value));
    } else if f.kind.Fixed32Kind? {
      ReplacedSize(sch, m, i, Num(ReadFixed32(s).value % TWO32));
    } else {
      VarintNotShorter(s);
      var v := ReadVarint(s).value;
      if f.kind.BoolKind? {
        ReplacedSize(sch, m, i, Num(if v % TWO64 != 0 then 1 else 0));
      } else if f.kind.EnumKind? && !EMsgIsValid(v % TWO32) {
        var u := UVarint(f.number, SignExtend(v % TWO32));
        ByteSizeAddUnknown(sch, m, u);
        UnknownEnumSize(sch, i, v % TWO32);
      } else {
        ReplacedSize(sch, m, i, Num(v % TWO32));
      }
    }
  }

  lemma UnknownEnumSize(sch: Schema, i: nat, e: nat)
    requires WellFormed(sch) && i < |sch.fields| && e < TWO32
    ensures UnknownSize(UVarint(sch.fields[i].number, SignExtend(e))) == 1 + SignedSize(e)
  {
  }

  lemma {:induction false} FieldGrows(sch: Schema, i: nat, m: Msg, s: Bytes)
    requires WellFormed(sch) && i < |sch.fields| && Typed(sch, m) && ReadField(sch, i, m, s).Got?
    ensures ByteSize(sch, ReadField(sch, i, m, s).value) <= ByteSize(sch, m) + 2 + 2 * (|s| - |ReadField(sch, i, m, s).rest|)
    decreases |s|, 2
  {
    hide VarintSize, ReadVarint, ByteSize;
    var f := sch.fields[i];
    if !f.kind.MessageKind? {
      ScalarGrows(sch, i, m, s);
    } else {
      var sub := f.kind.schema;
      if f.arity == Repeated {
        var body := ReadElementBody(s).0;
        var x := Parse(sub, Empty(sub), body).value;
        EmptySize(sub, 0);
        ParseAtMostDoubles(sub, Empty(sub), body);
        var p := 0;
        if ReadVarint(s).Got? { p := ElementPrefix(s); }
        ElementGrows(sch, i, m, |body|, p, x);
      } else {
        assert SlotTyped(f, m.slots[i]);
        var body := ReadBody(s).value;
        var x := Parse(sub, Mutable(f, m.slots[i]), body).value;
        ParseAtMostDoubles(sub, Mutable(f, m.slots[i]), body);
        var p := BodyPrefix(s);
        ChildGrows(sch, i, m, |body|, p, x);
      }
    }
  }

  /** A parse adds at most two bytes of serialized size for each byte that it reads. */
  lemma {:induction false} ParseAtMostDoubles(sch: Schema, m: Msg, s: Bytes)
    requires WellFormed(sch) && Typed(sch, m) && Parse(sch, m, s).Some?
    ensures ByteSize(sch, Parse(sch, m, s).value) <= ByteSize(sch, m) + 2 * |s|
    decreases |s|, 1
  {
    hide VarintSize, ReadVarint, ByteSize, ReadField, SkipField;
    if s != [] {
      var Got(tag, t) := ReadTag(s);
      VarintNotShorter(s);
      var Got(m', rest) := ReadRecord(sch, m, tag, t);
      var i := FindTag(sch, tag);
      if i < |sch.fields| {
        FieldGrows(sch, i, m, t);
      } else {
        SkippedNotLonger(tag, t);
        ByteSizeAddUnknown(sch, m, SkipField(tag, t).value);
      }
      ParseAtMostDoubles(sch, m', rest);
    }
  }

  // --------------------------------------------------------------- fixed points

  lemma {:induction false} ValueWithinSlot(f: Field, vs: seq<Value>, j: nat)
    requires ValuesTyped(f.kind, vs) && j < |vs|
    ensures ValueSize(f, vs[j]) <= SlotSize(f, vs)
  {
    if j > 0 {
      ValueWithinSlot(f, vs[1..], j - 1);
    }
  }

  lemma {:induction false} SlotWithinFields(sch: Schema, m: Msg, i: nat, from: nat)
    requires Typed(sch, m) && from <= i < |sch.fields|
    ensures SlotTyped(sch.fields[i], m.slots[i]) && SlotSize(sch.fields[i], m.slots[i]) <= FieldsSize(sch, m, from)
    decreases i - from
  {
    if from < i {
      SlotWithinFields(sch, m, i, from + 1);
    }
  }

  /** A settled message whose size is an int can be transmitted: no submessage is larger than the whole. */
  lemma {:induction false} SettledIsTransmissible(sch: Schema, m: Msg)
    requires Settled(sch, m) && ByteSize(sch, m) <= INT_MAX
    ensures Transmissible(sch, m)
    decreases sch, 1
  {
    forall i | 0 <= i < |sch.fields| ensures ValuesTransmissible(sch.fields[i].kind, m.slots[i]) {
      assert ValuesSettled(sch.fields[i].kind, m.slots[i]);
      SlotWithinFields(sch, m, i, 0);
      SlotIsTransmissible(sch.fields[i], m.slots[i]);
    }
  }

  lemma {:induction false} SlotIsTransmissible(f: Field, vs: seq<Value>)
    requires ValuesSettled(f.kind, vs) && SlotSize(f, vs) <= INT_MAX
    ensures ValuesTransmissible(f.kind, vs)
    decreases f, 0
  {
    forall j | 0 <= j < |vs| ensures ValueTransmissible(f.kind, vs[j]) {
      assert ValueSettled(f.kind, vs[j]);
      ValueWithinSlot(f, vs, j);
      if f.kind.MessageKind? {
        SettledIsTransmissible(f.kind.schema, vs[j].m);
      }
    }
  }

  /** Whatever a parser accepts, serialized and parsed again, is the same message: for every input of less
      than a gigabyte, and for a longer one if the size of the message is an int. */
  lemma ReparseIsFixed(sch: Schema, s: Bytes)
    requires WellFormed(sch) && Parse(sch, Empty(sch), s).Some?
    requires |s| <= INT_MAX / 2 || ByteSize(sch, Parse(sch, Empty(sch), s).value) <= INT_MAX
    ensures var x := Parse(sch, Empty(sch), s).value;
      && Transmissible(sch, x)
      && Parse(sch, Empty(sch), Serialize(sch, x)) == Some(x)
      && |Serialize(sch, x)| <= 2 * |s|
  {
    hide Transmissible, Settled, ByteSize, Serialize;
    var x := Parse(sch, Empty(sch), s).value;
    EmptySize(sch, 0);
    ParseAtMostDoubles(sch, Empty(sch), s);
    EmptyIsSettled(sch);
    ParseSettles(sch, Empty(sch), s);
    SettledIsTransmissible(sch, x);
    RoundTrip.ParseUndoesSerialize(sch, x);
    RoundTrip.TransmissibleIsWritable(sch, x);
    RoundTrip.ByteSizeIsLength(sch, x);
  }

  /** The same under the limit on nesting: what was accepted is accepted again. */
  lemma AcceptedIsFixed(sch: Schema, s: Bytes, budget: nat)
    requires WellFormed(sch) && ParseWithin(sch, Empty(sch), s, budget).Some?
    requires |s| <= TOTAL_BYTES_LIMIT / 2 || ByteSize(sch, ParseWithin(sch, Empty(sch), s, budget).value) <= TOTAL_BYTES_LIMIT
    ensures var x := ParseWithin(sch, Empty(sch), s, budget).value;
      && Transmissible(sch, x)
      && |Serialize(sch, x)| <= TOTAL_BYTES_LIMIT
      && ParseWithin(sch, Empty(sch), Serialize(sch, x), budget) == Some(x)
  {
    hide Fits, ByteSize, Transmissible;
    ReparseIsFixed(sch, s);
    EmptyFits(sch, budget);
    ParseWithinIsParse(sch, Empty(sch), s, budget);
    ParseUndoesSerializeWithin(sch, Parse(sch, Empty(sch), s).value, budget);
    RoundTrip.TransmissibleIsWritable(sch, Parse(sch, Empty(sch), s).value);
    RoundTrip.ByteSizeIsLength(sch, Parse(sch, Empty(sch), s).value);
  }
}
