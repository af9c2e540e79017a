/** The limit on nesting.  The parser counts a budget down for every group and every submessage that it
    enters, and fails when the budget is used up; otherwise it reads what it would read without a limit. */
module RecursionLimit {
  import opened Octets
  import opened Wire
  import opened Schemas
  import opened Codec
  import Concatenation
  import RoundTrip

  /** default_recursion_limit_. */
  const RECURSION_LIMIT: nat := 100

  // -------------------------------------------------------- reading with a budget

  /** SkipField with a budget. */
  function SkipWithin(tag: nat, s: Bytes, budget: nat): (r: Read<Unknown>)
    ensures r.Got? ==> r == SkipField(tag, s)
    decreases |s|, 1
  {
    if WireType(tag) != WIRETYPE_START_GROUP then SkipField(tag, s)
    else if budget == 0 then Fail
    else
      match GroupWithin(FieldNumber(tag), s, budget - 1)
      case Fail => Fail
      case Got(us, rest) => Got(UGroup(FieldNumber(tag), us), rest)
  }

  function GroupWithin(number: nat, s: Bytes, budget: nat): (r: Read<seq<Unknown>>)
    ensures r.Got? ==> r == ReadGroup(number, s)
    decreases |s|, 0
  {
    match ReadTag(s)
    case Fail => Fail
    case Got(tag, t) =>
      if WireType(tag) == WIRETYPE_END_GROUP then
        if tag == MakeTag(number, WIRETYPE_END_GROUP) then Got([], t) else Fail
      else
        match SkipWithin(tag, t, budget)
        case Fail => Fail
        case Got(u, v) =>
          match GroupWithin(number, v, budget)
          case Fail => Fail
          case Got(us, rest) => Got([u] + us, rest)
  }

  /** What SkipField adds to the unknown fields: the field, or when it fails as much of a string or of a
      group as was there. */
  function SkipLeft(tag: nat, s: Bytes, budget: nat): (us: seq<Unknown>)
    ensures SkipWithin(tag, s, budget).Got? ==> us == [SkipWithin(tag, s, budget).value]
    decreases |s|, 1
  {
    var number := FieldNumber(tag);
    if WireType(tag) == WIRETYPE_START_GROUP then
      if budget == 0 then [] else [UGroup(number, GroupLeft(number, s, budget - 1))]
    else if WireType(tag) == WIRETYPE_LENGTH_DELIMITED then
      if ReadVarint(s).Fail? then [] else [UString(number, StringLeft([], s))]
    else if SkipWithin(tag, s, budget).Got? then [SkipWithin(tag, s, budget).value]
    else []
  }

  /** The same for the fields up to a tag that ends a group, whichever group it ends. */
  function GroupLeft(ghost number: nat, s: Bytes, budget: nat): (us: seq<Unknown>)
    ensures GroupWithin(number, s, budget).Got? ==> us == GroupWithin(number, s, budget).value
    decreases |s|, 0
  {
    var (tag, t) := NextTag(s);
    if s == [] || tag == 0 || WireType(tag) == WIRETYPE_END_GROUP then []
    else
      match SkipWithin(tag, t, budget)
      case Fail => SkipLeft(tag, t, budget)
      case Got(u, rest) => [u] + GroupLeft(number, rest, budget)
  }

  /** What a string holds after a read into it: the payload, or when the read fails what it held before or
      as much of the payload as was there. */
  function StringLeft(old': Bytes, s: Bytes): (b: Bytes)
    ensures ReadString(s).Got? ==> b == ReadString(s).value
    ensures |b| <= |old'| || |b| <= |s|
  {
    match ReadVarint(s)
    case Fail => old'
    case Got(v, t) =>
      var size := v % TWO32;
      if size > INT_MAX then old' else if size > |t| then t else t[..size]
  }

  /** The payload of known field `i`; a submessage costs one unit of the budget. */
  function FieldWithin(sch: Schema, i: nat, m: Msg, s: Bytes, budget: nat): (r: Read<Msg>)
    requires WellFormed(sch) && i < |sch.fields| && Typed(sch, m)
    ensures r.Got? ==> r == ReadField(sch, i, m, s)
    decreases |s|, 2
  {
    var f := sch.fields[i];
    if !f.kind.MessageKind? then ReadField(sch, i, m, s)
    else if budget == 0 then Fail
    else if f.arity == Repeated then
      var (body, rest) := ReadElementBody(s);
      var x := ParseWithin(f.kind.schema, Empty(f.kind.schema), body, budget - 1);
      assert SlotTyped(f, m.slots[i]);
      if x.None? then Fail
      else
        assert ValueTyped(f.kind, Sub(x.value));
        Got(SetSlot(sch, m, i, m.slots[i] + [Sub(x.value)]), rest)
    else
      match ReadBody(s)
      case Fail => Fail
      case Got(body, rest) =>
        var x := ParseWithin(f.kind.schema, Mutable(f, m.slots[i]), body, budget - 1);
        if x.None? then Fail else Got(SetSlot(sch, m, i, [Sub(x.value)]), rest)
  }

  function RecordWithin(sch: Schema, m: Msg, tag: nat, s: Bytes, budget: nat): (r: Read<Msg>)
    requires WellFormed(sch) && Typed(sch, m)
    ensures r.Got? ==> r == ReadRecord(sch, m, tag, s)
    decreases |s|, 3
  {
    var i := FindTag(sch, tag);
    if i < |sch.fields| then FieldWithin(sch, i, m, s, budget)
    else
      match SkipWithin(tag, s, budget)
      case Fail => Fail
      case Got(u, rest) => Got(AddUnknown(m, u), rest)
  }

  /** The parse loop with a budget. */
  function ScanWithin(sch: Schema, m: Msg, s: Bytes, budget: nat): (r: Scanned)
    requires WellFormed(sch) && Typed(sch, m)
    ensures !r.Failed? ==> r == Scan(sch, m, s)
    decreases |s|, 0
  {
    if s == [] then Ended(m)
    else
      var (tag, t) := NextTag(s);
      if tag == 0 || WireType(tag) == WIRETYPE_END_GROUP then Stopped(m, tag, t)
      else
        match RecordWithin(sch, m, tag, t, budget)
        case Fail => Failed
        case Got(m', rest) => ScanWithin(sch, m', rest, budget)
  }

  /** A parse with a budget: the loop must come to the end of the bytes. */
  function ParseWithin(sch: Schema, m: Msg, s: Bytes, budget: nat): (r: Option<Msg>)
    requires WellFormed(sch) && Typed(sch, m)
    ensures r.Some? ==> r == Parse(sch, m, s)
    decreases |s|, 1
  {
    ScanIsParse(sch, m, s);
    var r := ScanWithin(sch, m, s, budget);
    if r.Ended? then Some(r.m) else None
  }

  // --------------------------------------------------------------------- nesting

  /** Groups are nested at most `budget` deep. */
  predicate UnknownFits(u: Unknown, budget: nat) {
    u.UGroup? ==> budget > 0 && AllFit(u.group, budget - 1)
  }

  predicate AllFit(us: seq<Unknown>, budget: nat) {
    forall j :: 0 <= j < |us| ==> UnknownFits(us[j], budget)
  }

  predicate ValueFits(k: Kind, v: Value, budget: nat)
    requires ValueTyped(k, v)
    decreases k, 0
  {
    k.MessageKind? ==> budget > 0 && Fits(k.schema, v.m, budget - 1)
  }

  predicate ValuesFit(k: Kind, vs: seq<Value>, budget: nat)
    requires ValuesTyped(k, vs)
    decreases k, 1
  {
    forall j :: 0 <= j < |vs| ==> ValueFits(k, vs[j], budget)
  }

  /** Submessages, and the groups among the unknown fields, are nested at most `budget` deep. */
  predicate Fits(sch: Schema, m: Msg, budget: nat)
    requires Typed(sch, m)
    decreases sch, 0
  {
    AllFit(m.unknown, budget) &&
    forall i :: 0 <= i < |sch.fields| ==>
      assert SlotTyped(sch.fields[i], m.slots[i]);
      ValuesFit(sch.fields[i].kind, m.slots[i], budget)
  }

  lemma EmptyFits(sch: Schema, budget: nat)
    ensures Fits(sch, Empty(sch), budget)
  {
  }

  // ----------------------------------------------------- unknown fields with a budget

  /** A field is skipped exactly if its groups are not nested deeper than the budget. */
  lemma {:induction false} SkipWithinIsSkip(tag: nat, s: Bytes, budget: nat)
    ensures SkipWithin(tag, s, budget)
         == var r := SkipField(tag, s); if r.Got? && UnknownFits(r.value, budget) then r else Fail
    decreases |s|, 1
  {
    if WireType(tag) == WIRETYPE_START_GROUP && budget > 0 {
      GroupWithinIsGroup(FieldNumber(tag), s, budget - 1);
    }
  }

  lemma {:induction false} GroupWithinIsGroup(number: nat, s: Bytes, budget: nat)
    ensures GroupWithin(number, s, budget)
         == var r := ReadGroup(number, s); if r.Got? && AllFit(r.value, budget) then r else Fail
    decreases |s|, 0
  {
    var r := ReadTag(s);
    if r.Got? && WireType(r.value) != WIRETYPE_END_GROUP {
      SkipWithinIsSkip(r.value, r.rest, budget);
      var f := SkipField(r.value, r.rest);
      if f.Got? {
        GroupWithinIsGroup(number, f.rest, budget);
        var g := ReadGroup(number, f.rest);
        if g.Got? { FirstFits(f.value, g.value, budget); }
      }
    }
  }

  lemma FirstFits(u: Unknown, us: seq<Unknown>, budget: nat)
    ensures AllFit([u] + us, budget) <==> UnknownFits(u, budget) && AllFit(us, budget)
  {
    var all := [u] + us;
    assert all[0] == u && forall j :: 0 <= j < |us| ==> all[j + 1] == us[j];
  }

  /** What was written of an unknown field is read back exactly if its groups fit the budget. */
  lemma WrittenUnknownFits(u: Unknown, t: Bytes, budget: nat)
    requires Storable(u)
    ensures SkipWithin(UnknownTag(u), WritePayload(u) + t, budget) == if UnknownFits(u, budget) then Got(u, t) else Fail
  {
    UnknownRoundTrip(u, t);
    SkipWithinIsSkip(UnknownTag(u), WritePayload(u) + t, budget);
  }

  /** Groups inside groups, `n` of them. */
  function Nested(n: nat): Unknown {
    if n == 0 then UVarint(15, 0) else UGroup(15, [Nested(n - 1)])
  }

  /** One group more than the limit allows is written, and cannot be read back. */
  lemma {:induction false} NestedFits(n: nat, budget: nat)
    ensures Storable(Nested(n)) && (UnknownFits(Nested(n), budget) <==> n <= budget)
  {
    if n > 0 {
      NestedFits(n - 1, if budget == 0 then 0 else budget - 1);
      assert AllStorable([Nested(n - 1)]) by { assert [Nested(n - 1)][1..] == []; }
    }
  }

  // ------------------------------------------------------------ messages with a budget

  /** Putting values into a slot of a message. */
  lemma SetSlotFits(sch: Schema, m: Msg, i: nat, vs: seq<Value>, budget: nat)
    requires Typed(sch, m) && i < |sch.fields| && SlotTyped(sch.fields[i], vs)
    ensures SlotTyped(sch.fields[i], m.slots[i])
    ensures Fits(sch, SetSlot(sch, m, i, vs), budget) ==> ValuesFit(sch.fields[i].kind, vs, budget)
    ensures ValuesFit(sch.fields[i].kind, vs, budget) && Fits(sch, m, budget) ==> Fits(sch, SetSlot(sch, m, i, vs), budget)
    ensures Fits(sch, SetSlot(sch, m, i, vs), budget) && ValuesFit(sch.fields[i].kind, m.slots[i], budget)
          ==> Fits(sch, m, budget)
  {
    hide ValuesFit, SlotTyped, AllFit;
    var n := SetSlot(sch, m, i, vs);
    TypedSlots(sch, m);
    TypedSlots(sch, n);
    if Fits(sch, n, budget) && ValuesFit(sch.fields[i].kind, m.slots[i], budget) {
      forall j | 0 <= j < |sch.fields| ensures ValuesFit(sch.fields[j].kind, m.slots[j], budget) {
        assert j != i ==> n.slots[j] == m.slots[j] && ValuesFit(sch.fields[j].kind, n.slots[j], budget);
      }
    }
  }

  lemma TypedSlots(sch: Schema, m: Msg)
    requires Typed(sch, m)
    ensures forall i :: 0 <= i < |sch.fields| ==>
              SlotTyped(sch.fields[i], m.slots[i]) && ValuesTyped(sch.fields[i].kind, m.slots[i])
  {
  }

  lemma AddUnknownFits(sch: Schema, m: Msg, u: Unknown, budget: nat)
    requires Typed(sch, m)
    ensures Typed(sch, AddUnknown(m, u))
    ensures Fits(sch, AddUnknown(m, u), budget) <==> Fits(sch, m, budget) && UnknownFits(u, budget)
  {
    var n := AddUnknown(m, u);
    assert n.unknown[|m.unknown|] == u && forall j :: 0 <= j < |m.unknown| ==> n.unknown[j] == m.unknown[j];
    assert AllFit(n.unknown, budget) <==> AllFit(m.unknown, budget) && UnknownFits(u, budget);
    TypedSlots(sch, m);
  }

  lemma OneSubFits(f: Field, x: Msg, budget: nat)
    requires f.kind.MessageKind? && Typed(f.kind.schema, x)
    ensures ValuesTyped(f.kind, [Sub(x)])
    ensures ValuesFit(f.kind, [Sub(x)], budget) <==> budget > 0 && Fits(f.kind.schema, x, budget - 1)
  {
    assert [Sub(x)][0] == Sub(x);
    assert ValueFits(f.kind, Sub(x), budget) <==> budget > 0 && Fits(f.kind.schema, x, budget - 1);
  }

  lemma MoreSubsFit(f: Field, vs: seq<Value>, x: Msg, budget: nat)
    requires f.kind.MessageKind? && ValuesTyped(f.kind, vs) && Typed(f.kind.schema, x)
    ensures ValuesTyped(f.kind, vs + [Sub(x)])
    ensures ValuesFit(f.kind, vs + [Sub(x)], budget)
          <==> ValuesFit(f.kind, vs, budget) && budget > 0 && Fits(f.kind.schema, x, budget - 1)
  {
    var ws := vs + [Sub(x)];
    assert ws[|vs|] == Sub(x) && forall j :: 0 <= j < |vs| ==> ws[j] == vs[j];
    assert ValueFits(f.kind, Sub(x), budget) <==> budget > 0 && Fits(f.kind.schema, x, budget - 1);
  }

  lemma MutableFits(f: Field, vs: seq<Value>, budget: nat)
    requires f.kind.MessageKind? && f.arity != Repeated && SlotTyped(f, vs) && budget > 0
    ensures ValuesFit(f.kind, vs, budget) <==> Fits(f.kind.schema, Mutable(f, vs), budget - 1)
  {
    if vs == [] {
      EmptyFits(f.kind.schema, budget - 1);
    } else {
      OneSubFits(f, vs[0].m, budget);
      assert vs == [Sub(vs[0].m)];
    }
  }

  /** A scalar field, and an unknown enum value, fit any budget. */
  lemma ScalarFits(sch: Schema, i: nat, m: Msg, s: Bytes, budget: nat)
    requires WellFormed(sch) && i < |sch.fields| && Typed(sch, m) && !sch.fields[i].kind.MessageKind?
          && ReadField(sch, i, m, s).Got?
    ensures Fits(sch, ReadField(sch, i, m, s).value, budget) <==> Fits(sch, m, budget)
  {
    hide Fits;
    var f, n := sch.fields[i], ReadField(sch, i, m, s).value;
    TypedSlots(sch, m);
    TypedSlots(sch, n);
    if f.kind.EnumKind? && !EMsgIsValid(ReadVarint(s).value % TWO32) {
      AddUnknownFits(sch, m, UVarint(f.number, SignExtend(ReadVarint(s).value % TWO32)), budget);
    } else {
      assert n == SetSlot(sch, m, i, n.slots[i]);
      SetSlotFits(sch, m, i, n.slots[i], budget);
    }
  }

  /** Reading only adds: what came out fits a budget only if what went in did. */
  lemma {:induction false} FieldOnlyAdds(sch: Schema, i: nat, m: Msg, s: Bytes, budget: nat)
    requires WellFormed(sch) && i < |sch.fields| && Typed(sch, m) && ReadField(sch, i, m, s).Got?
    requires Fits(sch, ReadField(sch, i, m, s).value, budget)
    ensures Fits(sch, m, budget)
    decreases |s|, 2
  {
    hide Fits, ValuesFit;
    var f := sch.fields[i];
    TypedSlots(sch, m);
    if !f.kind.MessageKind? {
      ScalarFits(sch, i, m, s, budget);
    } else if f.arity == Repeated {
      var x := Parse(f.kind.schema, Empty(f.kind.schema), ReadElementBody(s).0).value;
      MoreSubsFit(f, m.slots[i], x, budget);
      SetSlotFits(sch, m, i, m.slots[i] + [Sub(x)], budget);
    } else {
      var sub, old', body := f.kind.schema, Mutable(f, m.slots[i]), ReadBody(s).value;
      var x := Parse(sub, old', body).value;
      OneSubFits(f, x, budget);
      SetSlotFits(sch, m, i, [Sub(x)], budget);
      ScanIsParse(sub, old', body);
      ScanOnlyAdds(sub, old', body, budget - 1);
      MutableFits(f, m.slots[i], budget);
    }
  }

  lemma {:induction false} ScanOnlyAdds(sch: Schema, m: Msg, s: Bytes, budget: nat)
    requires WellFormed(sch) && Typed(sch, m) && !Scan(sch, m, s).Failed? && Fits(sch, Scan(sch, m, s).m, budget)
    ensures Fits(sch, m, budget)
    decreases |s|, 0
  {
    hide Fits, ReadField, SkipField;
    var (tag, t) := NextTag(s);
    if s != [] && tag != 0 && WireType(tag) != WIRETYPE_END_GROUP {
      var Got(m', rest) := ReadRecord(sch, m, tag, t);
      ScanOnlyAdds(sch, m', rest, budget);
      var i := FindTag(sch, tag);
      if i < |sch.fields| {
        FieldOnlyAdds(sch, i, m, t, budget);
      } else {
        AddUnknownFits(sch, m, SkipField(tag, t).value, budget);
      }
    }
  }

  /** A field of a message that fits is read exactly if the message still fits afterwards. */
  lemma {:induction false} FieldWithinIsField(sch: Schema, i: nat, m: Msg, s: Bytes, budget: nat)
    requires WellFormed(sch) && i < |sch.fields| && Typed(sch, m) && Fits(sch, m, budget)
    ensures FieldWithin(sch, i, m, s, budget)
         == var r := ReadField(sch, i, m, s); if r.Got? && Fits(sch, r.value, budget) then r else Fail
    decreases |s|, 3
  {
    hide Fits, ValuesFit;
    var f, r := sch.fields[i], ReadField(sch, i, m, s);
    TypedSlots(sch, m);
    if !f.kind.MessageKind? {
      if r.Got? { ScalarFits(sch, i, m, s, budget); }
    } else {
      FitsAt(sch, m, i, budget);
      if f.arity == Repeated {
        ElementWithin(sch, i, m, s, budget);
      } else {
        ChildWithin(sch, i, m, s, budget);
      }
    }
  }

  lemma FitsAt(sch: Schema, m: Msg, i: nat, budget: nat)
    requires Typed(sch, m) && Fits(sch, m, budget) && i < |sch.fields|
    ensures SlotTyped(sch.fields[i], m.slots[i]) && ValuesFit(sch.fields[i].kind, m.slots[i], budget)
  {
  }

  lemma {:induction false} ElementWithin(sch: Schema, i: nat, m: Msg, s: Bytes, budget: nat)
    requires WellFormed(sch) && i < |sch.fields| && Typed(sch, m) && Fits(sch, m, budget)
    requires sch.fields[i].kind.MessageKind? && sch.fields[i].arity == Repeated
    requires SlotTyped(sch.fields[i], m.slots[i]) && ValuesFit(sch.fields[i].kind, m.slots[i], budget)
    ensures FieldWithin(sch, i, m, s, budget)
         == var r := ReadField(sch, i, m, s); if r.Got? && Fits(sch, r.value, budget) then r else Fail
    decreases |s|, 2
  {
    hide Fits, ValuesFit, Parse, ParseWithin;
    var f, sub := sch.fields[i], sch.fields[i].kind.schema;
    var body := ReadElementBody(s).0;
    var x := Parse(sub, Empty(sub), body);
    if x.Some? {
      MoreSubsFit(f, m.slots[i], x.value, budget);
      SetSlotFits(sch, m, i, m.slots[i] + [Sub(x.value)], budget);
    }
    if budget > 0 {
      EmptyFits(sub, budget - 1);
      ParseWithinIsParse(sub, Empty(sub), body, budget - 1);
    }
  }

  lemma {:induction false} ChildWithin(sch: Schema, i: nat, m: Msg, s: Bytes, budget: nat)
    requires WellFormed(sch) && i < |sch.fields| && Typed(sch, m) && Fits(sch, m, budget)
    requires sch.fields[i].kind.MessageKind? && sch.fields[i].arity != Repeated
    requires SlotTyped(sch.fields[i], m.slots[i]) && ValuesFit(sch.fields[i].kind, m.slots[i], budget)
    ensures FieldWithin(sch, i, m, s, budget)
         == var r := ReadField(sch, i, m, s); if r.Got? && Fits(sch, r.value, budget) then r else Fail
    decreases |s|, 2
  {
    hide Fits, ValuesFit, Parse, ParseWithin;
    var f, sub := sch.fields[i], sch.fields[i].kind.schema;
    if ReadBody(s).Got? {
      var body, old' := ReadBody(s).value, Mutable(f, m.slots[i]);
      var x := Parse(sub, old', body);
      if x.Some? {
        OneSubFits(f, x.value, budget);
        SetSlotFits(sch, m, i, [Sub(x.value)], budget);
      }
      if budget > 0 {
        MutableFits(f, m.slots[i], budget);
        ParseWithinIsParse(sub, old', body, budget - 1);
      }
    }
  }

  lemma {:induction false} RecordWithinIsRecord(sch: Schema, m: Msg, tag: nat, s: Bytes, budget: nat)
    requires WellFormed(sch) && Typed(sch, m) && Fits(sch, m, budget)
    ensures RecordWithin(sch, m, tag, s, budget)
         == var r := ReadRecord(sch, m, tag, s); if r.Got? && Fits(sch, r.value, budget) then r else Fail
    decreases |s|, 4
  {
    hide Fits, UnknownFits, ReadField, FieldWithin, SkipField, SkipWithin;
    var i := FindTag(sch, tag);
    if i < |sch.fields| {
      FieldWithinIsField(sch, i, m, s, budget);
    } else {
      SkipWithinIsSkip(tag, s, budget);
      var f := SkipField(tag, s);
      if f.Got? { AddUnknownFits(sch, m, f.value, budget); }
    }
  }

  /** With a limit the parse loop ends as it does without one, with the same message, the same tag and the
      same bytes left, if the message that it built is within the limit; and it fails if not. */
  lemma {:induction false} ScanWithinIsScan(sch: Schema, m: Msg, s: Bytes, budget: nat)
    requires WellFormed(sch) && Typed(sch, m) && Fits(sch, m, budget)
    ensures ScanWithin(sch, m, s, budget)
         == var r := Scan(sch, m, s); if !r.Failed? && Fits(sch, r.m, budget) then r else Failed
    decreases |s|, 0
  {
    hide Fits, ReadRecord, RecordWithin;
    var (tag, t) := NextTag(s);
    if s != [] && tag != 0 && WireType(tag) != WIRETYPE_END_GROUP {
      RecordWithinIsRecord(sch, m, tag, t, budget);
      var r := ReadRecord(sch, m, tag, t);
      if r.Got? {
        if Fits(sch, r.value, budget) {
          ScanWithinIsScan(sch, r.value, r.rest, budget);
        } else if !Scan(sch, r.value, r.rest).Failed? && Fits(sch, Scan(sch, r.value, r.rest).m, budget) {
          ScanOnlyAdds(sch, r.value, r.rest, budget);
        }
      }
    }
  }

  lemma {:induction false} ParseWithinIsParse(sch: Schema, m: Msg, s: Bytes, budget: nat)
    requires WellFormed(sch) && Typed(sch, m) && Fits(sch, m, budget)
    ensures ParseWithin(sch, m, s, budget)
         == var r := Parse(sch, m, s); if r.Some? && Fits(sch, r.value, budget) then r else None
    decreases |s|, 1
  {
    hide Fits;
    ScanIsParse(sch, m, s);
    ScanWithinIsScan(sch, m, s, budget);
  }

  /** What was serialized is parsed back exactly if the message is not nested deeper than the limit. */
  lemma ParseUndoesSerializeWithin(sch: Schema, x: Msg, budget: nat)
    requires WellFormed(sch) && Transmissible(sch, x)
    ensures Typed(sch, x)
    ensures ParseWithin(sch, Empty(sch), Serialize(sch, x), budget) == if Fits(sch, x, budget) then Some(x) else None
  {
    RoundTrip.ParseUndoesSerialize(sch, x);
    EmptyFits(sch, budget);
    ParseWithinIsParse(sch, Empty(sch), Serialize(sch, x), budget);
  }

  // ------------------------------------------------------------------ merging

  /** A merged message is nested as deep as the deeper of the two. */
  lemma {:induction false} MergeFits(sch: Schema, a: Msg, b: Msg, budget: nat)
    requires Typed(sch, a) && Typed(sch, b)
    ensures Fits(sch, Merge(sch, a, b), budget) <==> Fits(sch, a, budget) && Fits(sch, b, budget)
    decreases sch, 1
  {
    hide ValuesFit, SlotTyped, MergeSlot, UnknownFits;
    var c := Merge(sch, a, b);
    TypedSlots(sch, a);
    TypedSlots(sch, b);
    TypedSlots(sch, c);
    BothFit(a.unknown, b.unknown, budget);
    forall i | 0 <= i < |sch.fields|
      ensures ValuesFit(sch.fields[i].kind, c.slots[i], budget)
         <==> ValuesFit(sch.fields[i].kind, a.slots[i], budget) && ValuesFit(sch.fields[i].kind, b.slots[i], budget)
    {
      MergeAt(sch, a, b, i);
      MergeSlotFits(sch.fields[i], a.slots[i], b.slots[i], budget);
    }
  }

  lemma BothFit(us: seq<Unknown>, vs: seq<Unknown>, budget: nat)
    ensures AllFit(us + vs, budget) <==> AllFit(us, budget) && AllFit(vs, budget)
  {
    assert forall j :: 0 <= j < |us| ==> (us + vs)[j] == us[j];
    assert forall j :: 0 <= j < |vs| ==> (us + vs)[|us| + j] == vs[j];
  }

  lemma {:induction false} MergeSlotFits(f: Field, a: seq<Value>, b: seq<Value>, budget: nat)
    requires SlotTyped(f, a) && SlotTyped(f, b)
    ensures ValuesTyped(f.kind, a) && ValuesTyped(f.kind, b) && ValuesTyped(f.kind, MergeSlot(f, a, b))
    ensures ValuesFit(f.kind, MergeSlot(f, a, b), budget) <==> ValuesFit(f.kind, a, budget) && ValuesFit(f.kind, b, budget)
    decreases f, 1
  {
    if f.arity == Repeated {
      assert forall j :: 0 <= j < |a| ==> (a + b)[j] == a[j];
      assert forall j :: 0 <= j < |b| ==> (a + b)[|a| + j] == b[j];
    } else if b != [] && f.kind.MessageKind? {
      var sub := f.kind.schema;
      assert ValueTyped(f.kind, b[0]) && (a != [] ==> ValueTyped(f.kind, a[0]));
      var into := if a == [] then Empty(sub) else a[0].m;
      OneSubFits(f, Merge(sub, into, b[0].m), budget);
      OneSubFits(f, b[0].m, budget);
      assert b == [Sub(b[0].m)];
      if a != [] {
        OneSubFits(f, a[0].m, budget);
        assert a == [Sub(a[0].m)];
      }
      if budget > 0 {
        EmptyFits(sub, budget - 1);
        MergeFits(sub, into, b[0].m, budget - 1);
      }
    }
  }

  ghost predicate MergesWithinLimit(sch: Schema, s: Bytes, budget: nat)
    requires WellFormed(sch) && ParseWithin(sch, Empty(sch), s, budget).Some?
  {
    forall t: Bytes :: ParseWithin(sch, Empty(sch), t, budget).Some? ==>
      ParseWithin(sch, Empty(sch), s + t, budget)
      == Some(Merge(sch, ParseWithin(sch, Empty(sch), s, budget).value, ParseWithin(sch, Empty(sch), t, budget).value))
  }

  /** The concatenation law under any limit: again exactly the closed encodings obey it. */
  lemma LimitKeepsConcatenationLaw(sch: Schema, s: Bytes, budget: nat)
    requires WellFormed(sch) && ParseWithin(sch, Empty(sch), s, budget).Some?
    ensures MergesWithinLimit(sch, s, budget) <==> Concatenation.Closed(sch, s)
  {
    hide Concatenation.Closed, Fits, ParseWithin, Merge;
    EmptyFits(sch, budget);
    ParseWithinIsParse(sch, Empty(sch), s, budget);
    if Concatenation.Closed(sch, s) {
      forall t: Bytes | ParseWithin(sch, Empty(sch), t, budget).Some?
        ensures ParseWithin(sch, Empty(sch), s + t, budget)
             == Some(Merge(sch, ParseWithin(sch, Empty(sch), s, budget).value, ParseWithin(sch, Empty(sch), t, budget).value))
      {
        ParseWithinIsParse(sch, Empty(sch), t, budget);
        ParseWithinIsParse(sch, Empty(sch), s + t, budget);
        Concatenation.ClosedConcatenationMerges(sch, s, t);
        MergeFits(sch, Parse(sch, Empty(sch), s).value, Parse(sch, Empty(sch), t).value, budget);
      }
    } else {
      var p := Concatenation.PROBE;
      Concatenation.ProbeIsUnknown(sch, Empty(sch));
      ParseWithinIsParse(sch, Empty(sch), p, budget);
      AddUnknownFits(sch, Empty(sch), UVarint(15, 0), budget);
      var x := Parse(sch, Empty(sch), s).value;
      Concatenation.OpenParseLosesProbe(sch, Empty(sch), s);
      var whole := Merge(sch, x, Parse(sch, Empty(sch), p).value);
      assert |whole.unknown| == |x.unknown| + 1 by { MergeUnknown(sch, x, Parse(sch, Empty(sch), p).value); }
      ParseWithinIsParse(sch, Empty(sch), s + p, budget);
    }
  }

  lemma MergeUnknown(sch: Schema, a: Msg, b: Msg)
    requires Typed(sch, a) && Typed(sch, b)
    ensures Merge(sch, a, b).unknown == a.unknown + b.unknown
  {
  }
}
