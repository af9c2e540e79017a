/** What a parse does to the storage of a message, as a function: whether it succeeds, what it leaves in
    every field when it does not, and how that relates to the parse of the message that is shown. */
module Intake {
  import opened Octets
  import opened Wire
  import opened Schemas
  import opened Codec
  import opened RecursionLimit
  import opened Storage

  /** A reader's result, the storage in either case, and what is left to read on success. */
  datatype Arrival = Arrival(ok: bool, st: Store, rest: Bytes)

  /** How the parse loop comes to rest. */
  datatype Halt = AtEnd(st: Store) | AtTag(st: Store, tag: nat, rest: Bytes) | Broken(st: Store)

  /** A number after its tag.  A uint32 is read into the field itself, which a failure overwrites; the
      presence bit is set after the read. */
  function NumberInto(sch: Schema, i: nat, st: Store, s: Bytes): (r: Arrival)
    requires WellFormed(sch) && i < |sch.fields| && Valid(sch, st) && IsNumber(sch.fields[i])
    ensures Valid(sch, r.st) && |r.rest| <= |s|
  {
    var f := sch.fields[i];
    var r := if f.kind.Fixed32Kind? then ReadFixed32(s) else ReadVarint(s);
    if r.Fail? then Arrival(false, if f.kind.UInt32Kind? then Overwrite(sch, st, i) else st, s)
    else if f.kind.EnumKind? then
      var e := r.value % TWO32;
      Arrival(true, if EMsgIsValid(e) then Storage.SetNumber(sch, st, i, e)
                    else KeepUnknowns(sch, st, [UVarint(f.number, SignExtend(e))]), r.rest)
    else
      var n := if f.kind.BoolKind? then if r.value % TWO64 != 0 then 1 else 0 else r.value % TWO32;
      Arrival(true, Storage.SetNumber(sch, st, i, n), r.rest)
  }

  /** The number of a uint32 field overwritten by a failed read, its presence as before. */
  function Overwrite(sch: Schema, st: Store, i: nat): (r: Store)
    requires Valid(sch, st) && i < |sch.fields| && sch.fields[i].kind.UInt32Kind?
    ensures Valid(sch, r)
    ensures View(sch, st).slots[i] == [] ==> !Clean(sch, r)
    ensures View(sch, st).slots[i] != [] && Clean(sch, st) ==> Clean(sch, r)
  {
    assert CellValid(sch.fields[i], st.cells[i]) && (Clean(sch, st) ==> CleanCell(sch.fields[i], st.cells[i]));
    var r := WithCell(sch, st, i, Number(st.cells[i].present, STRAY));
    assert Clean(sch, r) ==> CleanCell(sch.fields[i], r.cells[i]);
    r
  }

  /** A string after its tag: mutable_x makes the field present before the read. */
  function TextInto(sch: Schema, i: nat, st: Store, s: Bytes): (r: Arrival)
    requires WellFormed(sch) && i < |sch.fields| && Valid(sch, st) && sch.fields[i].kind.BytesKind? && |s| <= INT_MAX
    ensures Valid(sch, r.st) && |r.rest| <= |s| && (Clean(sch, st) ==> Clean(sch, r.st))
  {
    assert CellValid(sch.fields[i], st.cells[i]);
    var left := StringLeft(st.cells[i].text, s);
    assert SlotTyped(sch.fields[i], [Str(left)]);
    Arrival(ReadString(s).Got?, Storage.SetText(sch, st, i, left), if ReadString(s).Got? then ReadString(s).rest else s)
  }

  /** The payload of known field `i`. */
  function FieldInto(sch: Schema, i: nat, st: Store, s: Bytes, budget: nat): (r: Arrival)
    requires WellFormed(sch) && i < |sch.fields| && Valid(sch, st) && |s| <= INT_MAX
    ensures Valid(sch, r.st) && |r.rest| <= |s|
    decreases |s|, 2
  {
    var f := sch.fields[i];
    if f.kind.MessageKind? then
      if f.arity == Repeated then
        if budget == 0 then Arrival(false, st, s)
        else
          var (body, rest) := ReadElementBody(s);
          var h := ScanInto(f.kind.schema, Spare(sch, st, i), body, budget - 1);
          Arrival(h.AtEnd?, Storage.Append(sch, st, i, h.st), rest)
      else
        var x := Storage.Mutable(sch, st, i);
        match ReadBody(s)
        case Fail => Arrival(false, PutChild(sch, st, i, x), s)
        case Got(body, rest) =>
          if budget == 0 then Arrival(false, PutChild(sch, st, i, x), s)
          else
            var h := ScanInto(f.kind.schema, x, body, budget - 1);
            Arrival(h.AtEnd?, PutChild(sch, st, i, h.st), rest)
    else if f.kind.BytesKind? then TextInto(sch, i, st, s)
    else NumberInto(sch, i, st, s)
  }

  /** One record after its tag. */
  function RecordInto(sch: Schema, st: Store, tag: nat, s: Bytes, budget: nat): (r: Arrival)
    requires WellFormed(sch) && Valid(sch, st) && |s| <= INT_MAX
    ensures Valid(sch, r.st) && |r.rest| <= |s|
    decreases |s|, 3
  {
    var i := FindTag(sch, tag);
    if i < |sch.fields| then FieldInto(sch, i, st, s, budget)
    else
      var u := SkipWithin(tag, s, budget);
      Arrival(u.Got?, KeepUnknowns(sch, st, SkipLeft(tag, s, budget)), if u.Got? then u.rest else s)
  }

  /** The parse loop. */
  function ScanInto(sch: Schema, st: Store, s: Bytes, budget: nat): (h: Halt)
    requires WellFormed(sch) && Valid(sch, st) && |s| <= INT_MAX
    ensures Valid(sch, h.st)
    decreases |s|, 0
  {
    if s == [] then AtEnd(st)
    else
      var (tag, t) := NextTag(s);
      if tag == 0 || WireType(tag) == WIRETYPE_END_GROUP then AtTag(st, tag, t)
      else
        var r := RecordInto(sch, st, tag, t, budget);
        if r.ok then ScanInto(sch, r.st, r.rest, budget) else Broken(r.st)
  }

  // --------------------------------------------------------- the message that is shown

  /** A reader on storage does to the message shown what the reader on messages does. */
  predicate ArrivalShows(sch: Schema, r: Arrival, w: Read<Msg>)
    requires Valid(sch, r.st)
  {
    r.ok == w.Got? && (r.ok ==> w == Got(View(sch, r.st), r.rest))
  }

  function Shown(sch: Schema, h: Halt): Scanned
    requires Valid(sch, h.st)
  {
    match h
    case AtEnd(st) => Ended(View(sch, st))
    case AtTag(st, tag, rest) => Stopped(View(sch, st), tag, rest)
    case Broken(_) => Failed
  }

  lemma NumberIntoShows(sch: Schema, i: nat, st: Store, s: Bytes)
    requires WellFormed(sch) && i < |sch.fields| && Valid(sch, st) && IsNumber(sch.fields[i])
    ensures ArrivalShows(sch, NumberInto(sch, i, st, s), ReadField(sch, i, View(sch, st), s))
  {
    hide View, Valid;
    if sch.fields[i].kind.Fixed32Kind? && ReadFixed32(s).Got? {
      SmallResidue(ReadFixed32(s).value);
    }
  }

  lemma TextIntoShows(sch: Schema, i: nat, st: Store, s: Bytes)
    requires WellFormed(sch) && i < |sch.fields| && Valid(sch, st) && sch.fields[i].kind.BytesKind? && |s| <= INT_MAX
    ensures ArrivalShows(sch, TextInto(sch, i, st, s), ReadField(sch, i, View(sch, st), s))
  {
    hide View, ReadString;
    assert CellValid(sch.fields[i], st.cells[i]);
  }

  lemma {:induction false} ElementIntoShows(sch: Schema, i: nat, st: Store, s: Bytes, budget: nat)
    requires WellFormed(sch) && i < |sch.fields| && Valid(sch, st) && |s| <= INT_MAX && IsRepeated(sch.fields[i])
    ensures ArrivalShows(sch, FieldInto(sch, i, st, s, budget), FieldWithin(sch, i, View(sch, st), s, budget))
    decreases |s|, 1
  {
    hide View, Valid, ScanInto, ScanWithin;
    if budget > 0 {
      ScanIntoShows(sch.fields[i].kind.schema, Spare(sch, st, i), ReadElementBody(s).0, budget - 1);
    }
  }

  lemma {:induction false} ChildIntoShows(sch: Schema, i: nat, st: Store, s: Bytes, budget: nat)
    requires WellFormed(sch) && i < |sch.fields| && Valid(sch, st) && |s| <= INT_MAX && IsChild(sch.fields[i])
    ensures ArrivalShows(sch, FieldInto(sch, i, st, s, budget), FieldWithin(sch, i, View(sch, st), s, budget))
    decreases |s|, 1
  {
    hide View, Valid, ScanInto, ScanWithin;
    if ReadBody(s).Got? && budget > 0 {
      ScanIntoShows(sch.fields[i].kind.schema, Storage.Mutable(sch, st, i), ReadBody(s).value, budget - 1);
    }
  }

  lemma {:induction false} FieldIntoShows(sch: Schema, i: nat, st: Store, s: Bytes, budget: nat)
    requires WellFormed(sch) && i < |sch.fields| && Valid(sch, st) && |s| <= INT_MAX
    ensures ArrivalShows(sch, FieldInto(sch, i, st, s, budget), FieldWithin(sch, i, View(sch, st), s, budget))
    decreases |s|, 2
  {
    hide View, Valid, ReadField, TextInto, NumberInto;
    var f := sch.fields[i];
    if f.kind.BytesKind? {
      TextIntoShows(sch, i, st, s);
    } else if !f.kind.MessageKind? {
      NumberIntoShows(sch, i, st, s);
    } else if f.arity == Repeated {
      ElementIntoShows(sch, i, st, s, budget);
    } else {
      ChildIntoShows(sch, i, st, s, budget);
    }
  }

  lemma {:induction false} RecordIntoShows(sch: Schema, st: Store, tag: nat, s: Bytes, budget: nat)
    requires WellFormed(sch) && Valid(sch, st) && |s| <= INT_MAX
    ensures ArrivalShows(sch, RecordInto(sch, st, tag, s, budget), RecordWithin(sch, View(sch, st), tag, s, budget))
    decreases |s|, 3
  {
    hide View, Valid, FieldInto, FieldWithin, SkipWithin, SkipLeft;
    var i := FindTag(sch, tag);
    if i < |sch.fields| {
      FieldIntoShows(sch, i, st, s, budget);
    }
  }

  /** The loop on storage comes to rest as the loop on the message shown does. */
  lemma {:induction false} ScanIntoShows(sch: Schema, st: Store, s: Bytes, budget: nat)
    requires WellFormed(sch) && Valid(sch, st) && |s| <= INT_MAX
    ensures Shown(sch, ScanInto(sch, st, s, budget)) == ScanWithin(sch, View(sch, st), s, budget)
    decreases |s|, 0
  {
    hide View, Valid, RecordInto, RecordWithin;
    var (tag, t) := NextTag(s);
    if s != [] && tag != 0 && WireType(tag) != WIRETYPE_END_GROUP {
      RecordIntoShows(sch, st, tag, t, budget);
      var r := RecordInto(sch, st, tag, t, budget);
      if r.ok { ScanIntoShows(sch, r.st, r.rest, budget); }
    }
  }

  // ---------------------------------------------------------- reads that leave a mark

  /** The payload of field `i` cannot be read, because that of an absent uint32 cannot: of the field itself,
      or of one in the submessage. */
  predicate FieldStrays(sch: Schema, i: nat, m: Msg, s: Bytes, budget: nat)
    requires WellFormed(sch) && i < |sch.fields| && Typed(sch, m)
    decreases |s|, 1
  {
    var f := sch.fields[i];
    if f.kind.UInt32Kind? then m.slots[i] == [] && ReadVarint(s).Fail?
    else if !f.kind.MessageKind? || budget == 0 then false
    else if f.arity == Repeated then ScanStrays(f.kind.schema, Empty(f.kind.schema), ReadElementBody(s).0, budget - 1)
    else ReadBody(s).Got? && ScanStrays(f.kind.schema, Codec.Mutable(f, m.slots[i]), ReadBody(s).value, budget - 1)
  }

  /** The first record that cannot be read is one of an absent uint32, at whatever nesting level. */
  predicate ScanStrays(sch: Schema, m: Msg, s: Bytes, budget: nat)
    requires WellFormed(sch) && Typed(sch, m)
    decreases |s|, 0
  {
    var (tag, t) := NextTag(s);
    tag != 0 && WireType(tag) != WIRETYPE_END_GROUP &&
    match RecordWithin(sch, m, tag, t, budget)
    case Got(m', rest) => ScanStrays(sch, m', rest, budget)
    case Fail => FindTag(sch, tag) < |sch.fields| && FieldStrays(sch, FindTag(sch, tag), m, t, budget)
  }

  /** Only a failure leaves a mark. */
  lemma {:induction false} StrayFails(sch: Schema, m: Msg, s: Bytes, budget: nat)
    requires WellFormed(sch) && Typed(sch, m) && ScanStrays(sch, m, s, budget)
    ensures ScanWithin(sch, m, s, budget) == Failed
    decreases |s|
  {
    hide RecordWithin, FieldStrays;
    var (tag, t) := NextTag(s);
    var r := RecordWithin(sch, m, tag, t, budget);
    if r.Got? {
      StrayFails(sch, r.value, r.rest, budget);
    }
  }

  lemma NumberIntoStrays(sch: Schema, i: nat, st: Store, s: Bytes)
    requires WellFormed(sch) && i < |sch.fields| && Valid(sch, st) && Clean(sch, st) && IsNumber(sch.fields[i])
    ensures Clean(sch, NumberInto(sch, i, st, s).st)
       <==> !(sch.fields[i].kind.UInt32Kind? && View(sch, st).slots[i] == [] && ReadVarint(s).Fail?)
  {
    hide View, Valid, Clean;
  }

  lemma {:induction false} FieldIntoStrays(sch: Schema, i: nat, st: Store, s: Bytes, budget: nat)
    requires WellFormed(sch) && i < |sch.fields| && Valid(sch, st) && Clean(sch, st) && |s| <= INT_MAX
    ensures Clean(sch, FieldInto(sch, i, st, s, budget).st) <==> !FieldStrays(sch, i, View(sch, st), s, budget)
    decreases |s|, 2
  {
    hide View, Valid, Clean, NumberInto, TextInto, ScanInto, ScanStrays;
    var f := sch.fields[i];
    if !f.kind.BytesKind? && !f.kind.MessageKind? {
      NumberIntoStrays(sch, i, st, s);
    } else if f.kind.MessageKind? && budget > 0 {
      if f.arity == Repeated {
        ScanIntoStrays(f.kind.schema, Spare(sch, st, i), ReadElementBody(s).0, budget - 1);
      } else if ReadBody(s).Got? {
        ScanIntoStrays(f.kind.schema, Storage.Mutable(sch, st, i), ReadBody(s).value, budget - 1);
      }
    }
  }

  lemma {:induction false} RecordIntoStrays(sch: Schema, st: Store, tag: nat, s: Bytes, budget: nat)
    requires WellFormed(sch) && Valid(sch, st) && Clean(sch, st) && |s| <= INT_MAX
    ensures Clean(sch, RecordInto(sch, st, tag, s, budget).st)
       <==> RecordWithin(sch, View(sch, st), tag, s, budget).Got?
            || !(FindTag(sch, tag) < |sch.fields| && FieldStrays(sch, FindTag(sch, tag), View(sch, st), s, budget))
    decreases |s|, 3
  {
    hide View, Valid, Clean, FieldInto, FieldWithin, FieldStrays, SkipWithin, SkipLeft;
    var i := FindTag(sch, tag);
    if i < |sch.fields| {
      FieldIntoStrays(sch, i, st, s, budget);
      if FieldWithin(sch, i, View(sch, st), s, budget).Got? { ReadIsNoStray(sch, i, View(sch, st), s, budget); }
    }
  }

  /** After a parse into storage in which every absent field was default, the same holds if and only if the
      parse did not fail on an absent uint32. */
  lemma {:induction false} ScanIntoStrays(sch: Schema, st: Store, s: Bytes, budget: nat)
    requires WellFormed(sch) && Valid(sch, st) && Clean(sch, st) && |s| <= INT_MAX
    ensures Clean(sch, ScanInto(sch, st, s, budget).st) <==> !ScanStrays(sch, View(sch, st), s, budget)
    decreases |s|, 0
  {
    hide View, Valid, Clean, RecordInto, RecordWithin, FieldStrays;
    var (tag, t) := NextTag(s);
    if s != [] && tag != 0 && WireType(tag) != WIRETYPE_END_GROUP {
      RecordIntoShows(sch, st, tag, t, budget);
      RecordIntoStrays(sch, st, tag, t, budget);
      var r := RecordInto(sch, st, tag, t, budget);
      if r.ok { ScanIntoStrays(sch, r.st, r.rest, budget); }
    }
  }

  lemma ReadIsNoStray(sch: Schema, i: nat, m: Msg, s: Bytes, budget: nat)
    requires WellFormed(sch) && i < |sch.fields| && Typed(sch, m) && FieldWithin(sch, i, m, s, budget).Got?
    ensures !FieldStrays(sch, i, m, s, budget)
  {
    hide ScanStrays, ScanWithin;
    var f := sch.fields[i];
    if f.kind.MessageKind? {
      var (x, body) := if f.arity == Repeated then (Empty(f.kind.schema), ReadElementBody(s).0)
                       else (Codec.Mutable(f, m.slots[i]), ReadBody(s).value);
      if ScanStrays(f.kind.schema, x, body, budget - 1) {
        StrayFails(f.kind.schema, x, body, budget - 1);
      }
    }
  }
}
