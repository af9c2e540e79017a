/** What calls, failed reads and construction do to the fields of an object, in terms of its getters and of the
    message it shows. */
module Effects {
  import opened Octets
  import opened Wire
  import opened Schemas
  import opened Codec
  import opened RecursionLimit
  import opened Storage
  import opened Intake
  import opened StorageRuns

  /** Every field but `i`, and the unknown fields, show what they showed. */
  predicate OnlyChanges(sch: Schema, st: Store, r: Store, i: nat)
    requires Valid(sch, st) && Valid(sch, r)
  {
    View(sch, r).unknown == View(sch, st).unknown
    && forall j :: 0 <= j < |sch.fields| && j != i ==> View(sch, r).slots[j] == View(sch, st).slots[j]
  }

  // ------------------------------------------------------------------ construction

  /** A new object: numbers are 0, except the enum, whose first constant is 10001; strings and submessages are
      empty. */
  lemma NewDefaults(sch: Schema, i: nat)
    requires WellFormed(sch) && i < |sch.fields|
    ensures IsNumber(sch.fields[i]) ==> NumberOf(sch, New(sch), i) == if sch.fields[i].kind.EnumKind? then 10001 else 0
    ensures sch.fields[i].kind.BytesKind? ==> TextOf(sch, New(sch), i) == []
    ensures IsChild(sch.fields[i])
      ==> View(sch.fields[i].kind.schema, ChildOf(sch, New(sch), i)) == Empty(sch.fields[i].kind.schema)
  {
    hide View;
    BlankShowsEmpty(sch, New(sch));
  }

  // ---------------------------------------------------------------------- one field

  lemma SetNumberEffect(sch: Schema, st: Store, i: nat, n: nat)
    requires WellFormed(sch) && Valid(sch, st) && i < |sch.fields|
    requires IsNumber(sch.fields[i]) && ValueTyped(sch.fields[i].kind, Num(n))
    ensures var r := Do(sch, st, StorageRuns.SetNumber(i, n));
      r.ok && OnlyChanges(sch, st, r.st, i) && View(sch, r.st).slots[i] == [Num(n)] && NumberOf(sch, r.st, i) == n
  {
    hide Valid, View, DoAll, DoInside, NumberOf, OnlyChanges;
    assert SlotTyped(sch.fields[i], [Num(n)]);
    assert Do(sch, st, StorageRuns.SetNumber(i, n)).st == Storage.SetNumber(sch, st, i, n);
    Slots(sch, st, Storage.SetNumber(sch, st, i, n), i, [Num(n)]);
  }

  lemma SetTextEffect(sch: Schema, st: Store, i: nat, b: Bytes)
    requires WellFormed(sch) && Valid(sch, st) && i < |sch.fields|
    requires sch.fields[i].kind.BytesKind? && |b| < 0x8000_0000
    ensures var r := Do(sch, st, StorageRuns.SetText(i, b));
      r.ok && OnlyChanges(sch, st, r.st, i) && View(sch, r.st).slots[i] == [Str(b)] && TextOf(sch, r.st, i) == b
  {
    hide Valid, View, DoAll, DoInside, TextOf, OnlyChanges;
    assert ValueTyped(sch.fields[i].kind, [Str(b)][0]);
    assert SlotTyped(sch.fields[i], [Str(b)]);
    assert Do(sch, st, StorageRuns.SetText(i, b)).st == Storage.SetText(sch, st, i, b);
    Slots(sch, st, Storage.SetText(sch, st, i, b), i, [Str(b)]);
  }

  /** clear_x, and release_x of a submessage. */
  lemma ClearEffect(sch: Schema, st: Store, i: nat)
    requires WellFormed(sch) && Valid(sch, st) && i < |sch.fields|
    ensures var r := Do(sch, st, StorageRuns.ClearField(i));
      r.ok && OnlyChanges(sch, st, r.st, i) && View(sch, r.st).slots[i] == []
    ensures IsChild(sch.fields[i]) ==>
      var r := Do(sch, st, ReleaseChild(i));
      r.ok && OnlyChanges(sch, st, r.st, i) && View(sch, r.st).slots[i] == []
  {
    hide Valid, View, DoAll, DoInside;
  }

  lemma RemoveLastEffect(sch: Schema, st: Store, i: nat)
    requires WellFormed(sch) && Valid(sch, st) && i < |sch.fields| && IsRepeated(sch.fields[i])
    requires View(sch, st).slots[i] != []
    ensures var r, vs := Do(sch, st, StorageRuns.RemoveLast(i)), View(sch, st).slots[i];
      r.ok && OnlyChanges(sch, st, r.st, i) && View(sch, r.st).slots[i] == vs[..|vs| - 1]
  {
    hide Valid, View, DoAll, DoInside;
  }

  lemma Slots(sch: Schema, st: Store, r: Store, i: nat, vs: seq<Value>)
    requires Valid(sch, st) && Valid(sch, r) && i < |sch.fields| && SlotTyped(sch.fields[i], vs)
    requires View(sch, r) == SetSlot(sch, View(sch, st), i, vs)
    ensures OnlyChanges(sch, st, r, i) && View(sch, r).slots[i] == vs
  {
    hide Valid, View;
  }

  // ------------------------------------------------------------- through a pointer

  /** The calls made through the pointer that mutable_x hands out act on the present submessage, or on an empty one;
      those on a message for set_allocated_x, on a new one.  The field then holds the result. */
  lemma ChildEffect(sch: Schema, st: Store, i: nat, calls: seq<Call>)
    requires WellFormed(sch) && Valid(sch, st) && i < |sch.fields| && IsChild(sch.fields[i])
    ensures var sub, r, x := sch.fields[i].kind.schema, Do(sch, st, ChangeChild(i, calls)), Storage.Mutable(sch, st, i);
      && View(sub, x) == (if View(sch, st).slots[i] == [] then Empty(sub) else SubAt(sch, st, i, 0))
      && r.ok == DoAll(sub, x, calls).ok && OnlyChanges(sch, st, r.st, i)
      && View(sch, r.st).slots[i] == [Sub(View(sub, DoAll(sub, x, calls).st))]
    ensures var sub, r := sch.fields[i].kind.schema, Do(sch, st, SetAllocated(i, calls));
      && r.ok == DoAll(sub, New(sub), calls).ok && OnlyChanges(sch, st, r.st, i)
      && View(sch, r.st).slots[i] == [Sub(View(sub, DoAll(sub, New(sub), calls).st))]
  {
    hide Valid, View, Do, DoAll, Storage.Mutable, PutChild;
    InsideCall(sch, st, ChangeChild(i, calls));
    InsideCall(sch, st, SetAllocated(i, calls));
  }

  /** The message of submessage or element `j` of a field. */
  function SubAt(sch: Schema, st: Store, i: nat, j: nat): (m: Msg)
    requires Valid(sch, st) && i < |sch.fields| && sch.fields[i].kind.MessageKind? && j < |View(sch, st).slots[i]|
    ensures Typed(sch.fields[i].kind.schema, m)
  {
    assert SlotTyped(sch.fields[i], View(sch, st).slots[i]) && ValueTyped(sch.fields[i].kind, View(sch, st).slots[i][j]);
    View(sch, st).slots[i][j].m
  }

  /** The calls through the pointer that add_x hands out act on an empty element, which then stands last; those
      through the pointer to an element change that one. */
  lemma ElementEffect(sch: Schema, st: Store, i: nat, j: nat, calls: seq<Call>)
    requires WellFormed(sch) && Valid(sch, st) && i < |sch.fields| && IsRepeated(sch.fields[i])
    ensures var sub, r, x := sch.fields[i].kind.schema, Do(sch, st, Add(i, calls)), Spare(sch, st, i);
      && View(sub, x) == Empty(sub) && r.ok == DoAll(sub, x, calls).ok && OnlyChanges(sch, st, r.st, i)
      && View(sch, r.st).slots[i] == View(sch, st).slots[i] + [Sub(View(sub, DoAll(sub, x, calls).st))]
    ensures j < |View(sch, st).slots[i]| ==>
      var sub, r, x := sch.fields[i].kind.schema, Do(sch, st, ChangeElement(i, j, calls)), ElementAt(sch, st, i, j);
      && View(sub, x) == SubAt(sch, st, i, j) && r.ok == DoAll(sub, x, calls).ok && OnlyChanges(sch, st, r.st, i)
      && View(sch, r.st).slots[i] == View(sch, st).slots[i][j := Sub(View(sub, DoAll(sub, x, calls).st))]
  {
    hide Valid, View, Do, DoAll, Spare, ElementAt, Append, PutElement;
    InsideCall(sch, st, Add(i, calls));
    if j < |View(sch, st).slots[i]| { InsideCall(sch, st, ChangeElement(i, j, calls)); }
  }

  // -------------------------------------------------------------- the whole message

  /** Calls that take another message of the class, which a run builds. */
  lemma MessageEffect(sch: Schema, st: Store, calls: seq<Call>)
    requires WellFormed(sch) && Valid(sch, st)
    ensures var x, r := DoAll(sch, New(sch), calls), Do(sch, st, MergeFrom(calls));
      r.ok == x.ok && View(sch, r.st) == Merge(sch, View(sch, st), View(sch, x.st))
    ensures var x, r := DoAll(sch, New(sch), calls), Do(sch, st, CopyFrom(calls));
      r.ok == x.ok && View(sch, r.st) == View(sch, x.st)
    ensures var x, r := DoAll(sch, New(sch), calls), Do(sch, st, Swap(calls));
      r.ok == x.ok && View(sch, r.st) == View(sch, x.st)
  {
    hide Valid, View, DoAll;
    var x := DoAll(sch, New(sch), calls).st;
    MergeShows(sch, st, x);
    CopyShows(sch, st, x);
  }

  lemma ClearAllEffect(sch: Schema, st: Store)
    requires WellFormed(sch) && Valid(sch, st)
    ensures Do(sch, st, ClearAll).ok && View(sch, Do(sch, st, ClearAll).st) == Empty(sch)
  {
    hide Valid, View, DoAll, DoInside, WellFormed;
    BlankShowsEmpty(sch, Storage.Clear(sch, st));
  }

  /** ByteSize changes nothing that is shown. */
  lemma ByteSizeEffect(sch: Schema, st: Store)
    requires WellFormed(sch) && Valid(sch, st)
    ensures Do(sch, st, ByteSize).ok && View(sch, Do(sch, st, ByteSize).st) == View(sch, st)
  {
    hide Valid, View, DoAll, DoInside, WellFormed;
  }

  /** The parsers do to the message shown what they do to a message, within a hundred levels and 64 MB. */
  lemma MergeFromStreamEffect(sch: Schema, st: Store, s: Bytes)
    requires WellFormed(sch) && Valid(sch, st) && |s| <= 0x400_0000
    ensures var r, w := Do(sch, st, MergeFromStream(s)), ScanWithin(sch, View(sch, st), s, 100);
      r.ok == !w.Failed? && (r.ok ==> View(sch, r.st) == w.m)
  {
    hide Valid, View, DoAll, DoInside, ScanInto, ScanWithin, WellFormed;
    ScanIntoShows(sch, st, s, 100);
  }

  /** ParsePartialFromArray does not look at what was there. */
  lemma ParseArrayEffect(sch: Schema, st: Store, s: Bytes)
    requires WellFormed(sch) && Valid(sch, st) && |s| <= 0x400_0000
    ensures var r, w := Do(sch, st, ParsePartialFromArray(s)), ParseWithin(sch, Empty(sch), s, 100);
      r.ok == w.Some? && (r.ok ==> View(sch, r.st) == w.value)
  {
    hide Valid, View, DoAll, DoInside, ScanInto, ScanWithin, WellFormed;
    BlankShowsEmpty(sch, Storage.Clear(sch, st));
    ScanIntoShows(sch, Storage.Clear(sch, st), s, 100);
  }

  /** From clean storage, the two parsing calls leave clean storage exactly if they do not count as strays. */
  lemma ParseCallsStray(sch: Schema, st: Store, s: Bytes)
    requires WellFormed(sch) && Valid(sch, st) && Clean(sch, st) && |s| <= 0x400_0000
    ensures Clean(sch, Do(sch, st, MergeFromStream(s)).st) <==> !CallStrays(sch, st, MergeFromStream(s))
    ensures Clean(sch, Do(sch, st, ParsePartialFromArray(s)).st) <==> !CallStrays(sch, st, ParsePartialFromArray(s))
  {
    hide Valid, View, Clean, DoAll, DoInside, RunStrays, ScanInto, ScanStrays, WellFormed;
    BlankShowsEmpty(sch, Storage.Clear(sch, st));
    ScanIntoStrays(sch, st, s, RECURSION_LIMIT);
    ScanIntoStrays(sch, Storage.Clear(sch, st), s, RECURSION_LIMIT);
  }

  // ------------------------------------------------------------------- failed reads

  /** A number that cannot be read leaves the message as it was; the field of a uint32 then holds 4294967295. */
  lemma FailedNumber(sch: Schema, i: nat, st: Store, s: Bytes, budget: nat)
    requires WellFormed(sch) && i < |sch.fields| && Valid(sch, st) && |s| <= INT_MAX && IsNumber(sch.fields[i])
    requires !FieldInto(sch, i, st, s, budget).ok
    ensures var r := FieldInto(sch, i, st, s, budget).st;
      && OnlyChanges(sch, st, r, i)
      && NumberOf(sch, r, i) == (if sch.fields[i].kind.UInt32Kind? then 4294967295 else NumberOf(sch, st, i))
      && (View(sch, r).slots[i] == [] <==> View(sch, st).slots[i] == [])
  {
    hide ScanInto, ReadVarint, ReadFixed32;
    CellAt(sch, st, i);
  }

  /** A string that cannot be read leaves the field present: with what it held, if there is no length or it is
      negative as an int, and with all bytes that were left if it is too long. */
  lemma FailedText(sch: Schema, i: nat, st: Store, s: Bytes, budget: nat)
    requires WellFormed(sch) && i < |sch.fields| && Valid(sch, st) && |s| <= INT_MAX && sch.fields[i].kind.BytesKind?
    requires !FieldInto(sch, i, st, s, budget).ok
    ensures var r := FieldInto(sch, i, st, s, budget).st;
      && OnlyChanges(sch, st, r, i)
      && View(sch, r).slots[i]
         == match ReadVarint(s)
            case Fail => [Str(TextOf(sch, st, i))]
            case Got(v, t) => if v % 0x1_0000_0000 >= 0x8000_0000 then [Str(TextOf(sch, st, i))] else [Str(t)]
  {
    hide View, Valid;
    CellAt(sch, st, i);
  }

  /** A submessage that cannot be read leaves the field present, with what the parser had made of it. */
  lemma FailedChild(sch: Schema, i: nat, st: Store, s: Bytes, budget: nat)
    requires WellFormed(sch) && i < |sch.fields| && Valid(sch, st) && |s| <= INT_MAX && IsChild(sch.fields[i])
    requires !FieldInto(sch, i, st, s, budget).ok
    ensures var sub, r, x := sch.fields[i].kind.schema, FieldInto(sch, i, st, s, budget).st, Storage.Mutable(sch, st, i);
      && OnlyChanges(sch, st, r, i)
      && View(sch, r).slots[i]
         == if ReadBody(s).Fail? || budget == 0 then [Sub(View(sub, x))]
            else [Sub(View(sub, ScanInto(sub, x, ReadBody(s).value, budget - 1).st))]
  {
    hide View, Valid, ScanInto;
  }

  /** An element that cannot be read stands behind the others, unless the nesting limit was met before. */
  lemma FailedElement(sch: Schema, i: nat, st: Store, s: Bytes, budget: nat)
    requires WellFormed(sch) && i < |sch.fields| && Valid(sch, st) && |s| <= INT_MAX && IsRepeated(sch.fields[i])
    requires !FieldInto(sch, i, st, s, budget).ok
    ensures var sub, r := sch.fields[i].kind.schema, FieldInto(sch, i, st, s, budget).st;
      && OnlyChanges(sch, st, r, i)
      && View(sch, r).slots[i]
         == if budget == 0 then View(sch, st).slots[i]
            else View(sch, st).slots[i]
                 + [Sub(View(sub, ScanInto(sub, Spare(sch, st, i), ReadElementBody(s).0, budget - 1).st))]
  {
    hide View, Valid, ScanInto;
  }

  /** An unknown field that cannot be skipped: a string that is cut off keeps the bytes that were there, a group
      is kept as far as it goes, anything else leaves nothing. */
  lemma FailedUnknown(tag: nat, s: Bytes, budget: nat)
    requires SkipWithin(tag, s, budget).Fail?
    ensures SkipLeft(tag, s, budget)
         == if tag % 8 == 2 && ReadVarint(s).Got? then
              [UString(tag / 8, if ReadVarint(s).value % 0x1_0000_0000 >= 0x8000_0000 then [] else ReadVarint(s).rest)]
            else if tag % 8 == 3 && budget > 0 then [UGroup(tag / 8, GroupLeft(tag / 8, s, budget - 1))]
            else []
  {
    hide ReadVarint, ReadFixed32, ReadFixed64, GroupLeft;
  }
}
