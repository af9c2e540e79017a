/** The generated parse loop with its fast paths, over a stream with pushed limits and the storage of
    a message of any schema, proved equal to plain read-tag-and-dispatch in all three ways it can end,
    with the storage that each of them leaves behind. */
module Parser {
  import opened Octets
  import opened Wire
  import opened Schemas
  import opened Codec
  import opened RecursionLimit
  import opened CodedStream
  import opened Intake
  import Storage

  /** A uint32 length converted to int. */
  function ToInt(n: nat): int {
    if n > INT_MAX then n - TWO32 else n
  }

  /** What a scan of `sch` into `st` still owes once the tag of field `i` has been consumed. */
  function AfterTag(sch: Schema, i: nat, st: Storage.Store, s: Bytes, budget: nat): Halt
    requires WellFormed(sch) && i < |sch.fields| && Storage.Valid(sch, st) && |s| <= INT_MAX
  {
    var r := FieldInto(sch, i, st, s, budget);
    if r.ok then ScanInto(sch, r.st, r.rest, budget) else Broken(r.st)
  }

  lemma NextByteIsTag(sch: Schema, i: nat, st: Storage.Store, s: Bytes, budget: nat)
    requires WellFormed(sch) && i < |sch.fields| && Storage.Valid(sch, st) && |s| <= INT_MAX
    requires s != [] && s[0] == FieldTag(sch.fields[i])
    ensures ScanInto(sch, st, s, budget) == AfterTag(sch, i, st, s[1..], budget)
  {
    hide Storage.Valid, FieldInto;
    var tag := FieldTag(sch.fields[i]);
    assert ReadVarint(s) == Got(tag, s[1..]);
    SmallResidue(tag);
    OneTagPerField(sch, i);
  }

  /** The switch: the tag of a field, the end, a tag that ends the message, or one that no field has. */
  lemma Dispatch(sch: Schema, st: Storage.Store, s: Bytes, budget: nat)
    requires WellFormed(sch) && Storage.Valid(sch, st) && |s| <= INT_MAX
    ensures s == [] ==> ScanInto(sch, st, s, budget) == AtEnd(st)
    ensures s != [] ==>
      var (tag, t) := NextTag(s);
      var i := FindTag(sch, tag);
      var kept := Storage.KeepUnknowns(sch, st, SkipLeft(tag, t, budget));
      ScanInto(sch, st, s, budget)
      == if i < |sch.fields| then AfterTag(sch, i, st, t, budget)
         else if tag == 0 || WireType(tag) == WIRETYPE_END_GROUP then AtTag(st, tag, t)
         else if SkipWithin(tag, t, budget).Fail? then Broken(kept)
         else ScanInto(sch, kept, SkipWithin(tag, t, budget).rest, budget)
  {
    hide Storage.Valid, Storage.KeepUnknowns, FieldInto, SkipLeft, SkipWithin;
    var i := FindTag(sch, NextTag(s).0);
    if i < |sch.fields| {
      OneTagPerField(sch, i);
    }
  }

  lemma OneTagPerField(sch: Schema, i: nat)
    requires WellFormed(sch) && i < |sch.fields|
    ensures FindTag(sch, FieldTag(sch.fields[i])) == i
    ensures 0 < FieldTag(sch.fields[i]) < 128 && WireType(FieldTag(sch.fields[i])) != WIRETYPE_END_GROUP
  {
    var k := FindTag(sch, FieldTag(sch.fields[i]));
    assert sch.fields[i].number == FieldNumber(FieldTag(sch.fields[i]));
    assert k < |sch.fields| ==> sch.fields[k].number == FieldNumber(FieldTag(sch.fields[k]));
  }

  /** A reader did what its functional counterpart says. */
  predicate Did(r: Arrival, ok: bool, st: Storage.Store, rest: Bytes) {
    ok == r.ok && st == r.st && (ok ==> rest == r.rest)
  }

  /** The loop came to rest as its functional counterpart says: at a legitimate end, behind a tag that
      the stream remembers, or with a failure. */
  ghost predicate LeftAs(h: Halt, ok: bool, st: Storage.Store, input: CodedInputStream)
    requires input.Valid()
    reads input
  {
    st == h.st &&
    match h
    case Broken(_) => !ok
    case AtEnd(_) => ok && input.legitimateEnd && input.Rest() == []
    case AtTag(_, tag, rest) => ok && !input.legitimateEnd && input.lastTag == tag && input.Rest() == rest
  }

  /** The same for the message that the storage shows. */
  ghost predicate CameToRest(r: Scanned, ok: bool, m: Msg, input: CodedInputStream)
    requires input.Valid()
    reads input
  {
    match r
    case Failed => !ok
    case Ended(x) => ok && m == x && input.legitimateEnd && input.Rest() == []
    case Stopped(x, tag, rest) => ok && m == x && !input.legitimateEnd && input.lastTag == tag && input.Rest() == rest
  }

  /** Parses under a pushed limit, insists that the parse reached it, and restores the old one. */
  method ParseToLimit(sch: Schema, st0: Storage.Store, input: CodedInputStream, oldLimit: nat)
    returns (ok: bool, st: Storage.Store)
    requires WellFormed(sch) && Storage.Valid(sch, st0)
    requires input.Ready() && input.limit <= oldLimit <= |input.data|
    modifies input
    ensures input.Valid() && Storage.Valid(sch, st)
    ensures ok ==> input.limit == oldLimit && !input.legitimateEnd && input.recursionBudget == old(input.recursionBudget)
    ensures var h := ScanInto(sch, st0, old(input.Rest()), old(input.recursionBudget));
      ok == h.AtEnd? && st == h.st && (ok ==> input.Rest() == input.data[old(input.limit)..oldLimit])
    decreases sch, 4
  {
    ok, st := MergePartialFromCodedStream(sch, st0, input);
    if !ok { return; }
    ok := input.legitimateEnd;
    input.PopLimit(oldLimit);
  }

  /** ReadMessageNoVirtual: the body ends at its own limit, not at an end-group tag. */
  method ReadMessage(sch: Schema, st0: Storage.Store, input: CodedInputStream) returns (ok: bool, st: Storage.Store)
    requires WellFormed(sch) && Storage.Valid(sch, st0)
    requires input.Ready()
    modifies input
    ensures input.Valid() && Storage.Valid(sch, st)
    ensures ok ==> input.limit == old(input.limit) && input.recursionBudget == old(input.recursionBudget) && !input.legitimateEnd
    ensures ReadBody(old(input.Rest())).Fail? || old(input.recursionBudget) == 0 ==> !ok && st == st0
    ensures ReadBody(old(input.Rest())).Got? && old(input.recursionBudget) > 0 ==>
      var (body, rest) := (ReadBody(old(input.Rest())).value, ReadBody(old(input.Rest())).rest);
      var h := ScanInto(sch, st0, body, old(input.recursionBudget) - 1);
      ok == h.AtEnd? && st == h.st && (ok ==> input.Rest() == rest)
    decreases sch, 5
  {
    hide Storage.Valid, ScanInto, ReadVarint, Delimit;
    st := st0;
    var v;
    ok, v := input.ReadVarintBytes();
    if !ok || v % TWO64 > INT_MAX { return false, st0; }
    var oldLimit := input.PushLimit(v % TWO64);
    ok := input.IncrementRecursionDepth();
    if !ok { return; }
    ok, st := ParseToLimit(sch, st0, input, oldLimit);
    if ok { input.DecrementRecursionDepth(); }
  }

  /** ReadMessageNoVirtualNoRecursionDepth: an unreadable length counts as zero. */
  method ReadElement(sch: Schema, st0: Storage.Store, input: CodedInputStream) returns (ok: bool, st: Storage.Store)
    requires WellFormed(sch) && Storage.Valid(sch, st0)
    requires input.Ready()
    modifies input
    ensures input.Valid() && Storage.Valid(sch, st)
    ensures ok ==> input.limit == old(input.limit) && input.recursionBudget == old(input.recursionBudget) && !input.legitimateEnd
    ensures var (body, rest) := ReadElementBody(old(input.Rest()));
      var h := ScanInto(sch, st0, body, old(input.recursionBudget));
      ok == h.AtEnd? && st == h.st && (ok ==> input.Rest() == rest)
    decreases sch, 5
  {
    var oldLimit := ReadLengthAndPushLimit(input);
    ok, st := ParseToLimit(sch, st0, input, oldLimit);
  }

  method ReadLengthAndPushLimit(input: CodedInputStream) returns (oldLimit: nat)
    requires input.Valid()
    modifies input`pos, input`limit
    ensures input.Valid() && oldLimit == old(input.limit) && input.limit <= oldLimit
    ensures (input.Rest(), input.data[input.limit..oldLimit]) == ReadElementBody(old(input.Rest()))
  {
    ghost var all := input.Rest();
    var ok, v := input.ReadVarintBytes();
    ghost var rest := input.Rest();
    if ok {
      oldLimit := input.PushLimit(ToInt(v % TWO32));
    } else {
      oldLimit := input.PushLimit(0);
      assert Delimit(0, rest) == ([], rest);
    }
  }

  /** A `case` of the generated switch for a number, after its tag.  The read of a uint32 stores into the
      field even when it fails. */
  method ParseNumber(sch: Schema, i: nat, st0: Storage.Store, input: CodedInputStream) returns (ok: bool, st: Storage.Store)
    requires WellFormed(sch) && i < |sch.fields| && Storage.Valid(sch, st0) && Storage.IsNumber(sch.fields[i])
    requires input.Valid()
    modifies input`pos
    ensures input.Valid() && Storage.Valid(sch, st)
    ensures Did(NumberInto(sch, i, st0, old(input.Rest())), ok, st, input.Rest())
  {
    hide Storage.Valid;
    var f, v := sch.fields[i], 0;
    st := st0;
    if f.kind.Fixed32Kind? {
      ok, v := input.ReadLittleEndian32();
    } else {
      ok, v := input.ReadVarintBytes();
    }
    if !ok {
      if f.kind.UInt32Kind? { st := Overwrite(sch, st, i); }
      return;
    }
    if f.kind.EnumKind? {
      var e := v % TWO32;
      if EMsgIsValid(e) {
        st := Storage.SetNumber(sch, st, i, e);
      } else {
        st := Storage.KeepUnknowns(sch, st, [UVarint(f.number, SignExtend(e))]);
      }
    } else {
      st := Storage.SetNumber(sch, st, i, if !f.kind.BoolKind? then v % TWO32 else if v % TWO64 != 0 then 1 else 0);
    }
  }

  /** The `case` of a string: mutable_x, and a read into what it hands out. */
  method ParseText(sch: Schema, i: nat, st0: Storage.Store, input: CodedInputStream) returns (ok: bool, st: Storage.Store)
    requires WellFormed(sch) && i < |sch.fields| && Storage.Valid(sch, st0) && sch.fields[i].kind.BytesKind?
    requires input.Valid()
    modifies input`pos
    ensures input.Valid() && Storage.Valid(sch, st)
    ensures Did(TextInto(sch, i, st0, old(input.Rest())), ok, st, input.Rest())
  {
    var b;
    ok, b := input.ReadBytes(Storage.TextOf(sch, st0, i));
    assert SlotTyped(sch.fields[i], [Str(b)]) by { Storage.CellAt(sch, st0, i); }
    st := Storage.SetText(sch, st0, i, b);
  }

  /** The `case` of a submessage field: the object that the mutable accessor or the add function hands
      out is parsed in place, and stays there if that fails. */
  method ParseSubmessage(sch: Schema, i: nat, st0: Storage.Store, input: CodedInputStream) returns (ok: bool, st: Storage.Store)
    requires WellFormed(sch) && i < |sch.fields| && Storage.Valid(sch, st0) && sch.fields[i].kind.MessageKind?
    requires input.Ready()
    modifies input
    ensures input.Valid() && Storage.Valid(sch, st)
    ensures ok ==> input.limit == old(input.limit) && input.recursionBudget == old(input.recursionBudget) && !input.legitimateEnd
    ensures Did(FieldInto(sch, i, st0, old(input.Rest()), old(input.recursionBudget)), ok, st, input.Rest())
    decreases sch, 0
  {
    hide Storage.Valid, ScanInto, ReadBody, ReadElementBody;
    var f, x := sch.fields[i], st0;
    if f.arity == Repeated {
      ok := input.IncrementRecursionDepth();
      if !ok { return false, st0; }
      x := Storage.Spare(sch, st0, i);
      ok, x := ReadElement(f.kind.schema, x, input);
      if ok { input.DecrementRecursionDepth(); }
      st := Storage.Append(sch, st0, i, x);
    } else {
      x := Storage.Mutable(sch, st0, i);
      ok, x := ReadMessage(f.kind.schema, x, input);
      st := Storage.PutChild(sch, st0, i, x);
    }
  }

  /** The body of one `case` of the generated switch. */
  method ParseField(sch: Schema, i: nat, st0: Storage.Store, input: CodedInputStream) returns (ok: bool, st: Storage.Store)
    requires WellFormed(sch) && i < |sch.fields| && Storage.Valid(sch, st0)
    requires input.Ready()
    modifies input
    ensures input.Valid() && Storage.Valid(sch, st)
    ensures ok ==> input.limit == old(input.limit) && input.recursionBudget == old(input.recursionBudget) && !input.legitimateEnd
    ensures Did(FieldInto(sch, i, st0, old(input.Rest()), old(input.recursionBudget)), ok, st, input.Rest())
    decreases sch, 1
  {
    var kind := sch.fields[i].kind;
    if kind.MessageKind? {
      ok, st := ParseSubmessage(sch, i, st0, input);
    } else if kind.BytesKind? {
      ok, st := ParseText(sch, i, st0, input);
    } else {
      ok, st := ParseNumber(sch, i, st0, input);
    }
  }

  /** Field `i`, then every field whose tag is found by ExpectTag where the generated code looks for
      it: the same field again if it is repeated, else the next one.  Returns the last field read. */
  method ParseFieldsFrom(sch: Schema, i: nat, st0: Storage.Store, input: CodedInputStream)
    returns (ok: bool, last: nat, st: Storage.Store)
    requires WellFormed(sch) && i < |sch.fields| && Storage.Valid(sch, st0)
    requires input.Ready()
    modifies input
    ensures input.Valid() && Storage.Valid(sch, st) && last < |sch.fields|
    ensures ok ==> input.limit == old(input.limit) && input.recursionBudget == old(input.recursionBudget) && !input.legitimateEnd
    ensures ok ==> input.limit - input.pos <= |old(input.Rest())|
    ensures AfterTag(sch, i, st0, old(input.Rest()), old(input.recursionBudget))
         == if ok then ScanInto(sch, st, input.Rest(), old(input.recursionBudget)) else Broken(st)
    decreases sch, 2
  {
    hide Storage.Valid, ScanInto, FieldInto;
    last, st := i, st0;
    var jumped := true;
    ghost var budget, size := input.recursionBudget, |input.Rest()|;
    ghost var goal := AfterTag(sch, i, st0, input.Rest(), budget);
    while jumped
      invariant input.Ready() && input.limit == old(input.limit) && input.recursionBudget == budget
      invariant input.limit - input.pos <= size
      invariant Storage.Valid(sch, st) && last < |sch.fields|
      invariant goal == if jumped then AfterTag(sch, last, st, input.Rest(), budget)
                        else ScanInto(sch, st, input.Rest(), budget)
      decreases jumped, input.limit - input.pos
    {
      ok, st := ParseField(sch, last, st, input);
      if !ok { return; }
      jumped, last := TryNext(sch, last, st, budget, input);
    }
    ok := true;
  }

  /** The ExpectTag calls that end a `case`. */
  method TryNext(sch: Schema, i: nat, ghost st: Storage.Store, ghost budget: nat, input: CodedInputStream)
    returns (jumped: bool, next: nat)
    requires WellFormed(sch) && i < |sch.fields| && Storage.Valid(sch, st)
    requires input.Valid()
    modifies input`pos
    ensures input.Valid() && next < |sch.fields|
    ensures jumped ==> input.pos > old(input.pos)
    ensures jumped ==> AfterTag(sch, next, st, input.Rest(), budget) == ScanInto(sch, st, old(input.Rest()), budget)
    ensures !jumped ==> input.pos == old(input.pos) && next == i
  {
    jumped, next := false, i;
    if sch.fields[i].arity == Repeated {
      jumped := TryTag(sch, i, st, budget, input);
    }
    if !jumped && i + 1 < |sch.fields| {
      jumped := TryTag(sch, i + 1, st, budget, input);
      if jumped { next := i + 1; }
    }
  }

  /** ExpectTag followed by the jump into field `i`. */
  method TryTag(sch: Schema, i: nat, ghost st: Storage.Store, ghost budget: nat, input: CodedInputStream) returns (jumped: bool)
    requires WellFormed(sch) && i < |sch.fields| && Storage.Valid(sch, st)
    requires input.Valid()
    modifies input`pos
    ensures input.Valid()
    ensures jumped ==> input.pos > old(input.pos)
    ensures jumped ==> AfterTag(sch, i, st, input.Rest(), budget) == ScanInto(sch, st, old(input.Rest()), budget)
    ensures !jumped ==> input.pos == old(input.pos)
  {
    OneTagPerField(sch, i);
    ghost var s := input.Rest();
    jumped := input.ExpectTag(FieldTag(sch.fields[i]));
    if jumped {
      NextByteIsTag(sch, i, st, s, budget);
    }
  }

  /** MergePartialFromCodedStream.  After a field the next field's tag is tried without going through
      the switch, and after the last field the end of the input. */
  method MergePartialFromCodedStream(sch: Schema, st0: Storage.Store, input: CodedInputStream)
    returns (ok: bool, st: Storage.Store)
    requires WellFormed(sch) && Storage.Valid(sch, st0)
    requires input.Ready()
    modifies input
    ensures input.Valid() && Storage.Valid(sch, st)
    ensures ok ==> input.limit == old(input.limit) && input.recursionBudget == old(input.recursionBudget)
    ensures LeftAs(ScanInto(sch, st0, old(input.Rest()), old(input.recursionBudget)), ok, st, input)
    ensures CameToRest(ScanWithin(sch, Storage.View(sch, st0), old(input.Rest()), old(input.recursionBudget)), ok,
          Storage.View(sch, st), input)
    decreases sch, 3
  {
    hide Storage.View, Storage.Valid, ScanInto, SkipWithin, SkipLeft, AfterTag, WireType;
    ScanIntoShows(sch, st0, input.Rest(), input.recursionBudget);
    st := st0;
    ghost var budget := input.recursionBudget;
    ghost var goal := ScanInto(sch, st0, input.Rest(), budget);
    while true
      invariant input.Ready() && input.limit == old(input.limit) && input.recursionBudget == budget
      invariant Storage.Valid(sch, st)
      invariant ScanInto(sch, st, input.Rest(), budget) == goal
      decreases input.limit - input.pos
    {
      Dispatch(sch, st, input.Rest(), budget);
      var tag := input.ReadTag();
      var i := FindTag(sch, tag);
      if i < |sch.fields| {
        var last;
        ok, last, st := ParseFieldsFrom(sch, i, st, input);
        if !ok { return; }
        if last + 1 == |sch.fields| {
          var end := input.ExpectAtEnd();
          if end {
            Dispatch(sch, st, input.Rest(), budget);
            return;
          }
        }
      } else {
        if tag == 0 || WireType(tag) == WIRETYPE_END_GROUP { return true, st; }
        var added;
        ok, added := input.SkipField(tag);
        st := Storage.KeepUnknowns(sch, st, added);
        if !ok { return; }
      }
    }
  }

  /** ParsePartialFromCodedStream: clear, then parse; a zero or end-group tag is left to the caller. */
  method ParsePartialFromCodedStream(sch: Schema, st0: Storage.Store, input: CodedInputStream)
    returns (ok: bool, st: Storage.Store)
    requires WellFormed(sch) && Storage.Valid(sch, st0)
    requires input.Ready()
    modifies input
    ensures input.Valid() && Storage.Valid(sch, st)
    ensures LeftAs(ScanInto(sch, Storage.Clear(sch, st0), old(input.Rest()), old(input.recursionBudget)), ok, st, input)
    ensures CameToRest(ScanWithin(sch, Empty(sch), old(input.Rest()), old(input.recursionBudget)), ok,
          Storage.View(sch, st), input)
  {
    hide Storage.View, Storage.Valid, ScanInto;
    st := Storage.Clear(sch, st0);
    Storage.BlankShowsEmpty(sch, st);
    ok, st := MergePartialFromCodedStream(sch, st, input);
  }

  /** InlineParsePartialFromArray: the same, and the whole array must have been the message. */
  method ParsePartialFromArray(sch: Schema, st0: Storage.Store, data: Bytes) returns (ok: bool, st: Storage.Store)
    requires WellFormed(sch) && Storage.Valid(sch, st0) && |data| <= TOTAL_BYTES_LIMIT
    ensures Storage.Valid(sch, st)
    ensures var h := ScanInto(sch, Storage.Clear(sch, st0), data, RECURSION_LIMIT); ok == h.AtEnd? && st == h.st
    ensures ok == ParseWithin(sch, Empty(sch), data, RECURSION_LIMIT).Some?
    ensures ok ==> ParseWithin(sch, Empty(sch), data, RECURSION_LIMIT) == Some(Storage.View(sch, st))
  {
    hide Storage.View, Storage.Valid, ScanInto;
    var input := new CodedInputStream(data);
    ok, st := ParsePartialFromCodedStream(sch, st0, input);
    ok := ok && input.legitimateEnd;
  }

  /** InlineParseFromArray: the same, and every required field must have been present. */
  method ParseFromArray(sch: Schema, st0: Storage.Store, data: Bytes) returns (ok: bool, st: Storage.Store)
    requires WellFormed(sch) && Storage.Valid(sch, st0) && |data| <= TOTAL_BYTES_LIMIT
    ensures Storage.Valid(sch, st)
    ensures ok <==>
              && ParseWithin(sch, Empty(sch), data, RECURSION_LIMIT).Some?
              && IsInitialized(sch, ParseWithin(sch, Empty(sch), data, RECURSION_LIMIT).value)
    ensures ok ==> ParseWithin(sch, Empty(sch), data, RECURSION_LIMIT) == Some(Storage.View(sch, st))
    ensures st == ScanInto(sch, Storage.Clear(sch, st0), data, RECURSION_LIMIT).st
  {
    ok, st := ParsePartialFromArray(sch, st0, data);
    ok := ok && Storage.Initialized(sch, st);
  }
}
