/** The mark of a failed read in the message types of package pbmsg: a login request or a heartbeat that ends
    behind the tag of its uint32. */
module Strays {
  import opened Octets
  import opened Wire
  import opened Schemas
  import opened Codec
  import opened RecursionLimit
  import opened Storage
  import opened Intake
  import opened StorageRuns
  import opened Pbmsg

  /** The tag of field 1 as a varint, and nothing behind it. */
  const CUT_NUMBER: Bytes := [8]

  /** In a class whose field 1 is a uint32 the parse fails, and leaves the mark. */
  lemma CutNumberMarks(sch: Schema, st: Store)
    requires WellFormed(sch) && Valid(sch, st)
    requires sch.fields != [] && sch.fields[0].number == 1 && sch.fields[0].kind.UInt32Kind?
    ensures ScanInto(sch, st, CUT_NUMBER, RECURSION_LIMIT) == Broken(Overwrite(sch, st, 0))
    ensures ScanStrays(sch, View(sch, st), CUT_NUMBER, RECURSION_LIMIT) <==> View(sch, st).slots[0] == []
  {
    hide Valid, View, Overwrite;
    assert CUT_NUMBER[1..] == [];
    assert NextTag(CUT_NUMBER) == (8, []);
    assert FindTag(sch, 8) == 0;
    assert ReadVarint([]).Fail?;
  }

  lemma CutNumberFails(sch: Schema, st: Store)
    requires WellFormed(sch) && Valid(sch, st)
    requires sch.fields != [] && sch.fields[0].number == 1 && sch.fields[0].kind.UInt32Kind?
    ensures Do(sch, st, MergeFromStream(CUT_NUMBER)) == Outcome(false, Overwrite(sch, st, 0))
  {
    hide Valid, View, Overwrite, ScanInto, DoAll, DoInside, ScanStrays, WellFormed;
    CutNumberMarks(sch, st);
  }

  /** A new message after it: the number is absent and 4294967295, and Clear removes that mark if and only if
      the class has no other field. */
  lemma CutNumberStays(sch: Schema)
    requires WellFormed(sch)
    requires sch.fields != [] && sch.fields[0].number == 1 && sch.fields[0].kind.UInt32Kind?
    ensures var r := Do(sch, New(sch), MergeFromStream(CUT_NUMBER));
      && !r.ok && View(sch, r.st) == Empty(sch) && NumberOf(sch, r.st, 0) == 4294967295
      && NumberOf(sch, Storage.Clear(sch, r.st), 0) == if |sch.fields| == 1 then 0 else 4294967295
  {
    var st := New(sch);
    var r := Overwrite(sch, st, 0);
    hide Do, View, Storage.Clear, New;
    CutNumberFails(sch, st);
    BlankShowsEmpty(sch, st);
    BlankShowsEmpty(sch, r);
    ClearRepairs(sch, r, 0);
    assert |sch.fields| > 1 ==> !Resets(sch, r);
  }

  /** A login request keeps the mark when it is cleared. */
  lemma CutLoginKeepsMark()
    ensures WellFormed(LOGIN_RQ)
    ensures var r := Do(LOGIN_RQ, New(LOGIN_RQ), MergeFromStream(CUT_NUMBER));
      !r.ok && NumberOf(LOGIN_RQ, Storage.Clear(LOGIN_RQ, r.st), 0) == 4294967295
  {
    hide Do, Valid, Storage.Clear, New, NumberOf;
    RequestIsWellFormed();
    CutNumberStays(LOGIN_RQ);
  }

  /** clear_x clears the allocated submessage, and mutable_x hands it out again. */
  lemma ClearedChildIsHandedOut(sch: Schema, st: Store, i: nat, x: Store)
    requires WellFormed(sch) && Valid(sch, st) && i < |sch.fields| && IsChild(sch.fields[i])
    requires Valid(sch.fields[i].kind.schema, x)
    ensures Storage.Mutable(sch, Storage.ClearField(sch, PutChild(sch, st, i, x), i), i)
         == Storage.Clear(sch.fields[i].kind.schema, x)
  {
    hide View, Storage.Clear;
    assert CellValid(sch.fields[i], st.cells[i]);
  }

  lemma RunOfTwo(sch: Schema, st: Store, c: Call, d: Call)
    requires WellFormed(sch) && Valid(sch, st)
    ensures DoAll(sch, st, [c]) == Do(sch, st, c)
    ensures DoAll(sch, st, [c, d]).st == Do(sch, Do(sch, st, c).st, d).st
  {
    hide Do, Valid;
    var s := Do(sch, st, c).st;
    assert DoAll(sch, st, [c]) == Do(sch, st, c) by { assert [c][1..] == []; }
    assert DoAll(sch, s, [d]) == Do(sch, s, d) by { assert [d][1..] == []; }
    assert DoAll(sch, st, [c, d]).st == DoAll(sch, s, [d]).st by { assert [c, d][1..] == [d]; }
  }

  lemma ChangeOne(sch: Schema, st: Store, i: nat, c: Call)
    requires WellFormed(sch) && Valid(sch, st) && i < |sch.fields| && IsChild(sch.fields[i])
    ensures Do(sch, st, ChangeChild(i, [c])).st
         == PutChild(sch, st, i, Do(sch.fields[i].kind.schema, Storage.Mutable(sch, st, i), c).st)
  {
    hide Valid, View, Do, DoAll, Storage.Mutable, PutChild;
    InsideCall(sch, st, ChangeChild(i, [c]));
    RunOfTwo(sch.fields[i].kind.schema, Storage.Mutable(sch, st, i), c, c);
  }

  lemma ClearOne(sch: Schema, st: Store, i: nat)
    requires WellFormed(sch) && Valid(sch, st) && i < |sch.fields|
    ensures Do(sch, st, StorageRuns.ClearField(i)).st == Storage.ClearField(sch, st, i)
  {
    hide Valid, View, DoAll, Storage.ClearField;
  }

  /** A submessage of a new message that is changed by a call and cleared: what mutable_x hands out next. */
  lemma ChangedAndCleared(sch: Schema, i: nat, c: Call)
    requires WellFormed(sch) && i < |sch.fields| && IsChild(sch.fields[i])
    ensures var (sub, r) := (sch.fields[i].kind.schema, DoAll(sch, New(sch), [ChangeChild(i, [c]), StorageRuns.ClearField(i)]));
      View(sch, r.st) == Empty(sch) && Storage.Mutable(sch, r.st, i) == Storage.Clear(sub, Do(sub, New(sub), c).st)
  {
    var sub, st := sch.fields[i].kind.schema, New(sch);
    assert Storage.Mutable(sch, st, i) == New(sub);
    hide Valid, View, Do, DoAll, Storage.Mutable, PutChild, Storage.ClearField, Storage.Clear, New;
    var x := Do(sub, New(sub), c).st;
    var s := PutChild(sch, st, i, x);
    RunOfTwo(sch, st, ChangeChild(i, [c]), StorageRuns.ClearField(i));
    ChangeOne(sch, st, i, c);
    ClearOne(sch, s, i);
    ClearedChildIsHandedOut(sch, st, i, x);
    BlankShowsEmpty(sch, st);
    assert View(sch, Storage.ClearField(sch, s, i)).slots == Empty(sch).slots;
  }

  /** A request whose login could not be read, and is cleared: mutable_login hands out an empty login request
      with that user id. */
  lemma ClearedRequestHandsOutMark()
    ensures WellFormed(REQUEST) && REQUEST.fields[0].kind == MessageKind(LOGIN_RQ)
    ensures var r := DoAll(REQUEST, New(REQUEST), [ChangeChild(0, [MergeFromStream(CUT_NUMBER)]), ClearField(0)]);
      && View(REQUEST, r.st) == Empty(REQUEST)
      && var x := Storage.Mutable(REQUEST, r.st, 0);
         View(LOGIN_RQ, x) == Empty(LOGIN_RQ) && NumberOf(LOGIN_RQ, x, 0) == 4294967295
  {
    hide Do, DoAll, Valid, View, Storage.Clear, Storage.Mutable, New, NumberOf;
    RequestIsWellFormed();
    CutLoginKeepsMark();
    ChangedAndCleared(REQUEST, 0, MergeFromStream(CUT_NUMBER));
    BlankShowsEmpty(LOGIN_RQ, Storage.Clear(LOGIN_RQ, Do(LOGIN_RQ, New(LOGIN_RQ), MergeFromStream(CUT_NUMBER)).st));
  }

  /** A heartbeat, a class of one field, does not. */
  lemma ClearRepairsHeartbeat()
    ensures WellFormed(HEARTBEAT_NT)
    ensures var r := Do(HEARTBEAT_NT, New(HEARTBEAT_NT), MergeFromStream(CUT_NUMBER));
      && !r.ok && NumberOf(HEARTBEAT_NT, r.st, 0) == 4294967295
      && NumberOf(HEARTBEAT_NT, Storage.Clear(HEARTBEAT_NT, r.st), 0) == 0
  {
    hide Do, Valid, Storage.Clear, New, NumberOf;
    NotifyIsWellFormed();
    CutNumberStays(HEARTBEAT_NT);
  }
}
