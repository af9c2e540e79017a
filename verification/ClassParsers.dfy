/** The parsers of the generated classes of package pbmsg, tag by tag: what each case of their switch statements does
    with the bytes behind its tag, written out for every class, and proved of the parser that the schemas drive. */
module ClassParsers {
  import opened Octets
  import opened Wire
  import opened Schemas
  import opened Codec
  import opened RecursionLimit
  import opened Pbmsg
  import Parser

  // ------------------------------------------------------------------- one record

  /** The loop goes on with field `i` set to `vs`. */
  ghost function Continue(sch: Schema, m: Msg, i: nat, vs: seq<Value>, rest: Bytes, budget: nat): Option<Msg>
    requires WellFormed(sch) && Typed(sch, m) && i < |sch.fields| && SlotTyped(sch.fields[i], vs)
  {
    ParseWithin(sch, m.(slots := m.slots[i := vs]), rest, budget)
  }

  /** case i of the switch, for a uint32 and for an int32. */
  ghost function Word(sch: Schema, m: Msg, i: nat, s: Bytes, budget: nat): Option<Msg>
    requires WellFormed(sch) && Typed(sch, m) && i < |sch.fields|
    requires sch.fields[i].kind.UInt32Kind? || sch.fields[i].kind.Int32Kind?
  {
    match ReadVarint(s)
    case Fail => None
    case Got(v, rest) => Continue(sch, m, i, [Num(v % 0x1_0000_0000)], rest, budget)
  }

  ghost function Fixed(sch: Schema, m: Msg, i: nat, s: Bytes, budget: nat): Option<Msg>
    requires WellFormed(sch) && Typed(sch, m) && i < |sch.fields| && sch.fields[i].kind.Fixed32Kind?
  {
    if |s| < 4 then None
    else
      var b: seq<int> := s;
      Continue(sch, m, i, [Num(b[0] + 0x100 * b[1] + 0x1_0000 * b[2] + 0x100_0000 * b[3])], s[4..], budget)
  }

  ghost function Bool(sch: Schema, m: Msg, i: nat, s: Bytes, budget: nat): Option<Msg>
    requires WellFormed(sch) && Typed(sch, m) && i < |sch.fields| && sch.fields[i].kind.BoolKind?
  {
    match ReadVarint(s)
    case Fail => None
    case Got(v, rest) => Continue(sch, m, i, [Num(if v % 0x1_0000_0000_0000_0000 == 0 then 0 else 1)], rest, budget)
  }

  /** An enum of type EMsg: a value that is none of its constants goes to the unknown fields, sign-extended. */
  ghost function EMsg(sch: Schema, m: Msg, i: nat, s: Bytes, budget: nat): Option<Msg>
    requires WellFormed(sch) && Typed(sch, m) && i < |sch.fields| && sch.fields[i].kind.EnumKind?
  {
    match ReadVarint(s)
    case Fail => None
    case Got(v, rest) =>
      var e := v % 0x1_0000_0000;
      if 10001 <= e <= 10004 || 10007 <= e <= 10010 || e == 20001 || e == 20002 then Continue(sch, m, i, [Num(e)], rest, budget)
      else
        var kept := UVarint(sch.fields[i].number, if e < 0x8000_0000 then e else e + 0xffff_ffff_0000_0000);
        ParseWithin(sch, m.(unknown := m.unknown + [kept]), rest, budget)
  }

  ghost function Text(sch: Schema, m: Msg, i: nat, s: Bytes, budget: nat): Option<Msg>
    requires WellFormed(sch) && Typed(sch, m) && i < |sch.fields| && sch.fields[i].kind.BytesKind?
  {
    match ReadVarint(s)
    case Fail => None
    case Got(v, t) =>
      var size := v % 0x1_0000_0000;
      if size < 0x8000_0000 && size <= |t| then Continue(sch, m, i, [Str(t[..size])], t[size..], budget) else None
  }

  /** A singular submessage of class `sub`.  Its length may pass the end, which cuts it off there. */
  ghost function Child(sch: Schema, sub: Schema, m: Msg, i: nat, s: Bytes, budget: nat): Option<Msg>
    requires WellFormed(sch) && Typed(sch, m) && i < |sch.fields| && sch.fields[i].arity != Repeated
    requires sch.fields[i].kind == MessageKind(sub)
  {
    match ReadVarint(s)
    case Fail => None
    case Got(v, t) =>
      var size := v % 0x1_0000_0000_0000_0000;
      if size >= 0x8000_0000 || budget == 0 then None
      else
        var n := if size > |t| then |t| else size;
        assert SlotTyped(sch.fields[i], m.slots[i]);
        assert m.slots[i] != [] ==> ValueTyped(sch.fields[i].kind, m.slots[i][0]);
        var into := if m.slots[i] == [] then Empty(sub) else m.slots[i][0].m;
        match ParseWithin(sub, into, t[..n], budget - 1)
        case None => None
        case Some(x) => Continue(sch, m, i, [Sub(x)], t[n..], budget)
  }

  /** An element of a repeated field of class `sub`.  An unreadable length counts as zero, and one of 2^31 or more
      as all that is left. */
  ghost function Element(sch: Schema, sub: Schema, m: Msg, i: nat, s: Bytes, budget: nat): Option<Msg>
    requires WellFormed(sch) && Typed(sch, m) && i < |sch.fields| && sch.fields[i].arity == Repeated
    requires sch.fields[i].kind == MessageKind(sub)
  {
    if budget == 0 then None
    else
      var (body, rest) :=
        match ReadVarint(s)
        case Fail => ([], if |s| < 10 then [] else s)
        case Got(v, t) =>
          var size := v % 0x1_0000_0000;
          var n := if size >= 0x8000_0000 || size > |t| then |t| else size;
          (t[..n], t[n..]);
      match ParseWithin(sub, Empty(sub), body, budget - 1)
      case None => None
      case Some(x) =>
        assert SlotTyped(sch.fields[i], m.slots[i]) && ValueTyped(sch.fields[i].kind, Sub(x));
        Continue(sch, m, i, m.slots[i] + [Sub(x)], rest, budget)
  }

  /** A tag that the class does not know. */
  ghost function Unknown(sch: Schema, m: Msg, tag: nat, s: Bytes, budget: nat): Option<Msg>
    requires WellFormed(sch) && Typed(sch, m)
  {
    match SkipWithin(tag, s, budget)
    case Fail => None
    case Got(u, rest) => ParseWithin(sch, m.(unknown := m.unknown + [u]), rest, budget)
  }

  // ----------------------------------------------------------- the loop takes one record

  /** A tag takes the record that it selects. */
  lemma TakesRecord(sch: Schema, m: Msg, tag: nat, s: Bytes, t: Bytes, budget: nat)
    requires WellFormed(sch) && Typed(sch, m) && 0 < tag < 0x1_0000_0000 && tag % 8 != 4 && t == WriteVarint(tag) + s
    ensures ParseWithin(sch, m, t, budget)
         == match RecordWithin(sch, m, tag, s, budget)
            case Fail => None
            case Got(m', rest) => ParseWithin(sch, m', rest, budget)
  {
    hide RecordWithin;
    Varint64RoundTrip(tag, s);
    SmallResidue(tag);
    assert NextTag(t) == (tag, s);
  }

  lemma TakesField(sch: Schema, m: Msg, i: nat, s: Bytes, budget: nat)
    requires WellFormed(sch) && Typed(sch, m) && i < |sch.fields|
    ensures 0 < FieldTag(sch.fields[i]) < 128
    ensures ParseWithin(sch, m, [FieldTag(sch.fields[i])] + s, budget)
         == match FieldWithin(sch, i, m, s, budget)
            case Fail => None
            case Got(m', rest) => ParseWithin(sch, m', rest, budget)
  {
    hide FieldWithin, ParseWithin;
    Parser.OneTagPerField(sch, i);
    var tag := FieldTag(sch.fields[i]);
    assert WriteVarint(tag) == [tag];
    TakesRecord(sch, m, tag, s, [tag] + s, budget);
  }

  lemma TakesWord(sch: Schema, m: Msg, i: nat, s: Bytes, budget: nat)
    requires WellFormed(sch) && Typed(sch, m) && i < |sch.fields|
    requires sch.fields[i].kind.UInt32Kind? || sch.fields[i].kind.Int32Kind?
    ensures ParseWithin(sch, m, [8 * sch.fields[i].number] + s, budget) == Word(sch, m, i, s, budget)
  {
    hide ParseWithin;
    TakesField(sch, m, i, s, budget);
  }

  lemma TakesFixed(sch: Schema, m: Msg, i: nat, s: Bytes, budget: nat)
    requires WellFormed(sch) && Typed(sch, m) && i < |sch.fields| && sch.fields[i].kind.Fixed32Kind?
    ensures ParseWithin(sch, m, [8 * sch.fields[i].number + 5] + s, budget) == Fixed(sch, m, i, s, budget)
  {
    hide ParseWithin;
    TakesField(sch, m, i, s, budget);
    if |s| >= 4 { SmallResidue(ReadFixed32(s).value); }
  }

  lemma TakesBool(sch: Schema, m: Msg, i: nat, s: Bytes, budget: nat)
    requires WellFormed(sch) && Typed(sch, m) && i < |sch.fields| && sch.fields[i].kind.BoolKind?
    ensures ParseWithin(sch, m, [8 * sch.fields[i].number] + s, budget) == Bool(sch, m, i, s, budget)
  {
    hide ParseWithin;
    TakesField(sch, m, i, s, budget);
  }

  lemma TakesEMsg(sch: Schema, m: Msg, i: nat, s: Bytes, budget: nat)
    requires WellFormed(sch) && Typed(sch, m) && i < |sch.fields| && sch.fields[i].kind.EnumKind?
    ensures ParseWithin(sch, m, [8 * sch.fields[i].number] + s, budget) == EMsg(sch, m, i, s, budget)
  {
    hide ParseWithin;
    TakesField(sch, m, i, s, budget);
  }

  lemma TakesText(sch: Schema, m: Msg, i: nat, s: Bytes, budget: nat)
    requires WellFormed(sch) && Typed(sch, m) && i < |sch.fields| && sch.fields[i].kind.BytesKind?
    ensures ParseWithin(sch, m, [8 * sch.fields[i].number + 2] + s, budget) == Text(sch, m, i, s, budget)
  {
    hide ParseWithin;
    TakesField(sch, m, i, s, budget);
  }

  lemma TakesChild(sch: Schema, sub: Schema, m: Msg, i: nat, s: Bytes, budget: nat)
    requires WellFormed(sch) && Typed(sch, m) && i < |sch.fields| && sch.fields[i].arity != Repeated
    requires sch.fields[i].kind == MessageKind(sub)
    ensures ParseWithin(sch, m, [8 * sch.fields[i].number + 2] + s, budget) == Child(sch, sub, m, i, s, budget)
  {
    hide ParseWithin;
    TakesField(sch, m, i, s, budget);
  }

  lemma TakesElement(sch: Schema, sub: Schema, m: Msg, i: nat, s: Bytes, budget: nat)
    requires WellFormed(sch) && Typed(sch, m) && i < |sch.fields| && sch.fields[i].arity == Repeated
    requires sch.fields[i].kind == MessageKind(sub)
    ensures ParseWithin(sch, m, [8 * sch.fields[i].number + 2] + s, budget) == Element(sch, sub, m, i, s, budget)
  {
    hide ParseWithin;
    TakesField(sch, m, i, s, budget);
  }

  /** Any tag that no field has starts an unknown field, unless it is zero or ends a group. */
  lemma TakesUnknown(sch: Schema, m: Msg, tag: nat, s: Bytes, budget: nat)
    requires WellFormed(sch) && Typed(sch, m) && 0 < tag < 0x1_0000_0000 && tag % 8 != 4 && tag !in Tags(sch)
    ensures ParseWithin(sch, m, WriteVarint(tag) + s, budget) == Unknown(sch, m, tag, s, budget)
  {
    hide SkipWithin, ParseWithin;
    TakesRecord(sch, m, tag, s, WriteVarint(tag) + s, budget);
    assert forall i :: 0 <= i < |sch.fields| ==> Tags(sch)[i] in Tags(sch) && Tags(sch)[i] == FieldTag(sch.fields[i]);
    assert FindTag(sch, tag) == |sch.fields|;
  }

  /** Where a parse ends: at the end of the bytes with success, at a zero tag, a tag that ends a group or an
      unreadable one with failure. */
  lemma ParseEnds(sch: Schema, m: Msg, n: nat, s: Bytes, budget: nat)
    requires WellFormed(sch) && Typed(sch, m) && 8 * n + 4 < 0x1_0000_0000
    ensures ParseWithin(sch, m, [], budget) == Some(m)
    ensures ParseWithin(sch, m, [0] + s, budget) == None
    ensures ParseWithin(sch, m, WriteVarint(8 * n + 4) + s, budget) == None
    ensures s != [] && ReadVarint(s).Fail? ==> ParseWithin(sch, m, s, budget) == None
  {
    assert ([0] + s)[1..] == s && NextTag([0] + s) == (0, s);
    Varint64RoundTrip(8 * n + 4, s);
    SmallResidue(8 * n + 4);
    var t := WriteVarint(8 * n + 4) + s;
    assert NextTag(t) == (8 * n + 4, s) && WireType(8 * n + 4) == WIRETYPE_END_GROUP;
    hide ParseWithin, ReadVarint, WriteVarint, WireType;
    StopsAtTag(sch, m, [0] + s, budget);
    StopsAtTag(sch, m, t, budget);
    if s != [] && ReadVarint(s).Fail? { StopsAtTag(sch, m, s, budget); }
    assert ParseWithin(sch, m, [], budget) == Some(m) by { EndsAtEnd(sch, m, budget); }
  }

  lemma EndsAtEnd(sch: Schema, m: Msg, budget: nat)
    requires WellFormed(sch) && Typed(sch, m)
    ensures ParseWithin(sch, m, [], budget) == Some(m)
  {
  }

  lemma StopsAtTag(sch: Schema, m: Msg, s: Bytes, budget: nat)
    requires WellFormed(sch) && Typed(sch, m) && s != []
    requires NextTag(s).0 == 0 || WireType(NextTag(s).0) == WIRETYPE_END_GROUP
    ensures ParseWithin(sch, m, s, budget) == None
  {
    hide RecordWithin, NextTag, WireType;
  }

  /** Groups may be nested a hundred deep, in a message of any class. */
  lemma HundredGroups(sch: Schema, n: nat)
    requires WellFormed(sch)
    ensures ParseWithin(sch, Empty(sch), WriteUnknown(Nested(n)), RECURSION_LIMIT)
         == if n <= 100 then Some(Empty(sch).(unknown := [Nested(n)])) else None
  {
    hide ParseWithin, SkipWithin;
    var u, e := Nested(n), Empty(sch);
    var tag, s := UnknownTag(u), WritePayload(u) + [];
    NestedFits(n, RECURSION_LIMIT);
    WrittenUnknownFits(u, [], RECURSION_LIMIT);
    assert WritePayload(u) + [] == WritePayload(u) && e.unknown + [u] == [u];
    assert tag == 120 || tag == 123;
    assert tag !in Tags(sch) by {
      forall i | 0 <= i < |sch.fields| ensures FieldTag(sch.fields[i]) < 120 {}
    }
    TakesUnknown(sch, e, tag, s, RECURSION_LIMIT);
    ParseEnds(sch, e.(unknown := [u]), 0, [], RECURSION_LIMIT);
  }

  // ---------------------------------------------------------------- the switch statements

  lemma ClientMsgParses(m: Msg, s: Bytes, budget: nat)
    requires Typed(CLIENT_MSG, m)
    ensures WellFormed(CLIENT_MSG)
    ensures ParseWithin(CLIENT_MSG, m, [8] + s, budget) == EMsg(CLIENT_MSG, m, 0, s, budget)
    ensures ParseWithin(CLIENT_MSG, m, [18] + s, budget) == Text(CLIENT_MSG, m, 1, s, budget)
  {
    MessageIsWellFormed();
    hide ParseWithin, WellFormed, Typed, Word, Fixed, Bool, EMsg, Text, Child, Element;
    TakesEMsg(CLIENT_MSG, m, 0, s, budget);
    TakesText(CLIENT_MSG, m, 1, s, budget);
  }

  lemma RespondMsgParses(m: Msg, s: Bytes, budget: nat)
    requires Typed(RESPOND_MSG, m)
    ensures WellFormed(RESPOND_MSG)
    ensures ParseWithin(RESPOND_MSG, m, [8] + s, budget) == Word(RESPOND_MSG, m, 0, s, budget)
    ensures ParseWithin(RESPOND_MSG, m, [18] + s, budget) == Text(RESPOND_MSG, m, 1, s, budget)
  {
    MessageIsWellFormed();
    hide ParseWithin, WellFormed, Typed, Word, Fixed, Bool, EMsg, Text, Child, Element;
    TakesWord(RESPOND_MSG, m, 0, s, budget);
    TakesText(RESPOND_MSG, m, 1, s, budget);
  }

  lemma LoginRqParses(m: Msg, s: Bytes, budget: nat)
    requires Typed(LOGIN_RQ, m)
    ensures WellFormed(LOGIN_RQ)
    ensures ParseWithin(LOGIN_RQ, m, [8] + s, budget) == Word(LOGIN_RQ, m, 0, s, budget)
    ensures ParseWithin(LOGIN_RQ, m, [18] + s, budget) == Text(LOGIN_RQ, m, 1, s, budget)
    ensures ParseWithin(LOGIN_RQ, m, [26] + s, budget) == Text(LOGIN_RQ, m, 2, s, budget)
  {
    RequestIsWellFormed();
    hide ParseWithin, WellFormed, Typed, Word, Fixed, Bool, EMsg, Text, Child, Element;
    TakesWord(LOGIN_RQ, m, 0, s, budget);
    TakesText(LOGIN_RQ, m, 1, s, budget);
    TakesText(LOGIN_RQ, m, 2, s, budget);
  }

  lemma SendMessageRqParses(m: Msg, s: Bytes, budget: nat)
    requires Typed(SEND_MESSAGE_RQ, m)
    ensures WellFormed(SEND_MESSAGE_RQ)
    ensures ParseWithin(SEND_MESSAGE_RQ, m, [10] + s, budget) == Text(SEND_MESSAGE_RQ, m, 0, s, budget)
    ensures ParseWithin(SEND_MESSAGE_RQ, m, [18] + s, budget) == Text(SEND_MESSAGE_RQ, m, 1, s, budget)
  {
    RequestIsWellFormed();
    hide ParseWithin, WellFormed, Typed, Word, Fixed, Bool, EMsg, Text, Child, Element;
    TakesText(SEND_MESSAGE_RQ, m, 0, s, budget);
    TakesText(SEND_MESSAGE_RQ, m, 1, s, budget);
  }

  lemma RequestParses(m: Msg, s: Bytes, budget: nat)
    requires Typed(REQUEST, m)
    ensures WellFormed(REQUEST)
    ensures ParseWithin(REQUEST, m, [10] + s, budget) == Child(REQUEST, LOGIN_RQ, m, 0, s, budget)
    ensures ParseWithin(REQUEST, m, [18] + s, budget) == Child(REQUEST, SEND_MESSAGE_RQ, m, 1, s, budget)
  {
    RequestIsWellFormed();
    hide ParseWithin, WellFormed, Typed, Word, Fixed, Bool, EMsg, Text, Child, Element;
    TakesChild(REQUEST, LOGIN_RQ, m, 0, s, budget);
    TakesChild(REQUEST, SEND_MESSAGE_RQ, m, 1, s, budget);
  }

  lemma LoginRsParses(m: Msg, s: Bytes, budget: nat)
    requires Typed(LOGIN_RS, m)
    ensures WellFormed(LOGIN_RS)
    ensures ParseWithin(LOGIN_RS, m, [13] + s, budget) == Fixed(LOGIN_RS, m, 0, s, budget)
  {
    RespondIsWellFormed();
    hide ParseWithin, WellFormed, Typed, Word, Fixed, Bool, EMsg, Text, Child, Element;
    TakesFixed(LOGIN_RS, m, 0, s, budget);
  }

  lemma FriendParses(m: Msg, s: Bytes, budget: nat)
    requires Typed(FRIEND, m)
    ensures WellFormed(FRIEND)
    ensures ParseWithin(FRIEND, m, [10] + s, budget) == Text(FRIEND, m, 0, s, budget)
    ensures ParseWithin(FRIEND, m, [16] + s, budget) == Bool(FRIEND, m, 1, s, budget)
  {
    RespondIsWellFormed();
    hide ParseWithin, WellFormed, Typed, Word, Fixed, Bool, EMsg, Text, Child, Element;
    TakesText(FRIEND, m, 0, s, budget);
    TakesBool(FRIEND, m, 1, s, budget);
  }

  lemma GetFriendsRsParses(m: Msg, s: Bytes, budget: nat)
    requires Typed(GET_FRIENDS_RS, m)
    ensures WellFormed(GET_FRIENDS_RS)
    ensures ParseWithin(GET_FRIENDS_RS, m, [10] + s, budget) == Element(GET_FRIENDS_RS, FRIEND, m, 0, s, budget)
  {
    RespondIsWellFormed();
    hide ParseWithin, WellFormed, Typed, Word, Fixed, Bool, EMsg, Text, Child, Element;
    TakesElement(GET_FRIENDS_RS, FRIEND, m, 0, s, budget);
  }

  lemma RespondParses(m: Msg, s: Bytes, budget: nat)
    requires Typed(RESPOND, m)
    ensures WellFormed(RESPOND)
    ensures ParseWithin(RESPOND, m, [8] + s, budget) == Bool(RESPOND, m, 0, s, budget)
    ensures ParseWithin(RESPOND, m, [16] + s, budget) == Bool(RESPOND, m, 1, s, budget)
    ensures ParseWithin(RESPOND, m, [26] + s, budget) == Text(RESPOND, m, 2, s, budget)
    ensures ParseWithin(RESPOND, m, [34] + s, budget) == Child(RESPOND, LOGIN_RS, m, 3, s, budget)
    ensures ParseWithin(RESPOND, m, [42] + s, budget) == Child(RESPOND, GET_FRIENDS_RS, m, 4, s, budget)
  {
    RespondIsWellFormed();
    hide ParseWithin, WellFormed, Typed, Word, Fixed, Bool, EMsg, Text, Child, Element;
    TakesBool(RESPOND, m, 0, s, budget);
    TakesBool(RESPOND, m, 1, s, budget);
    TakesText(RESPOND, m, 2, s, budget);
    TakesChild(RESPOND, LOGIN_RS, m, 3, s, budget);
    TakesChild(RESPOND, GET_FRIENDS_RS, m, 4, s, budget);
  }

  lemma HeartbeatNtParses(m: Msg, s: Bytes, budget: nat)
    requires Typed(HEARTBEAT_NT, m)
    ensures WellFormed(HEARTBEAT_NT)
    ensures ParseWithin(HEARTBEAT_NT, m, [8] + s, budget) == Word(HEARTBEAT_NT, m, 0, s, budget)
  {
    NotifyIsWellFormed();
    hide ParseWithin, WellFormed, Typed, Word, Fixed, Bool, EMsg, Text, Child, Element;
    TakesWord(HEARTBEAT_NT, m, 0, s, budget);
  }

  lemma MessageNtParses(m: Msg, s: Bytes, budget: nat)
    requires Typed(MESSAGE_NT, m)
    ensures WellFormed(MESSAGE_NT)
    ensures ParseWithin(MESSAGE_NT, m, [10] + s, budget) == Text(MESSAGE_NT, m, 0, s, budget)
    ensures ParseWithin(MESSAGE_NT, m, [18] + s, budget) == Text(MESSAGE_NT, m, 1, s, budget)
    ensures ParseWithin(MESSAGE_NT, m, [26] + s, budget) == Text(MESSAGE_NT, m, 2, s, budget)
  {
    NotifyIsWellFormed();
    hide ParseWithin, WellFormed, Typed, Word, Fixed, Bool, EMsg, Text, Child, Element;
    TakesText(MESSAGE_NT, m, 0, s, budget);
    TakesText(MESSAGE_NT, m, 1, s, budget);
    TakesText(MESSAGE_NT, m, 2, s, budget);
  }

  lemma NotifyParses(m: Msg, s: Bytes, budget: nat)
    requires Typed(NOTIFY, m)
    ensures WellFormed(NOTIFY)
    ensures ParseWithin(NOTIFY, m, [10] + s, budget) == Child(NOTIFY, HEARTBEAT_NT, m, 0, s, budget)
    ensures ParseWithin(NOTIFY, m, [18] + s, budget) == Child(NOTIFY, MESSAGE_NT, m, 1, s, budget)
  {
    NotifyIsWellFormed();
    hide ParseWithin, WellFormed, Typed, Word, Fixed, Bool, EMsg, Text, Child, Element;
    TakesChild(NOTIFY, HEARTBEAT_NT, m, 0, s, budget);
    TakesChild(NOTIFY, MESSAGE_NT, m, 1, s, budget);
  }

  lemma MessageParses(m: Msg, s: Bytes, budget: nat)
    requires Typed(MESSAGE, m)
    ensures WellFormed(MESSAGE)
    ensures ParseWithin(MESSAGE, m, [8] + s, budget) == EMsg(MESSAGE, m, 0, s, budget)
    ensures ParseWithin(MESSAGE, m, [21] + s, budget) == Fixed(MESSAGE, m, 1, s, budget)
    ensures ParseWithin(MESSAGE, m, [29] + s, budget) == Fixed(MESSAGE, m, 2, s, budget)
    ensures ParseWithin(MESSAGE, m, [34] + s, budget) == Child(MESSAGE, REQUEST, m, 3, s, budget)
    ensures ParseWithin(MESSAGE, m, [42] + s, budget) == Child(MESSAGE, RESPOND, m, 4, s, budget)
    ensures ParseWithin(MESSAGE, m, [50] + s, budget) == Child(MESSAGE, NOTIFY, m, 5, s, budget)
  {
    MessageIsWellFormed();
    hide ParseWithin, WellFormed, Typed, Word, Fixed, Bool, EMsg, Text, Child, Element;
    TakesEMsg(MESSAGE, m, 0, s, budget);
    TakesFixed(MESSAGE, m, 1, s, budget);
    TakesFixed(MESSAGE, m, 2, s, budget);
    TakesChild(MESSAGE, REQUEST, m, 3, s, budget);
    TakesChild(MESSAGE, RESPOND, m, 4, s, budget);
    TakesChild(MESSAGE, NOTIFY, m, 5, s, budget);
  }

  // ------------------------------------------------------------------- a heartbeat

  lemma HeartbeatOf(n: nat, budget: nat)
    requires n < 0x1_0000_0000
    ensures WellFormed(HEARTBEAT_NT)
    ensures ParseWithin(HEARTBEAT_NT, Empty(HEARTBEAT_NT), [8] + WriteVarint(n), budget) == Some(Msg([[Num(n)]], []))
  {
    hide ParseWithin, WellFormed, ReadVarint, WriteVarint;
    var e, m := Empty(HEARTBEAT_NT), Msg([[Num(n)]], []);
    HeartbeatNtParses(e, WriteVarint(n), budget);
    Varint64RoundTrip(n, []);
    SmallResidue(n);
    assert WriteVarint(n) + [] == WriteVarint(n) && e.(slots := e.slots[0 := [Num(n)]]) == m;
    ParseEnds(HEARTBEAT_NT, m, 0, [], budget);
  }

  /** The notification that carries the heartbeat of user `n`. */
  lemma NotifyHeartbeat(n: nat)
    requires n < 0x1_0000_0000
    ensures WellFormed(NOTIFY)
    ensures var b := [8] + WriteVarint(n);
      ParseWithin(NOTIFY, Empty(NOTIFY), [10] + (WriteVarint(|b|) + b), 100)
      == Some(Msg([[Sub(Msg([[Num(n)]], []))], []], []))
  {
    hide ParseWithin, WellFormed, ReadVarint, WriteVarint;
    var b, e, x := [8] + WriteVarint(n), Empty(NOTIFY), Msg([[Num(n)]], []);
    var m := Msg([[Sub(x)], []], []);
    VarintSizeIsLength(n);
    Varint64RoundTrip(|b|, b);
    NotifyParses(e, WriteVarint(|b|) + b, 100);
    HeartbeatOf(n, 99);
    assert b[..|b|] == b && b[|b|..] == [];
    assert e.(slots := e.slots[0 := [Sub(x)]]).slots == m.slots;
    ParseEnds(NOTIFY, m, 0, [], 100);
  }
}
