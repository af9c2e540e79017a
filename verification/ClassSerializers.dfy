/** What the serializers of the generated classes of package pbmsg emit, field by field, written out for every
    class, and proved of the serializer that the schemas drive. */
module ClassSerializers {
  import opened Octets
  import opened Wire
  import opened Schemas
  import opened Codec
  import opened Pbmsg
  import Parser

  predicate AllNumbers(vs: seq<Value>) { forall j :: 0 <= j < |vs| ==> vs[j].Num? }
  predicate AllBits(vs: seq<Value>) { forall j :: 0 <= j < |vs| ==> vs[j].Num? && vs[j].n <= 1 }
  predicate AllTexts(vs: seq<Value>) { forall j :: 0 <= j < |vs| ==> vs[j].Str? }
  predicate AllOf(sub: Schema, vs: seq<Value>) { forall j :: 0 <= j < |vs| ==> vs[j].Sub? && Typed(sub, vs[j].m) }

  /** A scalar field: nothing if it is absent. */
  function WordOut(tag: Byte, vs: seq<Value>): Bytes
    requires AllNumbers(vs)
  {
    if vs == [] then [] else [tag] + WriteVarint(vs[0].n)
  }

  /** A negative number takes ten bytes. */
  function SignedOut(tag: Byte, vs: seq<Value>): Bytes
    requires AllNumbers(vs)
  {
    if vs == [] then []
    else [tag] + WriteVarint(if vs[0].n < 0x8000_0000 then vs[0].n else vs[0].n + 0xffff_ffff_0000_0000)
  }

  function FixedOut(tag: Byte, vs: seq<Value>): Bytes
    requires AllNumbers(vs)
  {
    if vs == [] then []
    else
      var n := vs[0].n;
      [tag, n % 0x100, n / 0x100 % 0x100, n / 0x1_0000 % 0x100, n / 0x100_0000 % 0x100]
  }

  function BoolOut(tag: Byte, vs: seq<Value>): Bytes
    requires AllBits(vs)
  {
    if vs == [] then [] else [tag, vs[0].n]
  }

  function TextOut(tag: Byte, vs: seq<Value>): Bytes
    requires AllTexts(vs)
  {
    if vs == [] then [] else [tag] + WriteVarint(|vs[0].b|) + vs[0].b
  }

  function ChildOut(tag: Byte, sub: Schema, vs: seq<Value>): Bytes
    requires AllOf(sub, vs)
  {
    if vs == [] then []
    else
      var b := Serialize(sub, vs[0].m);
      [tag] + WriteVarint(|b|) + b
  }

  /** The elements of a repeated field, first to last. */
  function ElementsOut(tag: Byte, sub: Schema, vs: seq<Value>): Bytes
    requires AllOf(sub, vs)
  {
    if vs == [] then [] else ChildOut(tag, sub, [vs[0]]) + ElementsOut(tag, sub, vs[1..])
  }

  /** The slot of a field, as it stands in the message. */
  lemma SlotAt(sch: Schema, m: Msg, i: nat)
    requires WellFormed(sch) && Typed(sch, m) && i < |sch.fields|
    ensures |m.slots| == |sch.fields| && SlotTyped(sch.fields[i], m.slots[i]) && ValuesTyped(sch.fields[i].kind, m.slots[i])
    ensures WriteFields(sch, m, i) == WriteSlot(sch.fields[i], m.slots[i]) + WriteFields(sch, m, i + 1)
    ensures sch.fields[i].arity != Repeated ==> |m.slots[i]| <= 1
    ensures 0 < FieldTag(sch.fields[i]) < 128 && WriteVarint(FieldTag(sch.fields[i])) == [FieldTag(sch.fields[i])]
  {
    Parser.OneTagPerField(sch, i);
  }

  lemma OneValue(f: Field, vs: seq<Value>)
    requires ValuesTyped(f.kind, vs) && |vs| <= 1
    ensures WriteSlot(f, vs) == if vs == [] then [] else WriteValue(f, vs[0])
  {
    if vs != [] { assert vs[1..] == []; }
  }

  lemma WordSlot(f: Field, vs: seq<Value>, tag: Byte)
    requires ValuesTyped(f.kind, vs) && |vs| <= 1 && WriteVarint(FieldTag(f)) == [tag]
    ensures f.kind.UInt32Kind? ==> AllNumbers(vs) && WriteSlot(f, vs) == WordOut(tag, vs)
    ensures f.kind.Int32Kind? || f.kind.EnumKind? ==> AllNumbers(vs) && WriteSlot(f, vs) == SignedOut(tag, vs)
    ensures f.kind.Fixed32Kind? ==> AllNumbers(vs) && WriteSlot(f, vs) == FixedOut(tag, vs)
    ensures f.kind.BoolKind? ==> AllBits(vs) && WriteSlot(f, vs) == BoolOut(tag, vs)
  {
    hide WriteVarint;
    OneValue(f, vs);
    if vs != [] { assert ValueTyped(f.kind, vs[0]); }
  }

  lemma TextSlot(f: Field, vs: seq<Value>, tag: Byte)
    requires ValuesTyped(f.kind, vs) && |vs| <= 1 && WriteVarint(FieldTag(f)) == [tag] && f.kind.BytesKind?
    ensures AllTexts(vs) && WriteSlot(f, vs) == TextOut(tag, vs)
  {
    hide WriteVarint;
    OneValue(f, vs);
    if vs != [] {
      assert ValueTyped(f.kind, vs[0]);
      ConcatAssociative([tag], WriteVarint(|vs[0].b|), vs[0].b);
    }
  }

  lemma ChildSlot(f: Field, sub: Schema, vs: seq<Value>, tag: Byte)
    requires ValuesTyped(f.kind, vs) && |vs| <= 1 && WriteVarint(FieldTag(f)) == [tag] && f.kind == MessageKind(sub)
    ensures AllOf(sub, vs) && WriteSlot(f, vs) == ChildOut(tag, sub, vs)
  {
    hide WriteVarint, Serialize;
    OneValue(f, vs);
    if vs != [] {
      assert ValueTyped(f.kind, vs[0]);
      var b := Serialize(sub, vs[0].m);
      ConcatAssociative([tag], WriteVarint(|b|), b);
    }
  }

  lemma {:induction false} ElementsSlot(f: Field, sub: Schema, vs: seq<Value>, tag: Byte)
    requires ValuesTyped(f.kind, vs) && WriteVarint(FieldTag(f)) == [tag] && f.kind == MessageKind(sub)
    ensures AllOf(sub, vs) && WriteSlot(f, vs) == ElementsOut(tag, sub, vs)
  {
    hide WriteVarint, Serialize, ChildOut;
    forall j | 0 <= j < |vs| ensures vs[j].Sub? && Typed(sub, vs[j].m) { assert ValueTyped(f.kind, vs[j]); }
    if vs != [] {
      assert ValuesTyped(f.kind, [vs[0]]) && ValuesTyped(f.kind, vs[1..]);
      ChildSlot(f, sub, [vs[0]], tag);
      OneValue(f, [vs[0]]);
      ElementsSlot(f, sub, vs[1..], tag);
    }
  }

  lemma NoMoreFields(sch: Schema, m: Msg)
    requires Typed(sch, m)
    ensures WriteFields(sch, m, |sch.fields|) == []
  {
  }

  lemma ClientMsgSerializes(m: Msg)
    requires Typed(CLIENT_MSG, m)
    ensures |m.slots| == 2 && AllNumbers(m.slots[0]) && AllTexts(m.slots[1])
    ensures Serialize(CLIENT_MSG, m)
         == SignedOut(8, m.slots[0]) + TextOut(18, m.slots[1]) + WriteUnknowns(m.unknown)
  {
    MessageIsWellFormed();
    hide WellFormed, Typed, WriteSlot, WriteVarint, WriteFields, ValuesTyped, SlotTyped, WriteUnknowns,
         WordOut, SignedOut, FixedOut, BoolOut, TextOut, ChildOut, ElementsOut, AllNumbers, AllBits, AllTexts, AllOf;
    SlotAt(CLIENT_MSG, m, 0);
    WordSlot(CLIENT_MSG.fields[0], m.slots[0], 8);
    SlotAt(CLIENT_MSG, m, 1);
    TextSlot(CLIENT_MSG.fields[1], m.slots[1], 18);
    NoMoreFields(CLIENT_MSG, m);
  }

  lemma RespondMsgSerializes(m: Msg)
    requires Typed(RESPOND_MSG, m)
    ensures |m.slots| == 2 && AllNumbers(m.slots[0]) && AllTexts(m.slots[1])
    ensures Serialize(RESPOND_MSG, m)
         == SignedOut(8, m.slots[0]) + TextOut(18, m.slots[1]) + WriteUnknowns(m.unknown)
  {
    MessageIsWellFormed();
    hide WellFormed, Typed, WriteSlot, WriteVarint, WriteFields, ValuesTyped, SlotTyped, WriteUnknowns,
         WordOut, SignedOut, FixedOut, BoolOut, TextOut, ChildOut, ElementsOut, AllNumbers, AllBits, AllTexts, AllOf;
    SlotAt(RESPOND_MSG, m, 0);
    WordSlot(RESPOND_MSG.fields[0], m.slots[0], 8);
    SlotAt(RESPOND_MSG, m, 1);
    TextSlot(RESPOND_MSG.fields[1], m.slots[1], 18);
    NoMoreFields(RESPOND_MSG, m);
  }

  lemma LoginRqSerializes(m: Msg)
    requires Typed(LOGIN_RQ, m)
    ensures |m.slots| == 3 && AllNumbers(m.slots[0]) && AllTexts(m.slots[1]) && AllTexts(m.slots[2])
    ensures Serialize(LOGIN_RQ, m)
         == WordOut(8, m.slots[0]) + TextOut(18, m.slots[1]) + TextOut(26, m.slots[2]) + WriteUnknowns(m.unknown)
  {
    RequestIsWellFormed();
    hide WellFormed, Typed, WriteSlot, WriteVarint, WriteFields, ValuesTyped, SlotTyped, WriteUnknowns,
         WordOut, SignedOut, FixedOut, BoolOut, TextOut, ChildOut, ElementsOut, AllNumbers, AllBits, AllTexts, AllOf;
    SlotAt(LOGIN_RQ, m, 0);
    WordSlot(LOGIN_RQ.fields[0], m.slots[0], 8);
    SlotAt(LOGIN_RQ, m, 1);
    TextSlot(LOGIN_RQ.fields[1], m.slots[1], 18);
    SlotAt(LOGIN_RQ, m, 2);
    TextSlot(LOGIN_RQ.fields[2], m.slots[2], 26);
    NoMoreFields(LOGIN_RQ, m);
  }

  lemma SendMessageRqSerializes(m: Msg)
    requires Typed(SEND_MESSAGE_RQ, m)
    ensures |m.slots| == 2 && AllTexts(m.slots[0]) && AllTexts(m.slots[1])
    ensures Serialize(SEND_MESSAGE_RQ, m)
         == TextOut(10, m.slots[0]) + TextOut(18, m.slots[1]) + WriteUnknowns(m.unknown)
  {
    RequestIsWellFormed();
    hide WellFormed, Typed, WriteSlot, WriteVarint, WriteFields, ValuesTyped, SlotTyped, WriteUnknowns,
         WordOut, SignedOut, FixedOut, BoolOut, TextOut, ChildOut, ElementsOut, AllNumbers, AllBits, AllTexts, AllOf;
    SlotAt(SEND_MESSAGE_RQ, m, 0);
    TextSlot(SEND_MESSAGE_RQ.fields[0], m.slots[0], 10);
    SlotAt(SEND_MESSAGE_RQ, m, 1);
    TextSlot(SEND_MESSAGE_RQ.fields[1], m.slots[1], 18);
    NoMoreFields(SEND_MESSAGE_RQ, m);
  }

  lemma RequestSerializes(m: Msg)
    requires Typed(REQUEST, m)
    ensures |m.slots| == 2 && AllOf(LOGIN_RQ, m.slots[0]) && AllOf(SEND_MESSAGE_RQ, m.slots[1])
    ensures Serialize(REQUEST, m)
         == ChildOut(10, LOGIN_RQ, m.slots[0]) + ChildOut(18, SEND_MESSAGE_RQ, m.slots[1])
            + WriteUnknowns(m.unknown)
  {
    RequestIsWellFormed();
    hide WellFormed, Typed, WriteSlot, WriteVarint, WriteFields, ValuesTyped, SlotTyped, WriteUnknowns,
         WordOut, SignedOut, FixedOut, BoolOut, TextOut, ChildOut, ElementsOut, AllNumbers, AllBits, AllTexts, AllOf;
    SlotAt(REQUEST, m, 0);
    ChildSlot(REQUEST.fields[0], LOGIN_RQ, m.slots[0], 10);
    SlotAt(REQUEST, m, 1);
    ChildSlot(REQUEST.fields[1], SEND_MESSAGE_RQ, m.slots[1], 18);
    NoMoreFields(REQUEST, m);
  }

  lemma LoginRsSerializes(m: Msg)
    requires Typed(LOGIN_RS, m)
    ensures |m.slots| == 1 && AllNumbers(m.slots[0])
    ensures Serialize(LOGIN_RS, m)
         == FixedOut(13, m.slots[0]) + WriteUnknowns(m.unknown)
  {
    RespondIsWellFormed();
    hide WellFormed, Typed, WriteSlot, WriteVarint, WriteFields, ValuesTyped, SlotTyped, WriteUnknowns,
         WordOut, SignedOut, FixedOut, BoolOut, TextOut, ChildOut, ElementsOut, AllNumbers, AllBits, AllTexts, AllOf;
    SlotAt(LOGIN_RS, m, 0);
    WordSlot(LOGIN_RS.fields[0], m.slots[0], 13);
    NoMoreFields(LOGIN_RS, m);
  }

  lemma FriendSerializes(m: Msg)
    requires Typed(FRIEND, m)
    ensures |m.slots| == 2 && AllTexts(m.slots[0]) && AllBits(m.slots[1])
    ensures Serialize(FRIEND, m)
         == TextOut(10, m.slots[0]) + BoolOut(16, m.slots[1]) + WriteUnknowns(m.unknown)
  {
    RespondIsWellFormed();
    hide WellFormed, Typed, WriteSlot, WriteVarint, WriteFields, ValuesTyped, SlotTyped, WriteUnknowns,
         WordOut, SignedOut, FixedOut, BoolOut, TextOut, ChildOut, ElementsOut, AllNumbers, AllBits, AllTexts, AllOf;
    SlotAt(FRIEND, m, 0);
    TextSlot(FRIEND.fields[0], m.slots[0], 10);
    SlotAt(FRIEND, m, 1);
    WordSlot(FRIEND.fields[1], m.slots[1], 16);
    NoMoreFields(FRIEND, m);
  }

  lemma GetFriendsRsSerializes(m: Msg)
    requires Typed(GET_FRIENDS_RS, m)
    ensures |m.slots| == 1 && AllOf(FRIEND, m.slots[0])
    ensures Serialize(GET_FRIENDS_RS, m)
         == ElementsOut(10, FRIEND, m.slots[0]) + WriteUnknowns(m.unknown)
  {
    RespondIsWellFormed();
    hide WellFormed, Typed, WriteSlot, WriteVarint, WriteFields, ValuesTyped, SlotTyped, WriteUnknowns,
         WordOut, SignedOut, FixedOut, BoolOut, TextOut, ChildOut, ElementsOut, AllNumbers, AllBits, AllTexts, AllOf;
    SlotAt(GET_FRIENDS_RS, m, 0);
    ElementsSlot(GET_FRIENDS_RS.fields[0], FRIEND, m.slots[0], 10);
    NoMoreFields(GET_FRIENDS_RS, m);
  }

  lemma RespondSerializes(m: Msg)
    requires Typed(RESPOND, m)
    ensures |m.slots| == 5 && AllBits(m.slots[0]) && AllBits(m.slots[1]) && AllTexts(m.slots[2])
    ensures AllOf(LOGIN_RS, m.slots[3]) && AllOf(GET_FRIENDS_RS, m.slots[4])
    ensures Serialize(RESPOND, m)
         == BoolOut(8, m.slots[0]) + BoolOut(16, m.slots[1]) + TextOut(26, m.slots[2])
            + ChildOut(34, LOGIN_RS, m.slots[3]) + ChildOut(42, GET_FRIENDS_RS, m.slots[4])
            + WriteUnknowns(m.unknown)
  {
    RespondIsWellFormed();
    hide WellFormed, Typed, WriteSlot, WriteVarint, WriteFields, ValuesTyped, SlotTyped, WriteUnknowns,
         WordOut, SignedOut, FixedOut, BoolOut, TextOut, ChildOut, ElementsOut, AllNumbers, AllBits, AllTexts, AllOf;
    SlotAt(RESPOND, m, 0);
    WordSlot(RESPOND.fields[0], m.slots[0], 8);
    SlotAt(RESPOND, m, 1);
    WordSlot(RESPOND.fields[1], m.slots[1], 16);
    SlotAt(RESPOND, m, 2);
    TextSlot(RESPOND.fields[2], m.slots[2], 26);
    SlotAt(RESPOND, m, 3);
    ChildSlot(RESPOND.fields[3], LOGIN_RS, m.slots[3], 34);
    SlotAt(RESPOND, m, 4);
    ChildSlot(RESPOND.fields[4], GET_FRIENDS_RS, m.slots[4], 42);
    NoMoreFields(RESPOND, m);
  }

  lemma HeartbeatNtSerializes(m: Msg)
    requires Typed(HEARTBEAT_NT, m)
    ensures |m.slots| == 1 && AllNumbers(m.slots[0])
    ensures Serialize(HEARTBEAT_NT, m)
         == WordOut(8, m.slots[0]) + WriteUnknowns(m.unknown)
  {
    NotifyIsWellFormed();
    hide WellFormed, Typed, WriteSlot, WriteVarint, WriteFields, ValuesTyped, SlotTyped, WriteUnknowns,
         WordOut, SignedOut, FixedOut, BoolOut, TextOut, ChildOut, ElementsOut, AllNumbers, AllBits, AllTexts, AllOf;
    SlotAt(HEARTBEAT_NT, m, 0);
    WordSlot(HEARTBEAT_NT.fields[0], m.slots[0], 8);
    NoMoreFields(HEARTBEAT_NT, m);
  }

  lemma MessageNtSerializes(m: Msg)
    requires Typed(MESSAGE_NT, m)
    ensures |m.slots| == 3 && AllTexts(m.slots[0]) && AllTexts(m.slots[1]) && AllTexts(m.slots[2])
    ensures Serialize(MESSAGE_NT, m)
         == TextOut(10, m.slots[0]) + TextOut(18, m.slots[1]) + TextOut(26, m.slots[2]) + WriteUnknowns(m.unknown)
  {
    NotifyIsWellFormed();
    hide WellFormed, Typed, WriteSlot, WriteVarint, WriteFields, ValuesTyped, SlotTyped, WriteUnknowns,
         WordOut, SignedOut, FixedOut, BoolOut, TextOut, ChildOut, ElementsOut, AllNumbers, AllBits, AllTexts, AllOf;
    SlotAt(MESSAGE_NT, m, 0);
    TextSlot(MESSAGE_NT.fields[0], m.slots[0], 10);
    SlotAt(MESSAGE_NT, m, 1);
    TextSlot(MESSAGE_NT.fields[1], m.slots[1], 18);
    SlotAt(MESSAGE_NT, m, 2);
    TextSlot(MESSAGE_NT.fields[2], m.slots[2], 26);
    NoMoreFields(MESSAGE_NT, m);
  }

  lemma NotifySerializes(m: Msg)
    requires Typed(NOTIFY, m)
    ensures |m.slots| == 2 && AllOf(HEARTBEAT_NT, m.slots[0]) && AllOf(MESSAGE_NT, m.slots[1])
    ensures Serialize(NOTIFY, m)
         == ChildOut(10, HEARTBEAT_NT, m.slots[0]) + ChildOut(18, MESSAGE_NT, m.slots[1])
            + WriteUnknowns(m.unknown)
  {
    NotifyIsWellFormed();
    hide WellFormed, Typed, WriteSlot, WriteVarint, WriteFields, ValuesTyped, SlotTyped, WriteUnknowns,
         WordOut, SignedOut, FixedOut, BoolOut, TextOut, ChildOut, ElementsOut, AllNumbers, AllBits, AllTexts, AllOf;
    SlotAt(NOTIFY, m, 0);
    ChildSlot(NOTIFY.fields[0], HEARTBEAT_NT, m.slots[0], 10);
    SlotAt(NOTIFY, m, 1);
    ChildSlot(NOTIFY.fields[1], MESSAGE_NT, m.slots[1], 18);
    NoMoreFields(NOTIFY, m);
  }

  lemma MessageSerializes(m: Msg)
    requires Typed(MESSAGE, m)
    ensures |m.slots| == 6 && AllNumbers(m.slots[0]) && AllNumbers(m.slots[1]) && AllNumbers(m.slots[2])
    ensures AllOf(REQUEST, m.slots[3]) && AllOf(RESPOND, m.slots[4]) && AllOf(NOTIFY, m.slots[5])
    ensures Serialize(MESSAGE, m)
         == SignedOut(8, m.slots[0]) + FixedOut(21, m.slots[1]) + FixedOut(29, m.slots[2])
            + ChildOut(34, REQUEST, m.slots[3]) + ChildOut(42, RESPOND, m.slots[4])
            + ChildOut(50, NOTIFY, m.slots[5]) + WriteUnknowns(m.unknown)
  {
    MessageIsWellFormed();
    hide WellFormed, Typed, WriteSlot, WriteVarint, WriteFields, ValuesTyped, SlotTyped, WriteUnknowns,
         WordOut, SignedOut, FixedOut, BoolOut, TextOut, ChildOut, ElementsOut, AllNumbers, AllBits, AllTexts, AllOf;
    SlotAt(MESSAGE, m, 0);
    WordSlot(MESSAGE.fields[0], m.slots[0], 8);
    SlotAt(MESSAGE, m, 1);
    WordSlot(MESSAGE.fields[1], m.slots[1], 21);
    SlotAt(MESSAGE, m, 2);
    WordSlot(MESSAGE.fields[2], m.slots[2], 29);
    SlotAt(MESSAGE, m, 3);
    ChildSlot(MESSAGE.fields[3], REQUEST, m.slots[3], 34);
    SlotAt(MESSAGE, m, 4);
    ChildSlot(MESSAGE.fields[4], RESPOND, m.slots[4], 42);
    SlotAt(MESSAGE, m, 5);
    ChildSlot(MESSAGE.fields[5], NOTIFY, m.slots[5], 50);
    NoMoreFields(MESSAGE, m);
  }
}
