/** The generated classes LoginRq and SendMessageRq: fields, presence bits and a cached size, updated
    in place.  `Value` is the message value that an object stands for. */
module Leaves {
  import opened Octets
  import opened Wire
  import opened Schemas
  import opened Codec
  import opened Output
  import opened Pbmsg
  import Storage

  // ----------------------------------------- schemas of two and of three fields, spelled out

  lemma TwoFields(sch: Schema, m: Msg)
    requires |sch.fields| == 2 && Typed(sch, m)
    ensures SlotTyped(sch.fields[0], m.slots[0]) && SlotTyped(sch.fields[1], m.slots[1])
    ensures Codec.ByteSize(sch, m)
         == SlotSize(sch.fields[0], m.slots[0]) + SlotSize(sch.fields[1], m.slots[1]) + UnknownsSize(m.unknown)
    ensures Serialize(sch, m)
         == WriteSlot(sch.fields[0], m.slots[0]) + WriteSlot(sch.fields[1], m.slots[1]) + WriteUnknowns(m.unknown)
    ensures Schemas.IsInitialized(sch, m)
       <==> SlotInitialized(sch.fields[0], m.slots[0]) && SlotInitialized(sch.fields[1], m.slots[1])
  {
    assert FieldsSize(sch, m, 2) == 0 && WriteFields(sch, m, 2) == [];
    assert FieldsSize(sch, m, 1) == SlotSize(sch.fields[1], m.slots[1]);
    assert WriteFields(sch, m, 1) == WriteSlot(sch.fields[1], m.slots[1]);
  }

  lemma ThreeFields(sch: Schema, m: Msg)
    requires |sch.fields| == 3 && Typed(sch, m)
    ensures forall i :: 0 <= i < 3 ==> SlotTyped(sch.fields[i], m.slots[i])
    ensures Codec.ByteSize(sch, m)
         == SlotSize(sch.fields[0], m.slots[0]) + SlotSize(sch.fields[1], m.slots[1]) + SlotSize(sch.fields[2], m.slots[2])
            + UnknownsSize(m.unknown)
    ensures Serialize(sch, m)
         == WriteSlot(sch.fields[0], m.slots[0]) + WriteSlot(sch.fields[1], m.slots[1]) + WriteSlot(sch.fields[2], m.slots[2])
            + WriteUnknowns(m.unknown)
    ensures Schemas.IsInitialized(sch, m) <==> forall i :: 0 <= i < 3 ==> SlotInitialized(sch.fields[i], m.slots[i])
  {
    assert FieldsSize(sch, m, 3) == 0 && WriteFields(sch, m, 3) == [];
    assert FieldsSize(sch, m, 2) == SlotSize(sch.fields[2], m.slots[2]);
    assert WriteFields(sch, m, 2) == WriteSlot(sch.fields[2], m.slots[2]);
    assert FieldsSize(sch, m, 1) == SlotSize(sch.fields[1], m.slots[1]) + FieldsSize(sch, m, 2);
    assert WriteFields(sch, m, 1) == WriteSlot(sch.fields[1], m.slots[1]) + WriteFields(sch, m, 2);
    ConcatAssociative(WriteSlot(sch.fields[0], m.slots[0]), WriteSlot(sch.fields[1], m.slots[1]),
          WriteSlot(sch.fields[2], m.slots[2]));
  }

  /** A singular field that is present with value `v`. */
  lemma OneValue(f: Field, v: Value)
    requires ValueTyped(f.kind, v)
    ensures SlotSize(f, [v]) == ValueSize(f, v) && WriteSlot(f, [v]) == WriteValue(f, v)
  {
    assert [v][1..] == [];
    assert SlotSize(f, []) == 0 && WriteSlot(f, []) == [];
  }

  /** A present bytes field and a present uint32 field. */
  lemma BytesField(f: Field, b: Bytes)
    requires f.kind.BytesKind? && |b| <= INT_MAX
    ensures ValuesTyped(f.kind, [Str(b)])
    ensures WriteSlot(f, [Str(b)]) == WriteVarint(FieldTag(f)) + WriteString(b)
    ensures SlotSize(f, [Str(b)]) == 1 + DelimitedSize(|b|)
  {
    OneValue(f, Str(b));
  }

  lemma UInt32Field(f: Field, n: nat)
    requires f.kind.UInt32Kind? && n < TWO32
    ensures ValuesTyped(f.kind, [Num(n)])
    ensures WriteSlot(f, [Num(n)]) == WriteVarint(FieldTag(f)) + WriteVarint(n)
    ensures SlotSize(f, [Num(n)]) == 1 + VarintSize(n)
  {
    OneValue(f, Num(n));
  }

  /** The bytes of a field that is written only when present. */
  function When(present: bool, s: Bytes): Bytes { if present then s else [] }

  function CountWhen(present: bool, n: nat): nat { if present then n else 0 }

  lemma Lengths(x: Bytes, y: Bytes, z: Bytes, u: Bytes)
    ensures |x + y + z + u| == |x| + |y| + |z| + |u|
  {
  }

  /** A field, if present, behind its tag. */
  method FieldToArray(present: bool, tag: nat, payload: Bytes, target: array<Byte>, at: nat) returns (end: nat)
    requires at + |When(present, WriteVarint(tag) + payload)| <= target.Length
    modifies target
    ensures Wrote(old(target[..]), target[..], at, When(present, WriteVarint(tag) + payload), end)
  {
    end := at;
    if present { end := WriteTaggedToArray(tag, payload, target, at); }
  }

  method UnknownsToArray(us: seq<Unknown>, target: array<Byte>, at: nat) returns (end: nat)
    requires at + |WriteUnknowns(us)| <= target.Length
    modifies target
    ensures Wrote(old(target[..]), target[..], at, WriteUnknowns(us), end)
  {
    end := at;
    if us != [] { end := WriteUnknownsToArray(us, target, at); }
  }

  method FieldToStream(present: bool, tag: nat, payload: Bytes, output: CodedOutputStream)
    modifies output
    ensures output.bytes == old(output.bytes) + When(present, WriteVarint(tag) + payload)
  {
    if present { output.WriteTagged(tag, payload); }
  }

  method UnknownsToStream(us: seq<Unknown>, output: CodedOutputStream)
    modifies output
    ensures output.bytes == old(output.bytes) + WriteUnknowns(us)
  {
    if us != [] { output.WriteUnknowns(us); }
  }

  /** The slot of a singular field. */
  function Given(present: bool, v: Value): seq<Value> { if present then [v] else [] }

  function Replace(a: seq<Value>, b: seq<Value>): seq<Value> { if b == [] then a else b }

  /** With no repeated field and no submessage, merging replaces what the second message has. */
  lemma MergeReplaces(sch: Schema, a: Msg, b: Msg)
    requires Typed(sch, a) && Typed(sch, b)
    requires forall i :: 0 <= i < |sch.fields| ==> sch.fields[i].arity != Repeated && !sch.fields[i].kind.MessageKind?
    ensures forall i :: 0 <= i < |sch.fields| ==> Merge(sch, a, b).slots[i] == Replace(a.slots[i], b.slots[i])
  {
    forall i | 0 <= i < |sch.fields| ensures Merge(sch, a, b).slots[i] == Replace(a.slots[i], b.slots[i]) {
      MergeAt(sch, a, b, i);
    }
  }

  /** The two required bits, tested at once. */
  lemma LowBits(bits: bv32)
    ensures (bits & 3) ^ 3 == 0 <==> bits & 1 != 0 && bits & 2 != 0
    ensures bits & 3 == 3 <==> bits & 1 != 0 && bits & 2 != 0
  {
  }

  lemma AnyOfThree(bits: bv32)
    ensures bits & 7 != 0 <==> bits & 1 != 0 || bits & 2 != 0 || bits & 4 != 0
  {
  }

  // ------------------------------------------------------------------ LoginRq

  class LoginRq {
    var hasBits: bv32
    var userId: nat
    var username: Bytes
    var password: Bytes
    var unknown: seq<Unknown>
    var cachedSize: nat

    predicate HasUserId() reads this { hasBits & 1 != 0 }
    predicate HasUsername() reads this { hasBits & 2 != 0 }
    predicate HasPassword() reads this { hasBits & 4 != 0 }

    /** An absent field holds its default, or what a failed read left in it. */
    ghost predicate Valid()
      reads this
    {
      && userId < TWO32 && |username| <= INT_MAX && |password| <= INT_MAX
      && (!HasUserId() ==> userId == 0 || userId == Storage.STRAY)
      && (!HasUsername() ==> username == []) && (!HasPassword() ==> password == [])
    }

    ghost function UserId(): (vs: seq<Value>)
      requires Valid()
      reads this
      ensures SlotTyped(LOGIN_RQ.fields[0], vs)
    {
      Given(HasUserId(), Num(userId))
    }

    ghost function Username(): (vs: seq<Value>)
      requires Valid()
      reads this
      ensures SlotTyped(LOGIN_RQ.fields[1], vs)
    {
      Given(HasUsername(), Str(username))
    }

    ghost function Password(): (vs: seq<Value>)
      requires Valid()
      reads this
      ensures SlotTyped(LOGIN_RQ.fields[2], vs)
    {
      Given(HasPassword(), Str(password))
    }

    ghost function Value(): (m: Msg)
      requires Valid()
      reads this
      ensures Typed(LOGIN_RQ, m)
    {
      Msg([UserId(), Username(), Password()], unknown)
    }

    /** The object as a state of the storage of its schema. */
    ghost function Stored(): Storage.Store
      reads this
    {
      Storage.Store([Storage.Number(HasUserId(), userId), Storage.Text(HasUsername(), username),
                     Storage.Text(HasPassword(), password)], unknown, cachedSize)
    }

    lemma StoredShowsValue()
      ensures Valid() <==> Storage.Valid(LOGIN_RQ, Stored())
      ensures Valid() ==> Storage.View(LOGIN_RQ, Stored()) == Value()
    {
      var fs, cs := LOGIN_RQ.fields, Stored().cells;
      assert Storage.CellValid(fs[0], cs[0]) <==> userId < TWO32 && (!HasUserId() ==> userId == 0 || userId == Storage.STRAY);
      assert Storage.CellValid(fs[1], cs[1]) <==> |username| <= INT_MAX && (!HasUsername() ==> username == []);
      assert Storage.CellValid(fs[2], cs[2]) <==> |password| <= INT_MAX && (!HasPassword() ==> password == []);
      if Valid() {
        assert Storage.View(LOGIN_RQ, Stored()).slots == Value().slots;
      }
    }

    lemma StoredIsClean()
      requires Valid()
      ensures Storage.Valid(LOGIN_RQ, Stored())
      ensures Storage.Clean(LOGIN_RQ, Stored()) <==> HasUserId() || userId == 0
    {
      hide Storage.Valid;
      StoredShowsValue();
      var fs, cs := LOGIN_RQ.fields, Stored().cells;
      forall i | 0 <= i < 3 ensures Storage.CellValid(fs[i], cs[i]) { Storage.CellAt(LOGIN_RQ, Stored(), i); }
      assert Storage.CleanCell(fs[0], cs[0]) <==> HasUserId() || userId == 0;
      assert Storage.CleanCell(fs[1], cs[1]) && Storage.CleanCell(fs[2], cs[2]);
    }

    constructor ()
      ensures Valid() && Value() == Empty(LOGIN_RQ) && userId == 0
    {
      hasBits, userId, username, password, unknown, cachedSize := 0, 0, [], [], [], 0;
    }

    method SetUserId(value: nat)
      requires Valid() && value < TWO32
      modifies this`hasBits, this`userId
      ensures Valid() && UserId() == [Num(value)] && Username() == old(Username()) && Password() == old(Password())
    {
      hasBits := hasBits | 1;
      userId := value;
    }

    method SetUsername(value: Bytes)
      requires Valid() && |value| <= INT_MAX
      modifies this`hasBits, this`username
      ensures Valid() && UserId() == old(UserId()) && Username() == [Str(value)] && Password() == old(Password())
    {
      hasBits := hasBits | 2;
      username := value;
    }

    method SetPassword(value: Bytes)
      requires Valid() && |value| <= INT_MAX
      modifies this`hasBits, this`password
      ensures Valid() && UserId() == old(UserId()) && Username() == old(Username()) && Password() == [Str(value)]
    {
      hasBits := hasBits | 4;
      password := value;
    }

    method ClearUsername()
      requires Valid()
      modifies this`hasBits, this`username
      ensures Valid() && UserId() == old(UserId()) && Username() == [] && Password() == old(Password())
    {
      username := [];
      hasBits := hasBits & !2;
    }

    method Clear()
      requires Valid()
      modifies this
      ensures Valid() && Value() == Empty(LOGIN_RQ)
      ensures userId == if old(HasUserId() || HasUsername() || HasPassword()) then 0 else old(userId)
    {
      AnyOfThree(hasBits);
      if hasBits & 7 != 0 {
        userId := 0;
        if HasUsername() { username := []; }
        if HasPassword() { password := []; }
      }
      hasBits := 0;
      if unknown != [] { unknown := []; }
    }

    method MergeFrom(from: LoginRq)
      requires Valid() && from.Valid() && from != this
      modifies this
      ensures Valid() && Value() == Merge(LOGIN_RQ, old(Value()), from.Value())
    {
      ghost var a := Value();
      MergeFields(from);
      if from.unknown != [] { unknown := unknown + from.unknown; }
      Merged(a, from);
    }

    method MergeUserId(from: LoginRq)
      requires Valid() && from.Valid() && from != this
      modifies this`hasBits, this`userId
      ensures Valid() && UserId() == Replace(old(UserId()), from.UserId()) && Username() == old(Username())
            && Password() == old(Password())
    {
      if from.HasUserId() { SetUserId(from.userId); }
    }

    method MergeUsername(from: LoginRq)
      requires Valid() && from.Valid() && from != this
      modifies this`hasBits, this`username
      ensures Valid() && Username() == Replace(old(Username()), from.Username()) && UserId() == old(UserId())
            && Password() == old(Password())
    {
      if from.HasUsername() { SetUsername(from.username); }
    }

    method MergePassword(from: LoginRq)
      requires Valid() && from.Valid() && from != this
      modifies this`hasBits, this`password
      ensures Valid() && Password() == Replace(old(Password()), from.Password()) && UserId() == old(UserId())
            && Username() == old(Username())
    {
      if from.HasPassword() { SetPassword(from.password); }
    }

    lemma NothingPresent()
      requires Valid() && hasBits & 0xff == 0
      ensures UserId() == [] && Username() == [] && Password() == []
    {
    }

    method MergeFields(from: LoginRq)
      requires Valid() && from.Valid() && from != this
      modifies this`hasBits, this`userId, this`username, this`password
      ensures Valid()
      ensures UserId() == Replace(old(UserId()), from.UserId())
      ensures Username() == Replace(old(Username()), from.Username())
      ensures Password() == Replace(old(Password()), from.Password())
    {
      hide HasUserId, HasUsername, HasPassword, Given, SlotTyped;
      if from.hasBits & 0xff != 0 {
        MergeUserId(from);
        MergeUsername(from);
        MergePassword(from);
      } else {
        from.NothingPresent();
      }
    }

    lemma Merged(a: Msg, from: LoginRq)
      requires Valid() && from.Valid() && Typed(LOGIN_RQ, a)
      requires UserId() == Replace(a.slots[0], from.UserId()) && Username() == Replace(a.slots[1], from.Username())
      requires Password() == Replace(a.slots[2], from.Password()) && unknown == a.unknown + from.unknown
      ensures Value() == Merge(LOGIN_RQ, a, from.Value())
    {
      MergeReplaces(LOGIN_RQ, a, from.Value());
    }

    method CopyFrom(from: LoginRq)
      requires Valid() && from.Valid()
      modifies this
      ensures Valid() && Value() == old(from.Value())
    {
      if from == this { return; }
      Clear();
      MergeFrom(from);
      MergeEmptyLeft(LOGIN_RQ, from.Value());
    }

    ghost function Encoded(): Bytes
      reads this
    {
      When(HasUserId(), WriteVarint(8) + WriteVarint(userId)) + When(HasUsername(), WriteVarint(18) + WriteString(username))
      + When(HasPassword(), WriteVarint(26) + WriteString(password)) + WriteUnknowns(unknown)
    }

    /** The encoding of the value, read off the fields. */
    lemma Encoding()
      requires Valid()
      ensures Serialize(LOGIN_RQ, Value()) == Encoded()
    {
      hide Typed, WriteVarint, WriteString, WriteUnknowns;
      ThreeFields(LOGIN_RQ, Value());
      UInt32Field(LOGIN_RQ.fields[0], userId);
      BytesField(LOGIN_RQ.fields[1], username);
      BytesField(LOGIN_RQ.fields[2], password);
    }

    method RequiredFieldsByteSizeFallback() returns (size: nat)
      requires Valid()
      ensures size == SlotSize(LOGIN_RQ.fields[0], UserId()) + SlotSize(LOGIN_RQ.fields[1], Username())
    {
      UInt32Field(LOGIN_RQ.fields[0], userId);
      BytesField(LOGIN_RQ.fields[1], username);
      size := 0;
      if HasUserId() { size := size + 1 + VarintSize(userId); }
      if HasUsername() { size := size + 1 + DelimitedSize(|username|); }
    }

    /** The size of the value, field by field. */
    lemma Sizes()
      requires Valid()
      ensures Codec.ByteSize(LOGIN_RQ, Value()) == SlotSize(LOGIN_RQ.fields[0], UserId())
        + SlotSize(LOGIN_RQ.fields[1], Username()) + SlotSize(LOGIN_RQ.fields[2], Password()) + UnknownsSize(unknown)
      ensures SlotSize(LOGIN_RQ.fields[0], UserId()) == CountWhen(HasUserId(), 1 + VarintSize(userId))
      ensures SlotSize(LOGIN_RQ.fields[1], Username()) == CountWhen(HasUsername(), 1 + DelimitedSize(|username|))
      ensures SlotSize(LOGIN_RQ.fields[2], Password()) == CountWhen(HasPassword(), 1 + DelimitedSize(|password|))
    {
      ThreeFields(LOGIN_RQ, Value());
      UInt32Field(LOGIN_RQ.fields[0], userId);
      BytesField(LOGIN_RQ.fields[1], username);
      BytesField(LOGIN_RQ.fields[2], password);
    }

    method ByteSize() returns (size: nat)
      requires Valid()
      modifies this`cachedSize
      ensures Valid() && Value() == old(Value()) && size == cachedSize == Codec.ByteSize(LOGIN_RQ, Value())
    {
      hide Typed, Codec.ByteSize, SlotSize;
      Sizes();
      LowBits(hasBits);
      if (hasBits & 3) ^ 3 == 0 {
        size := 1 + VarintSize(userId) + 1 + DelimitedSize(|username|);
      } else {
        size := RequiredFieldsByteSizeFallback();
      }
      if HasPassword() { size := size + 1 + DelimitedSize(|password|); }
      if unknown != [] { size := size + UnknownsSize(unknown); }
      cachedSize := size;
    }

    method IsInitialized() returns (b: bool)
      requires Valid()
      ensures b == Schemas.IsInitialized(LOGIN_RQ, Value())
    {
      b := hasBits & 3 == 3;
      ThreeFields(LOGIN_RQ, Value());
      assert SlotInitialized(LOGIN_RQ.fields[0], UserId()) == HasUserId();
      assert SlotInitialized(LOGIN_RQ.fields[1], Username()) == HasUsername();
    }

    method SerializeToArray(target: array<Byte>, at: nat) returns (end: nat)
      requires Valid() && at + |Serialize(LOGIN_RQ, Value())| <= target.Length
      modifies target
      ensures Wrote(old(target[..]), target[..], at, Serialize(LOGIN_RQ, Value()), end)
    {
      Encoding();
      end := FieldsToArray(target, at);
    }

    method FieldsToArray(target: array<Byte>, at: nat) returns (end: nat)
      requires at + |Encoded()| <= target.Length
      modifies target
      ensures Wrote(old(target[..]), target[..], at, Encoded(), end)
    {
      hide When, WriteVarint, WriteString, WriteUnknowns;
      ghost var x := When(HasUserId(), WriteVarint(8) + WriteVarint(userId));
      ghost var y := When(HasUsername(), WriteVarint(18) + WriteString(username));
      ghost var z := When(HasPassword(), WriteVarint(26) + WriteString(password));
      ghost var u := WriteUnknowns(unknown);
      Lengths(x, y, z, u);
      ghost var s0 := target[..];
      var mid1 := FieldToArray(HasUserId(), 8, WriteVarint(userId), target, at);
      ghost var s1 := target[..];
      var mid2 := FieldToArray(HasUsername(), 18, WriteString(username), target, mid1);
      ghost var s2 := target[..];
      WroteThen(s0, s1, s2, at, x, mid1, y, mid2);
      var mid3 := FieldToArray(HasPassword(), 26, WriteString(password), target, mid2);
      ghost var s3 := target[..];
      WroteThen(s0, s2, s3, at, x + y, mid2, z, mid3);
      end := UnknownsToArray(unknown, target, mid3);
      WroteThen(s0, s3, target[..], at, x + y + z, mid3, u, end);
    }

    method SerializeToStream(output: CodedOutputStream)
      requires Valid()
      modifies output
      ensures output.bytes == old(output.bytes) + Serialize(LOGIN_RQ, Value())
    {
      hide Valid, Value, When, WriteVarint, WriteString, WriteUnknowns;
      ghost var x := When(HasUserId(), WriteVarint(8) + WriteVarint(userId));
      ghost var y := When(HasUsername(), WriteVarint(18) + WriteString(username));
      ghost var z := When(HasPassword(), WriteVarint(26) + WriteString(password));
      ghost var s := output.bytes;
      Encoding();
      FieldToStream(HasUserId(), 8, WriteVarint(userId), output);
      FieldToStream(HasUsername(), 18, WriteString(username), output);
      FieldToStream(HasPassword(), 26, WriteString(password), output);
      UnknownsToStream(unknown, output);
      assert output.bytes == s + x + y + z + WriteUnknowns(unknown);
      ConcatAssociative(s, x, y);
      ConcatAssociative(s, x + y, z);
      ConcatAssociative(s, x + y + z, WriteUnknowns(unknown));
    }
  }

  // ------------------------------------------------------------ SendMessageRq

  class SendMessageRq {
    var hasBits: bv32
    var receiver: Bytes
    var text: Bytes
    var unknown: seq<Unknown>
    var cachedSize: nat

    predicate HasReceiver() reads this { hasBits & 1 != 0 }
    predicate HasText() reads this { hasBits & 2 != 0 }

    /** An absent field holds its default. */
    ghost predicate Valid()
      reads this
    {
      && |receiver| <= INT_MAX && |text| <= INT_MAX
      && (!HasReceiver() ==> receiver == []) && (!HasText() ==> text == [])
    }

    ghost function Receiver(): (vs: seq<Value>)
      requires Valid()
      reads this
      ensures SlotTyped(SEND_MESSAGE_RQ.fields[0], vs)
    {
      Given(HasReceiver(), Str(receiver))
    }

    ghost function Text(): (vs: seq<Value>)
      requires Valid()
      reads this
      ensures SlotTyped(SEND_MESSAGE_RQ.fields[1], vs)
    {
      Given(HasText(), Str(text))
    }

    ghost function Value(): (m: Msg)
      requires Valid()
      reads this
      ensures Typed(SEND_MESSAGE_RQ, m)
    {
      Msg([Receiver(), Text()], unknown)
    }

    /** The object as a state of the storage of its schema. */
    ghost function Stored(): Storage.Store
      reads this
    {
      Storage.Store([Storage.Text(HasReceiver(), receiver), Storage.Text(HasText(), text)], unknown, cachedSize)
    }

    lemma StoredShowsValue()
      ensures Valid() <==> Storage.Valid(SEND_MESSAGE_RQ, Stored())
      ensures Valid() ==> Storage.View(SEND_MESSAGE_RQ, Stored()) == Value()
    {
      var fs, cs := SEND_MESSAGE_RQ.fields, Stored().cells;
      assert Storage.CellValid(fs[0], cs[0]) <==> |receiver| <= INT_MAX && (!HasReceiver() ==> receiver == []);
      assert Storage.CellValid(fs[1], cs[1]) <==> |text| <= INT_MAX && (!HasText() ==> text == []);
      if Valid() {
        assert Storage.View(SEND_MESSAGE_RQ, Stored()).slots == Value().slots;
      }
    }

    constructor ()
      ensures Valid() && Value() == Empty(SEND_MESSAGE_RQ)
    {
      hasBits, receiver, text, unknown, cachedSize := 0, [], [], [], 0;
    }

    method SetReceiver(value: Bytes)
      requires Valid() && |value| <= INT_MAX
      modifies this`hasBits, this`receiver
      ensures Valid() && Receiver() == [Str(value)] && Text() == old(Text())
    {
      hasBits := hasBits | 1;
      receiver := value;
    }

    method SetText(value: Bytes)
      requires Valid() && |value| <= INT_MAX
      modifies this`hasBits, this`text
      ensures Valid() && Receiver() == old(Receiver()) && Text() == [Str(value)]
    {
      hasBits := hasBits | 2;
      text := value;
    }

    method Clear()
      requires Valid()
      modifies this
      ensures Valid() && Value() == Empty(SEND_MESSAGE_RQ)
    {
      if hasBits & 3 != 0 {
        if HasReceiver() { receiver := []; }
        if HasText() { text := []; }
      }
      hasBits := 0;
      if unknown != [] { unknown := []; }
    }

    method MergeFrom(from: SendMessageRq)
      requires Valid() && from.Valid() && from != this
      modifies this
      ensures Valid() && Value() == Merge(SEND_MESSAGE_RQ, old(Value()), from.Value())
    {
      MergeReplaces(SEND_MESSAGE_RQ, Value(), from.Value());
      if from.hasBits & 0xff != 0 {
        if from.HasReceiver() { SetReceiver(from.receiver); }
        if from.HasText() { SetText(from.text); }
      }
      if from.unknown != [] { unknown := unknown + from.unknown; }
    }

    method CopyFrom(from: SendMessageRq)
      requires Valid() && from.Valid()
      modifies this
      ensures Valid() && Value() == old(from.Value())
    {
      if from == this { return; }
      Clear();
      MergeFrom(from);
      MergeEmptyLeft(SEND_MESSAGE_RQ, from.Value());
    }

    /** The encoding of the value, read off the fields. */
    lemma Encoding()
      requires Valid()
      ensures Serialize(SEND_MESSAGE_RQ, Value())
           == When(HasReceiver(), WriteVarint(10) + WriteString(receiver)) + When(HasText(), WriteVarint(18) + WriteString(text))
              + WriteUnknowns(unknown)
      ensures Codec.ByteSize(SEND_MESSAGE_RQ, Value())
           == CountWhen(HasReceiver(), 1 + DelimitedSize(|receiver|)) + CountWhen(HasText(), 1 + DelimitedSize(|text|))
              + UnknownsSize(unknown)
    {
      TwoFields(SEND_MESSAGE_RQ, Value());
      BytesField(SEND_MESSAGE_RQ.fields[0], receiver);
      BytesField(SEND_MESSAGE_RQ.fields[1], text);
    }

    method ByteSize() returns (size: nat)
      requires Valid()
      modifies this`cachedSize
      ensures Valid() && Value() == old(Value()) && size == cachedSize == Codec.ByteSize(SEND_MESSAGE_RQ, Value())
    {
      Encoding();
      size := 0;
      if HasText() { size := size + 1 + DelimitedSize(|text|); }
      if HasReceiver() { size := size + 1 + DelimitedSize(|receiver|); }
      if unknown != [] { size := size + UnknownsSize(unknown); }
      cachedSize := size;
    }

    method IsInitialized() returns (b: bool)
      requires Valid()
      ensures b == Schemas.IsInitialized(SEND_MESSAGE_RQ, Value())
    {
      b := hasBits & 2 == 2;
      TwoFields(SEND_MESSAGE_RQ, Value());
      assert SlotInitialized(SEND_MESSAGE_RQ.fields[1], Text()) == HasText();
    }

    method SerializeToArray(target: array<Byte>, at: nat) returns (end: nat)
      requires Valid() && at + |Serialize(SEND_MESSAGE_RQ, Value())| <= target.Length
      modifies target
      ensures Wrote(old(target[..]), target[..], at, Serialize(SEND_MESSAGE_RQ, Value()), end)
    {
      hide Valid, Value, When, WriteVarint, WriteString, WriteUnknowns;
      ghost var x := When(HasReceiver(), WriteVarint(10) + WriteString(receiver));
      ghost var y := When(HasText(), WriteVarint(18) + WriteString(text));
      ghost var u := WriteUnknowns(unknown);
      Encoding();
      Lengths(x, y, [], u);
      ghost var s0 := target[..];
      var mid1 := FieldToArray(HasReceiver(), 10, WriteString(receiver), target, at);
      ghost var s1 := target[..];
      var mid2 := FieldToArray(HasText(), 18, WriteString(text), target, mid1);
      ghost var s2 := target[..];
      WroteThen(s0, s1, s2, at, x, mid1, y, mid2);
      end := UnknownsToArray(unknown, target, mid2);
      WroteThen(s0, s2, target[..], at, x + y, mid2, u, end);
    }

    method SerializeToStream(output: CodedOutputStream)
      requires Valid()
      modifies output
      ensures output.bytes == old(output.bytes) + Serialize(SEND_MESSAGE_RQ, Value())
    {
      hide Valid, Value, When, WriteVarint, WriteString, WriteUnknowns;
      ghost var x := When(HasReceiver(), WriteVarint(10) + WriteString(receiver));
      ghost var y := When(HasText(), WriteVarint(18) + WriteString(text));
      ghost var s := output.bytes;
      Encoding();
      FieldToStream(HasReceiver(), 10, WriteString(receiver), output);
      FieldToStream(HasText(), 18, WriteString(text), output);
      UnknownsToStream(unknown, output);
      assert output.bytes == s + x + y + WriteUnknowns(unknown);
      ConcatAssociative(s, x, y);
      ConcatAssociative(s, x + y, WriteUnknowns(unknown));
    }
  }
}
