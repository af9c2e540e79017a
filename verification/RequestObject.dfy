/** The generated class Request: it owns two submessages through pointers that may be null, and
    forwards every operation to those that are present. */
module RequestObject {
  import opened Octets
  import opened Wire
  import opened Schemas
  import opened Codec
  import opened Output
  import opened Pbmsg
  import opened Leaves
  import RoundTrip
  import Storage

  lemma MergedSlots(a: Msg, b: Msg)
    requires Typed(REQUEST, a) && Typed(REQUEST, b)
    ensures SlotTyped(REQUEST.fields[0], a.slots[0]) && SlotTyped(REQUEST.fields[0], b.slots[0])
    ensures SlotTyped(REQUEST.fields[1], a.slots[1]) && SlotTyped(REQUEST.fields[1], b.slots[1])
    ensures Merge(REQUEST, a, b).unknown == a.unknown + b.unknown
    ensures Merge(REQUEST, a, b).slots
         == [MergeSlot(REQUEST.fields[0], a.slots[0], b.slots[0]), MergeSlot(REQUEST.fields[1], a.slots[1], b.slots[1])]
  {
    MergeAt(REQUEST, a, b, 0);
    MergeAt(REQUEST, a, b, 1);
  }

  /** A submessage field, present or absent. */
  lemma SubmessageField(f: Field, present: bool, m: Msg)
    requires f.kind.MessageKind? && Typed(f.kind.schema, m)
    ensures ValuesTyped(f.kind, Given(present, Sub(m)))
    ensures WriteSlot(f, Given(present, Sub(m)))
         == When(present, WriteVarint(FieldTag(f)) + WriteString(Serialize(f.kind.schema, m)))
    ensures SlotSize(f, Given(present, Sub(m))) == CountWhen(present, 1 + DelimitedSize(Codec.ByteSize(f.kind.schema, m)))
  {
    if present {
      OneValue(f, Sub(m));
    }
  }

  ghost function RequestMsg(hasLogin: bool, login: Msg, hasSendMessage: bool, sendMessage: Msg, unknown: seq<Unknown>): (m: Msg)
    requires Typed(LOGIN_RQ, login) && Typed(SEND_MESSAGE_RQ, sendMessage)
    ensures Typed(REQUEST, m)
  {
    RequestIsWellFormed();
    Msg([Given(hasLogin, Sub(login)), Given(hasSendMessage, Sub(sendMessage))], unknown)
  }

  lemma RequestEncoding(hasLogin: bool, login: Msg, hasSendMessage: bool, sendMessage: Msg, unknown: seq<Unknown>)
    requires Typed(LOGIN_RQ, login) && Typed(SEND_MESSAGE_RQ, sendMessage)
    ensures Serialize(REQUEST, RequestMsg(hasLogin, login, hasSendMessage, sendMessage, unknown))
         == When(hasLogin, WriteVarint(10) + WriteString(Serialize(LOGIN_RQ, login)))
            + When(hasSendMessage, WriteVarint(18) + WriteString(Serialize(SEND_MESSAGE_RQ, sendMessage)))
            + WriteUnknowns(unknown)
    ensures Codec.ByteSize(REQUEST, RequestMsg(hasLogin, login, hasSendMessage, sendMessage, unknown))
         == CountWhen(hasLogin, 1 + DelimitedSize(Codec.ByteSize(LOGIN_RQ, login)))
            + CountWhen(hasSendMessage, 1 + DelimitedSize(Codec.ByteSize(SEND_MESSAGE_RQ, sendMessage)))
            + UnknownsSize(unknown)
  {
    hide Typed, Codec.ByteSize, SlotSize, Serialize, WriteSlot;
    TwoFields(REQUEST, RequestMsg(hasLogin, login, hasSendMessage, sendMessage, unknown));
    SubmessageField(REQUEST.fields[0], hasLogin, login);
    SubmessageField(REQUEST.fields[1], hasSendMessage, sendMessage);
  }

  lemma RequestInitialized(hasLogin: bool, login: Msg, hasSendMessage: bool, sendMessage: Msg, unknown: seq<Unknown>)
    requires Typed(LOGIN_RQ, login) && Typed(SEND_MESSAGE_RQ, sendMessage)
    ensures IsInitialized(REQUEST, RequestMsg(hasLogin, login, hasSendMessage, sendMessage, unknown))
       <==> (hasLogin ==> IsInitialized(LOGIN_RQ, login)) && (hasSendMessage ==> IsInitialized(SEND_MESSAGE_RQ, sendMessage))
  {
    var m := RequestMsg(hasLogin, login, hasSendMessage, sendMessage, unknown);
    TwoFields(REQUEST, m);
    assert SlotInitialized(REQUEST.fields[0], m.slots[0]) <==> (hasLogin ==> IsInitialized(LOGIN_RQ, login));
    assert SlotInitialized(REQUEST.fields[1], m.slots[1]) <==> (hasSendMessage ==> IsInitialized(SEND_MESSAGE_RQ, sendMessage));
  }

  lemma WritableField(sch: Schema, v: Msg, i: nat, m: Msg)
    requires Writable(sch, v) && i < |sch.fields| && v.slots[i] == [Sub(m)] && sch.fields[i].kind.MessageKind?
    ensures Writable(sch.fields[i].kind.schema, m)
  {
    assert ValuesWritable(sch.fields[i].kind, v.slots[i]);
    assert ValueWritable(sch.fields[i].kind, v.slots[i][0]);
  }

  class Request {
    var hasBits: bv32
    var login: LoginRq?
    var sendMessage: SendMessageRq?
    var unknown: seq<Unknown>
    var cachedSize: nat

    predicate HasLogin() reads this { hasBits & 1 != 0 }
    predicate HasSendMessage() reads this { hasBits & 2 != 0 }

    /** What the getter login() shows: the default instance when nothing was allocated. */
    ghost function Login(): (m: Msg)
      requires login != null ==> login.Valid()
      reads this, login
      ensures Typed(LOGIN_RQ, m)
    {
      if login == null then Empty(LOGIN_RQ) else login.Value()
    }

    ghost function SendMessage(): (m: Msg)
      requires sendMessage != null ==> sendMessage.Valid()
      reads this, sendMessage
      ensures Typed(SEND_MESSAGE_RQ, m)
    {
      if sendMessage == null then Empty(SEND_MESSAGE_RQ) else sendMessage.Value()
    }

    /** A present submessage is allocated; an absent one is null or empty. */
    ghost predicate Valid()
      reads this, login, sendMessage
    {
      && (login != null ==> login.Valid())
      && (sendMessage != null ==> sendMessage.Valid())
      && (HasLogin() ==> login != null)
      && (HasSendMessage() ==> sendMessage != null)
      && (!HasLogin() ==> Login() == Empty(LOGIN_RQ))
      && (!HasSendMessage() ==> SendMessage() == Empty(SEND_MESSAGE_RQ))
    }

    ghost function Value(): (m: Msg)
      requires Valid()
      reads this, login, sendMessage
      ensures Typed(REQUEST, m)
    {
      RequestMsg(HasLogin(), Login(), HasSendMessage(), SendMessage(), unknown)
    }

    /** The object as a state of the storage of its schema. */
    ghost function Stored(): Storage.Store
      reads this, login, sendMessage
    {
      Storage.Store([Storage.Child(HasLogin(), if login == null then None else Some(login.Stored())),
                     Storage.Child(HasSendMessage(), if sendMessage == null then None else Some(sendMessage.Stored()))],
                    unknown, cachedSize)
    }

    lemma StoredLogin()
      ensures Storage.CellValid(REQUEST.fields[0], Stored().cells[0])
         <==> (login != null ==> login.Valid()) && (HasLogin() ==> login != null) && (!HasLogin() ==> Login() == Empty(LOGIN_RQ))
      ensures Storage.CellValid(REQUEST.fields[0], Stored().cells[0])
          ==> Storage.ViewCell(REQUEST.fields[0], Stored().cells[0]) == Given(HasLogin(), Sub(Login()))
    {
      RequestIsWellFormed();
      if login != null {
        login.StoredShowsValue();
        if login.Valid() { Storage.BlankShowsEmpty(LOGIN_RQ, login.Stored()); }
      }
    }

    lemma StoredSendMessage()
      ensures Storage.CellValid(REQUEST.fields[1], Stored().cells[1])
         <==> (sendMessage != null ==> sendMessage.Valid()) && (HasSendMessage() ==> sendMessage != null)
              && (!HasSendMessage() ==> SendMessage() == Empty(SEND_MESSAGE_RQ))
      ensures Storage.CellValid(REQUEST.fields[1], Stored().cells[1])
          ==> Storage.ViewCell(REQUEST.fields[1], Stored().cells[1]) == Given(HasSendMessage(), Sub(SendMessage()))
    {
      RequestIsWellFormed();
      if sendMessage != null {
        sendMessage.StoredShowsValue();
        if sendMessage.Valid() { Storage.BlankShowsEmpty(SEND_MESSAGE_RQ, sendMessage.Stored()); }
      }
    }

    lemma StoredShowsValue()
      ensures Valid() <==> Storage.Valid(REQUEST, Stored())
      ensures Valid() ==> Storage.View(REQUEST, Stored()) == Value()
    {
      hide Storage.CellValid, Storage.ViewCell, Typed;
      StoredLogin();
      StoredSendMessage();
      if Valid() {
        assert Storage.View(REQUEST, Stored()).slots == Value().slots;
      }
    }

    constructor ()
      ensures Valid() && Value() == Empty(REQUEST) && login == null && sendMessage == null
    {
      hasBits, login, sendMessage, unknown, cachedSize := 0, null, null, [], 0;
    }

    method MutableLogin() returns (m: LoginRq)
      requires Valid()
      modifies this`hasBits, this`login
      ensures Valid() && m == login && (m == old(login) || fresh(m))
      ensures HasLogin() && HasSendMessage() == old(HasSendMessage())
      ensures m.Value() == old(Login()) && SendMessage() == old(SendMessage())
    {
      hasBits := hasBits | 1;
      if login == null { login := new LoginRq(); }
      m := login;
    }

    method MutableSendMessage() returns (m: SendMessageRq)
      requires Valid()
      modifies this`hasBits, this`sendMessage
      ensures Valid() && m == sendMessage && (m == old(sendMessage) || fresh(m))
      ensures HasLogin() == old(HasLogin()) && HasSendMessage()
      ensures m.Value() == old(SendMessage()) && Login() == old(Login())
    {
      hasBits := hasBits | 2;
      if sendMessage == null { sendMessage := new SendMessageRq(); }
      m := sendMessage;
    }

    /** The submessage stays allocated, empty. */
    method ClearLogin()
      requires Valid()
      modifies this`hasBits, login
      ensures Valid() && Value() == SetSlot(REQUEST, old(Value()), 0, [])
    {
      hide Typed, Empty, LoginRq.Valid, LoginRq.Value;
      if login != null { login.Clear(); }
      assert hasBits == old(hasBits);
      hasBits := hasBits & !1;
    }

    method ReleaseLogin() returns (m: LoginRq?)
      requires Valid()
      modifies this`hasBits, this`login
      ensures Valid() && Value() == SetSlot(REQUEST, old(Value()), 0, [])
      ensures login == null && m == old(login) && (m != null ==> m.Valid() && m.Value() == old(Login()))
    {
      hide Typed;
      hasBits := hasBits & !1;
      m := login;
      login := null;
    }

    /** The old object is deleted first, so it must not be the one that is passed. */
    method SetAllocatedLogin(m: LoginRq?)
      requires Valid() && (m != null ==> m.Valid() && m != login)
      modifies this`hasBits, this`login
      ensures Valid() && login == m
      ensures Value() == SetSlot(REQUEST, old(Value()), 0, if m == null then [] else [Sub(m.Value())])
    {
      hide Typed;
      login := m;
      if m != null {
        hasBits := hasBits | 1;
      } else {
        hasBits := hasBits & !1;
      }
    }

    method Clear()
      requires Valid()
      modifies this, login, sendMessage
      ensures Valid() && Value() == Empty(REQUEST) && login == old(login) && sendMessage == old(sendMessage)
    {
      hide Typed;
      if hasBits & 3 != 0 {
        if HasLogin() {
          if login != null { login.Clear(); }
        }
        if HasSendMessage() {
          if sendMessage != null { sendMessage.Clear(); }
        }
      }
      hasBits := 0;
      if unknown != [] { unknown := []; }
    }

    // ------------------------------------------------------------------ merge

    /** Two messages own different submessages. */
    predicate Apart(from: Request)
      reads this, from
    {
      from != this && (from.login != null ==> from.login != login)
      && (from.sendMessage != null ==> from.sendMessage != sendMessage)
    }

    method MergeLogin(from: Request)
      requires Valid() && from.Valid() && Apart(from)
      modifies this`hasBits, this`login, login
      ensures Valid() && Apart(from) && (login == old(login) || fresh(login))
      ensures HasLogin() == (old(HasLogin()) || from.HasLogin()) && HasSendMessage() == old(HasSendMessage())
      ensures Login() == if from.HasLogin() then Merge(LOGIN_RQ, old(Login()), from.Login()) else old(Login())
      ensures SendMessage() == old(SendMessage())
    {
      hide Typed, Merge, Empty;
      if from.HasLogin() {
        ghost var v := SendMessage();
        var m := MutableLogin();
        m.MergeFrom(from.login);
        assert SendMessage() == v;
      }
    }

    method MergeSendMessage(from: Request)
      requires Valid() && from.Valid() && Apart(from)
      modifies this`hasBits, this`sendMessage, sendMessage
      ensures Valid() && Apart(from) && (sendMessage == old(sendMessage) || fresh(sendMessage))
      ensures HasLogin() == old(HasLogin()) && HasSendMessage() == (old(HasSendMessage()) || from.HasSendMessage())
      ensures SendMessage()
           == if from.HasSendMessage() then Merge(SEND_MESSAGE_RQ, old(SendMessage()), from.SendMessage()) else old(SendMessage())
      ensures Login() == old(Login())
    {
      hide Typed, Merge, Empty;
      if from.HasSendMessage() {
        ghost var v := Login();
        var m := MutableSendMessage();
        m.MergeFrom(from.sendMessage);
        assert Login() == v;
      }
    }

    method MergeSubmessages(from: Request)
      requires Valid() && from.Valid() && Apart(from)
      modifies this, login, sendMessage
      ensures Valid() && Apart(from) && unknown == old(unknown) && from.unknown == old(from.unknown)
      ensures HasLogin() == (old(HasLogin()) || from.HasLogin())
      ensures HasSendMessage() == (old(HasSendMessage()) || from.HasSendMessage())
      ensures Login() == if from.HasLogin() then Merge(LOGIN_RQ, old(Login()), from.Login()) else old(Login())
      ensures SendMessage()
           == if from.HasSendMessage() then Merge(SEND_MESSAGE_RQ, old(SendMessage()), from.SendMessage()) else old(SendMessage())
    {
      hide Typed, Merge, Empty;
      if from.hasBits & 0xff != 0 {
        MergeLogin(from);
        MergeSendMessage(from);
      }
    }

    method MergeFrom(from: Request)
      requires Valid() && from.Valid() && Apart(from)
      modifies this, login, sendMessage
      ensures Valid() && Apart(from) && Value() == Merge(REQUEST, old(Value()), from.Value())
    {
      hide Typed, Merge, Empty;
      ghost var a, l, m := Value(), Login(), SendMessage();
      MergeSubmessages(from);
      ghost var merged := Merge(REQUEST, a, from.Value());
      MergedSlots(a, from.Value());
      assert Value().slots[0] == merged.slots[0];
      assert Value().slots[1] == merged.slots[1];
      if from.unknown != [] { unknown := unknown + from.unknown; }
    }

    method CopyFrom(from: Request)
      requires Valid() && from.Valid() && (from == this || Apart(from))
      modifies this, login, sendMessage
      ensures Valid() && Value() == old(from.Value())
    {
      hide Typed, Merge, Empty;
      if from == this { return; }
      ghost var v := from.Value();
      ClearFor(from);
      MergeFrom(from);
      MergeEmptyLeft(REQUEST, v);
    }

    /** Clear does not reach a message that owns other submessages. */
    method ClearFor(from: Request)
      requires Valid() && from.Valid() && Apart(from)
      modifies this, login, sendMessage
      ensures Valid() && Value() == Empty(REQUEST) && Apart(from) && login == old(login) && sendMessage == old(sendMessage)
      ensures from.Valid() && from.Value() == old(from.Value())
    {
      hide Typed, Empty;
      Clear();
    }

    // ---------------------------------------------------- size and serialization

    method IsInitialized() returns (b: bool)
      requires Valid()
      ensures b == Schemas.IsInitialized(REQUEST, Value())
    {
      hide Typed, Schemas.IsInitialized;
      RequestInitialized(HasLogin(), Login(), HasSendMessage(), SendMessage(), unknown);
      if HasLogin() {
        b := login.IsInitialized();
        if !b { return; }
      }
      if HasSendMessage() {
        b := sendMessage.IsInitialized();
        if !b { return; }
      }
      return true;
    }

    /** Every length prefix that serialization will take from a cache is exact. */
    ghost predicate SizesCached()
      requires Valid()
      reads this, login, sendMessage
    {
      && cachedSize == Codec.ByteSize(REQUEST, Value())
      && (HasLogin() ==> login.cachedSize == Codec.ByteSize(LOGIN_RQ, Login()))
      && (HasSendMessage() ==> sendMessage.cachedSize == Codec.ByteSize(SEND_MESSAGE_RQ, SendMessage()))
    }

    ghost function LoginEncoded(): Bytes
      requires Valid()
      reads this, login, sendMessage
    {
      When(HasLogin(), WriteVarint(10) + WriteString(Serialize(LOGIN_RQ, Login())))
    }

    ghost function SendMessageEncoded(): Bytes
      requires Valid()
      reads this, login, sendMessage
    {
      When(HasSendMessage(), WriteVarint(18) + WriteString(Serialize(SEND_MESSAGE_RQ, SendMessage())))
    }

    /** The encoding of the value, read off the fields. */
    lemma Encoding()
      requires Valid()
      ensures Serialize(REQUEST, Value()) == LoginEncoded() + SendMessageEncoded() + WriteUnknowns(unknown)
      ensures Codec.ByteSize(REQUEST, Value())
           == CountWhen(HasLogin(), 1 + DelimitedSize(Codec.ByteSize(LOGIN_RQ, Login())))
              + CountWhen(HasSendMessage(), 1 + DelimitedSize(Codec.ByteSize(SEND_MESSAGE_RQ, SendMessage())))
              + UnknownsSize(unknown)
    {
      hide Typed, Codec.ByteSize, Serialize;
      RequestEncoding(HasLogin(), Login(), HasSendMessage(), SendMessage(), unknown);
    }

    /** What serialization relies on: each length that it takes from a cache is the length of the
        bytes that follow it. */
    ghost predicate LengthsCached()
      requires Valid()
      reads this, login, sendMessage
    {
      && cachedSize == |Serialize(REQUEST, Value())|
      && (HasLogin() ==> login.cachedSize == |Serialize(LOGIN_RQ, Login())|)
      && (HasSendMessage() ==> sendMessage.cachedSize == |Serialize(SEND_MESSAGE_RQ, SendMessage())|)
    }

    lemma CachedSizesAreLengths()
      requires Valid() && SizesCached() && Writable(REQUEST, Value())
      ensures LengthsCached()
    {
      hide Typed, Codec.ByteSize, Serialize;
      RequestIsWellFormed();
      RoundTrip.ByteSizeIsLength(REQUEST, Value());
      if HasLogin() {
        WritableField(REQUEST, Value(), 0, Login());
        RoundTrip.ByteSizeIsLength(LOGIN_RQ, Login());
      }
      if HasSendMessage() {
        WritableField(REQUEST, Value(), 1, SendMessage());
        RoundTrip.ByteSizeIsLength(SEND_MESSAGE_RQ, SendMessage());
      }
    }

    method ByteSize() returns (size: nat)
      requires Valid()
      modifies this`cachedSize, login, sendMessage
      ensures Valid() && Value() == old(Value()) && SizesCached() && size == cachedSize
    {
      hide Typed, Codec.ByteSize, Serialize, Empty, RequestMsg, DelimitedSize;
      Encoding();
      size := 0;
      if hasBits & 3 != 0 {
        if HasLogin() {
          var n := login.ByteSize();
          size := size + 1 + DelimitedSize(n);
        }
        if HasSendMessage() {
          var n := sendMessage.ByteSize();
          size := size + 1 + DelimitedSize(n);
        }
      }
      if unknown != [] { size := size + UnknownsSize(unknown); }
      cachedSize := size;
    }

    method WriteLoginToArray(target: array<Byte>, at: nat) returns (end: nat)
      requires Valid() && login != null && login.cachedSize == |Serialize(LOGIN_RQ, Login())|
      requires at + |WriteVarint(10) + WriteString(Serialize(LOGIN_RQ, Login()))| <= target.Length
      modifies target
      ensures Wrote(old(target[..]), target[..], at, WriteVarint(10) + WriteString(Serialize(LOGIN_RQ, Login())), end)
    {
      hide Typed, Serialize, WriteVarint;
      ghost var x, y, z := WriteVarint(10), WriteVarint(login.cachedSize), Serialize(LOGIN_RQ, Login());
      ghost var s0 := target[..];
      var mid1 := WriteVarintToArray(10, target, at);
      ghost var s1 := target[..];
      var mid2 := WriteVarintToArray(login.cachedSize, target, mid1);
      ghost var s2 := target[..];
      end := login.SerializeToArray(target, mid2);
      WroteThen(s1, s2, target[..], mid1, y, mid2, z, end);
      WroteThen(s0, s1, target[..], at, x, mid1, y + z, end);
    }

    method WriteSendMessageToArray(target: array<Byte>, at: nat) returns (end: nat)
      requires Valid() && sendMessage != null && sendMessage.cachedSize == |Serialize(SEND_MESSAGE_RQ, SendMessage())|
      requires at + |WriteVarint(18) + WriteString(Serialize(SEND_MESSAGE_RQ, SendMessage()))| <= target.Length
      modifies target
      ensures Wrote(old(target[..]), target[..], at,
                    WriteVarint(18) + WriteString(Serialize(SEND_MESSAGE_RQ, SendMessage())), end)
    {
      hide Typed, Serialize, WriteVarint;
      ghost var x, y, z := WriteVarint(18), WriteVarint(sendMessage.cachedSize), Serialize(SEND_MESSAGE_RQ, SendMessage());
      ghost var s0 := target[..];
      var mid1 := WriteVarintToArray(18, target, at);
      ghost var s1 := target[..];
      var mid2 := WriteVarintToArray(sendMessage.cachedSize, target, mid1);
      ghost var s2 := target[..];
      end := sendMessage.SerializeToArray(target, mid2);
      WroteThen(s1, s2, target[..], mid1, y, mid2, z, end);
      WroteThen(s0, s1, target[..], at, x, mid1, y + z, end);
    }

    method SubmessagesToArray(target: array<Byte>, at: nat) returns (end: nat)
      requires Valid() && LengthsCached() && at + |LoginEncoded() + SendMessageEncoded()| <= target.Length
      modifies target
      ensures Wrote(old(target[..]), target[..], at, LoginEncoded() + SendMessageEncoded(), end)
    {
      hide Typed, Serialize;
      ghost var x, y := LoginEncoded(), SendMessageEncoded();
      ghost var s0 := target[..];
      end := at;
      if HasLogin() { end := WriteLoginToArray(target, end); }
      ghost var mid, s1 := end, target[..];
      assert Wrote(s0, s1, at, x, mid);
      if HasSendMessage() { end := WriteSendMessageToArray(target, end); }
      WroteThen(s0, s1, target[..], at, x, mid, y, end);
    }

    method SerializeToArray(target: array<Byte>, at: nat) returns (end: nat)
      requires Valid() && LengthsCached() && at + |Serialize(REQUEST, Value())| <= target.Length
      modifies target
      ensures Wrote(old(target[..]), target[..], at, Serialize(REQUEST, Value()), end)
    {
      hide Typed, Serialize;
      ghost var x, u := LoginEncoded() + SendMessageEncoded(), WriteUnknowns(unknown);
      Encoding();
      ghost var s0 := target[..];
      end := SubmessagesToArray(target, at);
      ghost var mid, s1 := end, target[..];
      if unknown != [] { end := WriteUnknownsToArray(unknown, target, end); }
      WroteThen(s0, s1, target[..], at, x, mid, u, end);
    }

    method WriteLoginToStream(output: CodedOutputStream)
      requires Valid() && login != null && login.cachedSize == |Serialize(LOGIN_RQ, Login())|
      modifies output
      ensures output.bytes == old(output.bytes) + (WriteVarint(10) + WriteString(Serialize(LOGIN_RQ, Login())))
    {
      hide Typed, Serialize, WriteVarint;
      ghost var x, y, z := WriteVarint(10), WriteVarint(login.cachedSize), Serialize(LOGIN_RQ, Login());
      ghost var s := output.bytes;
      output.WriteVarint(10);
      output.WriteVarint(login.cachedSize);
      var target := output.GetDirectBufferForNBytesAndAdvance(login.cachedSize);
      if target != null {
        var end := login.SerializeToArray(target, 0);
        assert target[..] == target[0..end] == z;
        output.Filled(target);
      } else {
        login.SerializeToStream(output);
      }
      assert s + x + y + z == s + (x + (y + z));
    }

    method WriteSendMessageToStream(output: CodedOutputStream)
      requires Valid() && sendMessage != null && sendMessage.cachedSize == |Serialize(SEND_MESSAGE_RQ, SendMessage())|
      modifies output
      ensures output.bytes == old(output.bytes) + (WriteVarint(18) + WriteString(Serialize(SEND_MESSAGE_RQ, SendMessage())))
    {
      hide Typed, Serialize, WriteVarint;
      ghost var x, y, z := WriteVarint(18), WriteVarint(sendMessage.cachedSize), Serialize(SEND_MESSAGE_RQ, SendMessage());
      ghost var s := output.bytes;
      output.WriteVarint(18);
      output.WriteVarint(sendMessage.cachedSize);
      var target := output.GetDirectBufferForNBytesAndAdvance(sendMessage.cachedSize);
      if target != null {
        var end := sendMessage.SerializeToArray(target, 0);
        assert target[..] == target[0..end] == z;
        output.Filled(target);
      } else {
        sendMessage.SerializeToStream(output);
      }
      assert s + x + y + z == s + (x + (y + z));
    }

    method SerializeToStream(output: CodedOutputStream)
      requires Valid() && LengthsCached()
      modifies output
      ensures output.bytes == old(output.bytes) + Serialize(REQUEST, Value())
    {
      hide Typed, Serialize;
      ghost var x, y := LoginEncoded(), SendMessageEncoded();
      ghost var s := output.bytes;
      Encoding();
      if HasLogin() { WriteLoginToStream(output); }
      assert output.bytes == s + x;
      if HasSendMessage() { WriteSendMessageToStream(output); }
      assert output.bytes == s + x + y;
      if unknown != [] { output.WriteUnknowns(unknown); }
      assert output.bytes == s + x + y + WriteUnknowns(unknown);
      ConcatAssociative(s, x, y);
      ConcatAssociative(s, x + y, WriteUnknowns(unknown));
    }

    /** SerializePartialToArray: the size pass, and then one pass that fills the caller's buffer
        exactly up to the computed size. */
    method SerializePartialToArray(data: array<Byte>, size: nat) returns (ok: bool)
      requires Valid() && Writable(REQUEST, Value()) && Codec.ByteSize(REQUEST, Value()) <= INT_MAX && size <= data.Length
      modifies this`cachedSize, login, sendMessage, data
      ensures Valid() && Value() == old(Value())
      ensures ok == (|Serialize(REQUEST, Value())| <= size)
      ensures data[..] == if ok then Serialize(REQUEST, Value()) + old(data[|Serialize(REQUEST, Value())|..]) else old(data[..])
    {
      hide Typed, Serialize;
      var byteSize := ByteSize();
      CachedSizesAreLengths();
      if size < byteSize { return false; }
      var end := SerializeToArray(data, 0);
      assert end == byteSize;
      ok := true;
      assert data[end..] == old(data[end..]);
    }
  }
}
