/** The message types of package pbmsg, as the generated parsers and serializers lay them out. */
module Pbmsg {
  import opened Octets
  import opened Wire
  import opened Schemas
  import opened Codec
  import Concatenation

  const CLIENT_MSG := Schema([Field(1, EnumKind, Required), Field(2, BytesKind, Required)])
  const LOGIN_RQ := Schema([Field(1, UInt32Kind, Required), Field(2, BytesKind, Required), Field(3, BytesKind, Optional)])
  const RESPOND_MSG := Schema([Field(1, Int32Kind, Required), Field(2, BytesKind, Required)])
  const LOGIN_RS := Schema([Field(1, Fixed32Kind, Required)])
  const FRIEND := Schema([Field(1, BytesKind, Required), Field(2, BoolKind, Optional)])
  const GET_FRIENDS_RS := Schema([Field(1, MessageKind(FRIEND), Repeated)])
  const SEND_MESSAGE_RQ := Schema([Field(1, BytesKind, Optional), Field(2, BytesKind, Required)])
  const HEARTBEAT_NT := Schema([Field(1, UInt32Kind, Required)])
  const MESSAGE_NT := Schema([Field(1, BytesKind, Required), Field(2, BytesKind, Required), Field(3, BytesKind, Required)])
  const REQUEST := Schema([Field(1, MessageKind(LOGIN_RQ), Optional), Field(2, MessageKind(SEND_MESSAGE_RQ), Optional)])
  const RESPOND := Schema([Field(1, BoolKind, Required), Field(2, BoolKind, Required), Field(3, BytesKind, Optional),
                           Field(4, MessageKind(LOGIN_RS), Optional), Field(5, MessageKind(GET_FRIENDS_RS), Optional)])
  const NOTIFY := Schema([Field(1, MessageKind(HEARTBEAT_NT), Optional), Field(2, MessageKind(MESSAGE_NT), Optional)])
  const MESSAGE := Schema([Field(1, EnumKind, Required), Field(2, Fixed32Kind, Required), Field(3, Fixed32Kind, Optional),
                           Field(4, MessageKind(REQUEST), Optional), Field(5, MessageKind(RESPOND), Optional),
                           Field(6, MessageKind(NOTIFY), Optional)])

  lemma RequestIsWellFormed()
    ensures WellFormed(LOGIN_RQ) && WellFormed(SEND_MESSAGE_RQ) && WellFormed(REQUEST)
  {
    assert WellFormed(LOGIN_RQ) && WellFormed(SEND_MESSAGE_RQ);
  }

  lemma RespondIsWellFormed()
    ensures WellFormed(LOGIN_RS) && WellFormed(FRIEND) && WellFormed(GET_FRIENDS_RS) && WellFormed(RESPOND)
  {
    assert WellFormed(LOGIN_RS) && WellFormed(FRIEND);
    assert WellFormed(GET_FRIENDS_RS);
  }

  lemma NotifyIsWellFormed()
    ensures WellFormed(HEARTBEAT_NT) && WellFormed(MESSAGE_NT) && WellFormed(NOTIFY)
  {
    assert WellFormed(HEARTBEAT_NT) && WellFormed(MESSAGE_NT);
  }

  /** Every result about well-formed schemas applies to the whole message tree, and to the two
      message types outside it. */
  lemma MessageIsWellFormed()
    ensures WellFormed(MESSAGE) && WellFormed(CLIENT_MSG) && WellFormed(RESPOND_MSG)
  {
    RequestIsWellFormed();
    RespondIsWellFormed();
    NotifyIsWellFormed();
  }

  /** The tags of a schema in field order. */
  function Tags(sch: Schema): seq<nat> {
    seq(|sch.fields|, i requires 0 <= i < |sch.fields| => FieldTag(sch.fields[i]))
  }

  /** The tag constants of the generated switch statements. */
  lemma GeneratedTags()
    ensures Tags(MESSAGE) == [8, 21, 29, 34, 42, 50]
    ensures Tags(REQUEST) == [10, 18] && Tags(RESPOND) == [8, 16, 26, 34, 42] && Tags(NOTIFY) == [10, 18]
    ensures Tags(LOGIN_RQ) == [8, 18, 26] && Tags(SEND_MESSAGE_RQ) == [10, 18]
    ensures Tags(LOGIN_RS) == [13] && Tags(GET_FRIENDS_RS) == [10] && Tags(FRIEND) == [10, 16]
    ensures Tags(HEARTBEAT_NT) == [8] && Tags(MESSAGE_NT) == [10, 18, 26]
    ensures Tags(CLIENT_MSG) == [8, 18] && Tags(RESPOND_MSG) == [8, 18]
  {
  }

  /** A request field whose length prefix promises five bytes that are not there. */
  const CUT_REQUEST: Bytes := [34, 5]

  lemma CutRequestFindsRequest()
    ensures FindTag(MESSAGE, 34) == 3
  {
    GeneratedTags();
    assert Tags(MESSAGE)[0] != 34 && Tags(MESSAGE)[1] != 34 && Tags(MESSAGE)[2] != 34 && Tags(MESSAGE)[3] == 34;
    assert FindTag(MESSAGE, 34, 3) == 3;
    assert FindTag(MESSAGE, 34, 2) == 3;
    assert FindTag(MESSAGE, 34, 1) == 3;
  }

  /** The concatenation law fails for it: both parts parse, but what is appended is swallowed by the
      request instead of being merged into the message. */
  lemma CutRequestBreaksConcatenation()
    ensures WellFormed(MESSAGE)
    ensures Parse(MESSAGE, Empty(MESSAGE), CUT_REQUEST).Some?
    ensures !Concatenation.Closed(MESSAGE, CUT_REQUEST)
    ensures !Concatenation.MergesWithEverySuffix(MESSAGE, CUT_REQUEST)
  {
    MessageIsWellFormed();
    var e := Empty(MESSAGE);
    SmallResidue(34);
    SmallResidue(5);
    assert CUT_REQUEST[1..] == [5];
    assert ReadTag(CUT_REQUEST) == Got(34, [5]);
    CutRequestFindsRequest();
    assert ReadBody([5]) == Got([], []);
    var sub := Parse(REQUEST, Mutable(MESSAGE.fields[3], e.slots[3]), []);
    assert sub.Some?;
    assert ReadRecord(MESSAGE, e, 34, [5]).Got?;
    Concatenation.ConcatenationMergesExactlyWhenClosed(MESSAGE, CUT_REQUEST);
  }
}
