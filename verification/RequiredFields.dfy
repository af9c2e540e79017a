/** Which fields must be present: by paths into a message of any class, and written out for every class. */
module RequiredFields {
  import opened Octets
  import opened Wire
  import opened Schemas
  import opened Codec
  import opened Pbmsg
  import opened ClassSerializers

  /** The message that a path of field and element indices leads to, with its class. */
  function Reach(sch: Schema, m: Msg, path: seq<(nat, nat)>): (r: Option<(Schema, Msg)>)
    requires Typed(sch, m)
    ensures r.Some? ==> Typed(r.value.0, r.value.1)
    decreases |path|
  {
    if path == [] then Some((sch, m))
    else
      var (i, j) := path[0];
      if i < |sch.fields| && sch.fields[i].kind.MessageKind? && j < |m.slots[i]| then
        assert SlotTyped(sch.fields[i], m.slots[i]) && ValueTyped(sch.fields[i].kind, m.slots[i][j]);
        Reach(sch.fields[i].kind.schema, m.slots[i][j].m, path[1..])
      else None
  }

  /** No required field of the message itself is missing. */
  predicate HasRequired(sch: Schema, m: Msg)
    requires Typed(sch, m)
  {
    forall i :: 0 <= i < |sch.fields| && sch.fields[i].arity == Required ==> m.slots[i] != []
  }

  ghost predicate AllReachedHaveRequired(sch: Schema, m: Msg)
    requires Typed(sch, m)
  {
    forall path :: Reach(sch, m, path).Some? ==> HasRequired(Reach(sch, m, path).value.0, Reach(sch, m, path).value.1)
  }

  lemma {:induction false} InitializedReaches(sch: Schema, m: Msg, path: seq<(nat, nat)>)
    requires Typed(sch, m) && IsInitialized(sch, m) && Reach(sch, m, path).Some?
    ensures HasRequired(Reach(sch, m, path).value.0, Reach(sch, m, path).value.1)
    decreases |path|
  {
    if path == [] {
      forall i | 0 <= i < |sch.fields| && sch.fields[i].arity == Required ensures m.slots[i] != [] {
        assert SlotInitialized(sch.fields[i], m.slots[i]);
      }
    } else {
      var (i, j) := path[0];
      assert SlotInitialized(sch.fields[i], m.slots[i]) && ValueTyped(sch.fields[i].kind, m.slots[i][j]);
      InitializedReaches(sch.fields[i].kind.schema, m.slots[i][j].m, path[1..]);
    }
  }

  lemma {:induction false} ReachedIsInitialized(sch: Schema, m: Msg)
    requires Typed(sch, m) && AllReachedHaveRequired(sch, m)
    ensures IsInitialized(sch, m)
    decreases sch
  {
    assert Reach(sch, m, []) == Some((sch, m));
    forall i | 0 <= i < |sch.fields| ensures SlotInitialized(sch.fields[i], m.slots[i]) {
      if sch.fields[i].kind.MessageKind? {
        forall j | 0 <= j < |m.slots[i]|
          ensures ValueTyped(sch.fields[i].kind, m.slots[i][j]) && IsInitialized(sch.fields[i].kind.schema, m.slots[i][j].m)
        {
          ElementReaches(sch, m, i, j);
          ReachedIsInitialized(sch.fields[i].kind.schema, m.slots[i][j].m);
        }
      }
    }
  }

  lemma ElementReaches(sch: Schema, m: Msg, i: nat, j: nat)
    requires Typed(sch, m) && AllReachedHaveRequired(sch, m)
    requires i < |sch.fields| && sch.fields[i].kind.MessageKind? && j < |m.slots[i]|
    ensures ValueTyped(sch.fields[i].kind, m.slots[i][j])
    ensures AllReachedHaveRequired(sch.fields[i].kind.schema, m.slots[i][j].m)
  {
    assert SlotTyped(sch.fields[i], m.slots[i]);
    var sub, x := sch.fields[i].kind.schema, m.slots[i][j].m;
    forall path | Reach(sub, x, path).Some? ensures HasRequired(Reach(sub, x, path).value.0, Reach(sub, x, path).value.1) {
      assert ([(i, j)] + path)[1..] == path;
      assert Reach(sch, m, [(i, j)] + path) == Reach(sub, x, path);
    }
  }

  /** A message is initialized if and only if no message in it, at whatever depth and in whatever element, lacks
      one of its required fields. */
  lemma InitializedByPaths(sch: Schema, m: Msg)
    requires Typed(sch, m)
    ensures IsInitialized(sch, m) <==> AllReachedHaveRequired(sch, m)
  {
    if IsInitialized(sch, m) {
      forall path | Reach(sch, m, path).Some?
        ensures HasRequired(Reach(sch, m, path).value.0, Reach(sch, m, path).value.1)
      {
        InitializedReaches(sch, m, path);
      }
    }
    if AllReachedHaveRequired(sch, m) { ReachedIsInitialized(sch, m); }
  }

  predicate AllInitialized(sub: Schema, vs: seq<Value>)
    requires AllOf(sub, vs)
  {
    forall j :: 0 <= j < |vs| ==> IsInitialized(sub, vs[j].m)
  }

  lemma SubsAt(sch: Schema, sub: Schema, m: Msg, i: nat)
    requires Typed(sch, m) && i < |sch.fields| && sch.fields[i].kind == MessageKind(sub)
    ensures AllOf(sub, m.slots[i])
    ensures SlotTyped(sch.fields[i], m.slots[i])
    ensures SlotInitialized(sch.fields[i], m.slots[i])
       <==> (sch.fields[i].arity == Required ==> m.slots[i] != []) && AllInitialized(sub, m.slots[i])
  {
    assert SlotTyped(sch.fields[i], m.slots[i]);
    forall j | 0 <= j < |m.slots[i]| ensures m.slots[i][j].Sub? && Typed(sub, m.slots[i][j].m) {
      assert ValueTyped(sch.fields[i].kind, m.slots[i][j]);
    }
  }

  lemma InitializedSlots(sch: Schema, m: Msg)
    requires Typed(sch, m)
    ensures forall i :: 0 <= i < |sch.fields| ==> SlotTyped(sch.fields[i], m.slots[i])
    ensures IsInitialized(sch, m) <==> forall i :: 0 <= i < |sch.fields| ==> SlotInitialized(sch.fields[i], m.slots[i])
    ensures forall i :: 0 <= i < |sch.fields| && !sch.fields[i].kind.MessageKind?
              ==> (SlotInitialized(sch.fields[i], m.slots[i]) <==> (sch.fields[i].arity == Required ==> m.slots[i] != []))
  {
  }

  lemma ClientMsgRequires(m: Msg)
    requires Typed(CLIENT_MSG, m)
    ensures |m.slots| == 2
    ensures IsInitialized(CLIENT_MSG, m)
       <==> m.slots[0] != [] && m.slots[1] != []
  {
    InitializedSlots(CLIENT_MSG, m);
  }

  lemma RespondMsgRequires(m: Msg)
    requires Typed(RESPOND_MSG, m)
    ensures |m.slots| == 2
    ensures IsInitialized(RESPOND_MSG, m)
       <==> m.slots[0] != [] && m.slots[1] != []
  {
    InitializedSlots(RESPOND_MSG, m);
  }

  lemma LoginRqRequires(m: Msg)
    requires Typed(LOGIN_RQ, m)
    ensures |m.slots| == 3
    ensures IsInitialized(LOGIN_RQ, m)
       <==> m.slots[0] != [] && m.slots[1] != []
  {
    InitializedSlots(LOGIN_RQ, m);
  }

  lemma SendMessageRqRequires(m: Msg)
    requires Typed(SEND_MESSAGE_RQ, m)
    ensures |m.slots| == 2
    ensures IsInitialized(SEND_MESSAGE_RQ, m)
       <==> m.slots[1] != []
  {
    InitializedSlots(SEND_MESSAGE_RQ, m);
  }

  lemma RequestRequires(m: Msg)
    requires Typed(REQUEST, m)
    ensures |m.slots| == 2 && AllOf(LOGIN_RQ, m.slots[0]) && AllOf(SEND_MESSAGE_RQ, m.slots[1])
    ensures IsInitialized(REQUEST, m)
       <==> AllInitialized(LOGIN_RQ, m.slots[0]) && AllInitialized(SEND_MESSAGE_RQ, m.slots[1])
  {
    SubsAt(REQUEST, LOGIN_RQ, m, 0);
    SubsAt(REQUEST, SEND_MESSAGE_RQ, m, 1);
    InitializedSlots(REQUEST, m);
  }

  lemma LoginRsRequires(m: Msg)
    requires Typed(LOGIN_RS, m)
    ensures |m.slots| == 1
    ensures IsInitialized(LOGIN_RS, m)
       <==> m.slots[0] != []
  {
    InitializedSlots(LOGIN_RS, m);
  }

  lemma FriendRequires(m: Msg)
    requires Typed(FRIEND, m)
    ensures |m.slots| == 2
    ensures IsInitialized(FRIEND, m)
       <==> m.slots[0] != []
  {
    InitializedSlots(FRIEND, m);
  }

  lemma GetFriendsRsRequires(m: Msg)
    requires Typed(GET_FRIENDS_RS, m)
    ensures |m.slots| == 1 && AllOf(FRIEND, m.slots[0])
    ensures IsInitialized(GET_FRIENDS_RS, m)
       <==> AllInitialized(FRIEND, m.slots[0])
  {
    SubsAt(GET_FRIENDS_RS, FRIEND, m, 0);
    InitializedSlots(GET_FRIENDS_RS, m);
  }

  lemma RespondRequires(m: Msg)
    requires Typed(RESPOND, m)
    ensures |m.slots| == 5 && AllOf(LOGIN_RS, m.slots[3]) && AllOf(GET_FRIENDS_RS, m.slots[4])
    ensures IsInitialized(RESPOND, m)
       <==> m.slots[0] != [] && m.slots[1] != [] && AllInitialized(LOGIN_RS, m.slots[3])
            && AllInitialized(GET_FRIENDS_RS, m.slots[4])
  {
    SubsAt(RESPOND, LOGIN_RS, m, 3);
    SubsAt(RESPOND, GET_FRIENDS_RS, m, 4);
    InitializedSlots(RESPOND, m);
  }

  lemma HeartbeatNtRequires(m: Msg)
    requires Typed(HEARTBEAT_NT, m)
    ensures |m.slots| == 1
    ensures IsInitialized(HEARTBEAT_NT, m)
       <==> m.slots[0] != []
  {
    InitializedSlots(HEARTBEAT_NT, m);
  }

  lemma MessageNtRequires(m: Msg)
    requires Typed(MESSAGE_NT, m)
    ensures |m.slots| == 3
    ensures IsInitialized(MESSAGE_NT, m)
       <==> m.slots[0] != [] && m.slots[1] != [] && m.slots[2] != []
  {
    InitializedSlots(MESSAGE_NT, m);
  }

  lemma NotifyRequires(m: Msg)
    requires Typed(NOTIFY, m)
    ensures |m.slots| == 2 && AllOf(HEARTBEAT_NT, m.slots[0]) && AllOf(MESSAGE_NT, m.slots[1])
    ensures IsInitialized(NOTIFY, m)
       <==> AllInitialized(HEARTBEAT_NT, m.slots[0]) && AllInitialized(MESSAGE_NT, m.slots[1])
  {
    SubsAt(NOTIFY, HEARTBEAT_NT, m, 0);
    SubsAt(NOTIFY, MESSAGE_NT, m, 1);
    InitializedSlots(NOTIFY, m);
  }

  lemma MessageRequires(m: Msg)
    requires Typed(MESSAGE, m)
    ensures |m.slots| == 6 && AllOf(REQUEST, m.slots[3]) && AllOf(RESPOND, m.slots[4]) && AllOf(NOTIFY, m.slots[5])
    ensures IsInitialized(MESSAGE, m)
       <==> m.slots[0] != [] && m.slots[1] != [] && AllInitialized(REQUEST, m.slots[3])
            && AllInitialized(RESPOND, m.slots[4]) && AllInitialized(NOTIFY, m.slots[5])
  {
    SubsAt(MESSAGE, REQUEST, m, 3);
    SubsAt(MESSAGE, RESPOND, m, 4);
    SubsAt(MESSAGE, NOTIFY, m, 5);
    InitializedSlots(MESSAGE, m);
  }
}
