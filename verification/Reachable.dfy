/** Every message that a run of the API can build, by hand, from the wire or by merging, survives being
    sent. */
module Reachable {
  import opened Octets
  import opened Wire
  import opened Schemas
  import opened Codec
  import opened Reparse
  import opened RecursionLimit
  import opened CodedStream
  import opened StorageRuns

  lemma {:induction false} MergeSettles(sch: Schema, a: Msg, b: Msg)
    requires Settled(sch, a) && Settled(sch, b)
    ensures Settled(sch, Merge(sch, a, b))
    decreases sch, 1
  {
    var c := Merge(sch, a, b);
    forall i | 0 <= i < |sch.fields| ensures ValuesSettled(sch.fields[i].kind, c.slots[i]) {
      assert ValuesSettled(sch.fields[i].kind, a.slots[i]) && ValuesSettled(sch.fields[i].kind, b.slots[i]);
      MergeAt(sch, a, b, i);
      MergeSlotSettles(sch.fields[i], a.slots[i], b.slots[i]);
    }
  }

  lemma {:induction false} MergeSlotSettles(f: Field, a: seq<Value>, b: seq<Value>)
    requires SlotTyped(f, a) && SlotTyped(f, b) && ValuesSettled(f.kind, a) && ValuesSettled(f.kind, b)
    ensures ValuesSettled(f.kind, MergeSlot(f, a, b))
    decreases f, 1
  {
    if f.arity != Repeated && b != [] && f.kind.MessageKind? {
      assert ValueSettled(f.kind, b[0]) && (a != [] ==> ValueSettled(f.kind, a[0]));
      EmptyIsSettled(f.kind.schema);
      MergeSettles(f.kind.schema, if a == [] then Empty(f.kind.schema) else a[0].m, b[0].m);
    }
  }

  lemma PutSubSettles(sch: Schema, m: Msg, i: nat, before: seq<Value>, x: Msg, after: seq<Value>)
    requires WellFormed(sch) && Settled(sch, m) && i < |sch.fields| && sch.fields[i].kind.MessageKind?
    requires sch.fields[i].arity == Repeated || before + after == []
    requires SlotTyped(sch.fields[i], before) && SlotTyped(sch.fields[i], after)
    requires ValuesSettled(sch.fields[i].kind, before) && ValuesSettled(sch.fields[i].kind, after)
    requires Settled(sch.fields[i].kind.schema, x)
    ensures Settled(sch, PutSub(sch, m, i, before, Some(x), after).value)
  {
    var vs := before + [Sub(x)] + after;
    assert forall k :: 0 <= k < |vs| ==> ValueSettled(sch.fields[i].kind, vs[k]);
    SetSlotSettles(sch, m, i, vs);
  }

  lemma {:induction false} CallSettles(sch: Schema, m: Msg, c: Call)
    requires WellFormed(sch) && Settled(sch, m) && After(sch, m, c).Some?
    ensures Settled(sch, After(sch, m, c).value)
    decreases c, 1
  {
    hide Settled;
    SettledParts(sch, m);
    EmptyIsSettled(sch);
    if Possible(sch, m, c) {
      match c
      case SetNumber(i, n) => SetSlotSettles(sch, m, i, [Num(n)]);
      case SetText(i, b) => SetSlotSettles(sch, m, i, [Str(b)]);
      case ClearField(i) => SetSlotSettles(sch, m, i, []);
      case ReleaseChild(i) => SetSlotSettles(sch, m, i, []);
      case RemoveLast(i) => SetSlotSettles(sch, m, i, m.slots[i][..|m.slots[i]| - 1]);
      case ChangeChild(_, _) => CallInsideSettles(sch, m, c);
      case SetAllocated(_, _) => CallInsideSettles(sch, m, c);
      case Add(_, _) => CallInsideSettles(sch, m, c);
      case ChangeElement(_, _, _) => CallInsideSettles(sch, m, c);
      case ClearAll =>
      case MergeFrom(calls) =>
        RunSettles(sch, Empty(sch), calls);
        MergeSettles(sch, m, AfterAll(sch, Empty(sch), calls).value);
      case CopyFrom(calls) => RunSettles(sch, Empty(sch), calls);
      case Swap(calls) => RunSettles(sch, Empty(sch), calls);
      case MergeFromStream(s) => ScanSettles(sch, m, s);
      case ParsePartialFromArray(s) => ParseSettles(sch, Empty(sch), s);
      case ByteSize =>
    }
  }

  lemma {:induction false} CallInsideSettles(sch: Schema, m: Msg, c: Call)
    requires WellFormed(sch) && Settled(sch, m) && Possible(sch, m, c) && After(sch, m, c).Some?
    requires c.ChangeChild? || c.SetAllocated? || c.Add? || c.ChangeElement?
    ensures Settled(sch, After(sch, m, c).value)
    decreases c, 0
  {
    hide Settled;
    SettledParts(sch, m);
    var f, vs := sch.fields[c.i], m.slots[c.i];
    assert SlotTyped(f, vs) && ValuesSettled(f.kind, vs);
    EmptyIsSettled(f.kind.schema);
    match c
    case ChangeChild(i, calls) =>
      MutableIsSettled(f, vs);
      RunSettles(f.kind.schema, Codec.Mutable(f, vs), calls);
      PutSubSettles(sch, m, i, [], AfterAll(f.kind.schema, Codec.Mutable(f, vs), calls).value, []);
    case SetAllocated(i, calls) =>
      RunSettles(f.kind.schema, Empty(f.kind.schema), calls);
      PutSubSettles(sch, m, i, [], AfterAll(f.kind.schema, Empty(f.kind.schema), calls).value, []);
    case Add(i, calls) =>
      RunSettles(f.kind.schema, Empty(f.kind.schema), calls);
      PutSubSettles(sch, m, i, vs, AfterAll(f.kind.schema, Empty(f.kind.schema), calls).value, []);
    case ChangeElement(i, j, calls) =>
      assert ValueSettled(f.kind, vs[j]);
      RunSettles(f.kind.schema, vs[j].m, calls);
      PutSubSettles(sch, m, i, vs[..j], AfterAll(f.kind.schema, vs[j].m, calls).value, vs[j + 1..]);
  }

  lemma {:induction false} RunSettles(sch: Schema, m: Msg, calls: seq<Call>)
    requires WellFormed(sch) && Settled(sch, m) && AfterAll(sch, m, calls).Some?
    ensures Settled(sch, AfterAll(sch, m, calls).value)
    decreases calls
  {
    hide Settled;
    if calls != [] {
      SettledParts(sch, m);
      CallSettles(sch, m, calls[0]);
      RunSettles(sch, After(sch, m, calls[0]).value, calls[1..]);
    }
  }

  /** A message of any run that is not too large for a stream, serialized and parsed, is that message, unless
      it is nested too deep for the parser. */
  lemma ReachableRoundTrips(sch: Schema, calls: seq<Call>)
    requires WellFormed(sch) && AfterAll(sch, Empty(sch), calls).Some?
    requires Codec.ByteSize(sch, AfterAll(sch, Empty(sch), calls).value) <= TOTAL_BYTES_LIMIT
    ensures var x := AfterAll(sch, Empty(sch), calls).value;
      && Transmissible(sch, x)
      && ParseWithin(sch, Empty(sch), Serialize(sch, x), RECURSION_LIMIT)
         == if Fits(sch, x, RECURSION_LIMIT) then Some(x) else None
  {
    hide Transmissible, Settled;
    var x := AfterAll(sch, Empty(sch), calls).value;
    EmptyIsSettled(sch);
    RunSettles(sch, Empty(sch), calls);
    SettledIsTransmissible(sch, x);
    ParseUndoesSerializeWithin(sch, x, RECURSION_LIMIT);
  }
}
