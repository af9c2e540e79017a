/** Message types as data, message values with explicit presence, and merging.
    A generated class is the interpretation of one schema: its parser, serializers, size pass and
    merge visit the same fields in the same order and differ only in numbers, kinds and labels. */
module Schemas {
  import opened Octets
  import opened Wire

  datatype Kind = EnumKind | Int32Kind | UInt32Kind | Fixed32Kind | BoolKind | BytesKind | MessageKind(schema: Schema)
  datatype Arity = Required | Optional | Repeated
  datatype Field = Field(number: nat, kind: Kind, arity: Arity)
  datatype Schema = Schema(fields: seq<Field>)

  /** Field numbers rise and stay below 15, so that every known tag is one byte long and the tag of
      field 15 is free; only messages are repeated, as in the repository's schema. */
  predicate WellFormed(sch: Schema) {
    && (forall i, j :: 0 <= i < j < |sch.fields| ==> sch.fields[i].number < sch.fields[j].number)
    && forall i :: 0 <= i < |sch.fields| ==>
         && 1 <= sch.fields[i].number <= 14
         && (sch.fields[i].arity == Repeated ==> sch.fields[i].kind.MessageKind?)
         && (sch.fields[i].kind.MessageKind? ==> WellFormed(sch.fields[i].kind.schema))
  }

  function FieldTag(f: Field): nat {
    MakeTag(f.number,
      match f.kind
      case EnumKind => WIRETYPE_VARINT
      case Int32Kind => WIRETYPE_VARINT
      case UInt32Kind => WIRETYPE_VARINT
      case BoolKind => WIRETYPE_VARINT
      case Fixed32Kind => WIRETYPE_FIXED32
      case BytesKind => WIRETYPE_LENGTH_DELIMITED
      case MessageKind(_) => WIRETYPE_LENGTH_DELIMITED)
  }

  /** EMsg_IsValid. */
  predicate EMsgIsValid(value: nat) {
    value in [10001, 10002, 10003, 10004, 10007, 10008, 10009, 10010, 20001, 20002]
  }

  // ------------------------------------------------------------------ values

  /** Numbers are kept as their unsigned 32-bit pattern; a bool is 0 or 1. */
  datatype Value = Num(n: nat) | Str(b: Bytes) | Sub(m: Msg)

  /** For each field of the schema the values present (none, one, or the elements of a repeated
      field), and the unknown fields in arrival order. */
  datatype Msg = Msg(slots: seq<seq<Value>>, unknown: seq<Unknown>)

  predicate ValueTyped(k: Kind, v: Value)
    decreases k, 0
  {
    match k
    case EnumKind => v.Num? && EMsgIsValid(v.n)
    case Int32Kind => v.Num? && v.n < TWO32
    case UInt32Kind => v.Num? && v.n < TWO32
    case Fixed32Kind => v.Num? && v.n < TWO32
    case BoolKind => v.Num? && v.n <= 1
    case BytesKind => v.Str? && |v.b| <= INT_MAX
    case MessageKind(sub) => v.Sub? && Typed(sub, v.m)
  }

  predicate SlotTyped(f: Field, vs: seq<Value>)
    decreases f, 0
  {
    (f.arity != Repeated ==> |vs| <= 1) && forall j :: 0 <= j < |vs| ==> ValueTyped(f.kind, vs[j])
  }

  /** `m` is a value of the message type `sch`. */
  predicate Typed(sch: Schema, m: Msg)
    decreases sch, 0
  {
    |m.slots| == |sch.fields| && forall i :: 0 <= i < |sch.fields| ==> SlotTyped(sch.fields[i], m.slots[i])
  }

  predicate ValuesTyped(k: Kind, vs: seq<Value>) {
    forall j :: 0 <= j < |vs| ==> ValueTyped(k, vs[j])
  }

  function Empty(sch: Schema): (m: Msg)
    ensures Typed(sch, m)
  {
    Msg(seq(|sch.fields|, i => []), [])
  }

  /** Required fields present, here and in every present submessage. */
  predicate IsInitialized(sch: Schema, m: Msg)
    requires Typed(sch, m)
    decreases sch, 1
  {
    forall i :: 0 <= i < |sch.fields| ==> SlotInitialized(sch.fields[i], m.slots[i])
  }

  predicate SlotInitialized(f: Field, vs: seq<Value>)
    requires SlotTyped(f, vs)
    decreases f, 1
  {
    && (f.arity == Required ==> vs != [])
    && (f.kind.MessageKind? ==>
          forall j :: 0 <= j < |vs| ==> assert ValueTyped(f.kind, vs[j]); IsInitialized(f.kind.schema, vs[j].m))
  }

  // ------------------------------------------------------------------- merge

  /** Scalars: the last one wins.  Repeated fields append.  Submessages merge field by field, into a
      new empty one when the target has none. */
  function MergeSlot(f: Field, a: seq<Value>, b: seq<Value>): (c: seq<Value>)
    requires SlotTyped(f, a) && SlotTyped(f, b)
    ensures SlotTyped(f, c)
    decreases f, 1
  {
    if f.arity == Repeated then a + b
    else if b == [] then a
    else if f.kind.MessageKind? then
      assert ValueTyped(f.kind, b[0]) && (a != [] ==> ValueTyped(f.kind, a[0]));
      var into := if a == [] then Empty(f.kind.schema) else a[0].m;
      [Sub(Merge(f.kind.schema, into, b[0].m))]
    else b
  }

  /** MergeFrom: `b` merged into `a`. */
  function Merge(sch: Schema, a: Msg, b: Msg): (c: Msg)
    requires Typed(sch, a) && Typed(sch, b)
    ensures Typed(sch, c)
    decreases sch, 1
  {
    Msg(seq(|sch.fields|, i requires 0 <= i < |sch.fields| => MergeSlot(sch.fields[i], a.slots[i], b.slots[i])),
        a.unknown + b.unknown)
  }

  lemma MergeAt(sch: Schema, a: Msg, b: Msg, i: nat)
    requires Typed(sch, a) && Typed(sch, b) && i < |sch.fields|
    ensures Merge(sch, a, b).slots[i] == MergeSlot(sch.fields[i], a.slots[i], b.slots[i])
  {
  }

  lemma {:induction false} MergeEmptyLeft(sch: Schema, b: Msg)
    requires Typed(sch, b)
    ensures Merge(sch, Empty(sch), b) == b
  {
    var c := Merge(sch, Empty(sch), b);
    forall i | 0 <= i < |sch.fields| ensures c.slots[i] == b.slots[i] {
      MergeSlotEmptyLeft(sch.fields[i], b.slots[i]);
    }
    assert c.slots == b.slots;
  }

  lemma {:induction false} MergeSlotEmptyLeft(f: Field, b: seq<Value>)
    requires SlotTyped(f, b)
    ensures MergeSlot(f, [], b) == b
  {
    if b != [] && f.kind.MessageKind? && f.arity != Repeated {
      assert ValueTyped(f.kind, b[0]);
      MergeEmptyLeft(f.kind.schema, b[0].m);
      assert b == [b[0]];
    }
  }

  lemma MergeEmptyRight(sch: Schema, a: Msg)
    requires Typed(sch, a)
    ensures Merge(sch, a, Empty(sch)) == a
  {
    var c := Merge(sch, a, Empty(sch));
    forall i | 0 <= i < |sch.fields| ensures c.slots[i] == a.slots[i] {
      MergeSlotEmptyRight(sch.fields[i], a.slots[i]);
    }
    assert c.slots == a.slots;
  }

  lemma MergeSlotEmptyRight(f: Field, a: seq<Value>)
    requires SlotTyped(f, a)
    ensures MergeSlot(f, a, []) == a
  {
    assert a + [] == a;
  }

  lemma {:induction false} MergeAssociative(sch: Schema, a: Msg, b: Msg, c: Msg)
    requires Typed(sch, a) && Typed(sch, b) && Typed(sch, c)
    ensures Merge(sch, Merge(sch, a, b), c) == Merge(sch, a, Merge(sch, b, c))
    decreases sch, 1
  {
    var l, r := Merge(sch, Merge(sch, a, b), c), Merge(sch, a, Merge(sch, b, c));
    forall i | 0 <= i < |sch.fields| ensures l.slots[i] == r.slots[i] {
      MergeSlotAssociative(sch.fields[i], a.slots[i], b.slots[i], c.slots[i]);
    }
    assert l.slots == r.slots;
    assert l.unknown == r.unknown;
  }

  lemma {:induction false} MergeSlotAssociative(f: Field, a: seq<Value>, b: seq<Value>, c: seq<Value>)
    requires SlotTyped(f, a) && SlotTyped(f, b) && SlotTyped(f, c)
    ensures MergeSlot(f, MergeSlot(f, a, b), c) == MergeSlot(f, a, MergeSlot(f, b, c))
    decreases f, 0
  {
    if f.arity == Repeated {
      assert a + b + c == a + (b + c);
    } else if b != [] && c != [] && f.kind.MessageKind? {
      assert ValueTyped(f.kind, b[0]) && ValueTyped(f.kind, c[0]) && (a != [] ==> ValueTyped(f.kind, a[0]));
      var sub := f.kind.schema;
      MergeAssociative(sub, if a == [] then Empty(sub) else a[0].m, b[0].m, c[0].m);
      MergeSlotEmptyLeft(f, b);
      MergeSlotEmptyLeft(f, MergeSlot(f, b, c));
    } else if b == [] {
      MergeSlotEmptyLeft(f, c);
    }
  }

  /** A merge of two initialized messages is initialized. */
  lemma {:induction false} MergeKeepsInitialized(sch: Schema, a: Msg, b: Msg)
    requires Typed(sch, a) && Typed(sch, b)
    requires IsInitialized(sch, a) && IsInitialized(sch, b)
    ensures IsInitialized(sch, Merge(sch, a, b))
    decreases sch, 1
  {
    forall i | 0 <= i < |sch.fields|
      ensures SlotInitialized(sch.fields[i], MergeSlot(sch.fields[i], a.slots[i], b.slots[i]))
    {
      var f, x, y := sch.fields[i], a.slots[i], b.slots[i];
      if f.kind.MessageKind? && f.arity != Repeated && y != [] {
        assert ValueTyped(f.kind, y[0]) && (x != [] ==> ValueTyped(f.kind, x[0]));
        if x == [] {
          MergeEmptyLeft(f.kind.schema, y[0].m);
        } else {
          MergeKeepsInitialized(f.kind.schema, x[0].m, y[0].m);
        }
      }
    }
  }

  /** No field is present in both, and at most one carries unknown fields. */
  predicate Disjoint(sch: Schema, a: Msg, b: Msg)
    requires Typed(sch, a) && Typed(sch, b)
  {
    (a.unknown == [] || b.unknown == []) && forall i :: 0 <= i < |sch.fields| ==> a.slots[i] == [] || b.slots[i] == []
  }

  lemma MergeCommutesWhenDisjoint(sch: Schema, a: Msg, b: Msg)
    requires Typed(sch, a) && Typed(sch, b) && Disjoint(sch, a, b)
    ensures Merge(sch, a, b) == Merge(sch, b, a)
  {
    var l, r := Merge(sch, a, b), Merge(sch, b, a);
    forall i | 0 <= i < |sch.fields| ensures l.slots[i] == r.slots[i] {
      MergeSlotEmptyLeft(sch.fields[i], a.slots[i]);
      MergeSlotEmptyRight(sch.fields[i], a.slots[i]);
      MergeSlotEmptyLeft(sch.fields[i], b.slots[i]);
      MergeSlotEmptyRight(sch.fields[i], b.slots[i]);
    }
    assert l.slots == r.slots;
    assert l.unknown == r.unknown;
  }
}
