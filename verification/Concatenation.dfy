/** Parsing is merging: reading bytes into a message merges what the bytes say by themselves, and
    concatenated encodings merge exactly when the first one is closed. */
module Concatenation {
  import opened Octets
  import opened Wire
  import opened Schemas
  import opened Codec

  // ------------------------------------------- reading into a message merges

  lemma MergeOneSlot(sch: Schema, m: Msg, i: nat, vs: seq<Value>)
    requires Typed(sch, m) && i < |sch.fields| && SlotTyped(sch.fields[i], vs)
    ensures Merge(sch, m, SetSlot(sch, Empty(sch), i, vs)) == SetSlot(sch, m, i, MergeSlot(sch.fields[i], m.slots[i], vs))
  {
    hide MergeSlot, SlotTyped;
    var d := SetSlot(sch, Empty(sch), i, vs);
    var c, w := Merge(sch, m, d), SetSlot(sch, m, i, MergeSlot(sch.fields[i], m.slots[i], vs));
    forall j | 0 <= j < |sch.fields| ensures c.slots[j] == w.slots[j] {
      MergeOneSlotAt(sch, m, i, vs, j);
    }
    assert c.slots == w.slots;
    assert c.unknown == w.unknown;
  }

  lemma MergeOneSlotAt(sch: Schema, m: Msg, i: nat, vs: seq<Value>, j: nat)
    requires Typed(sch, m) && i < |sch.fields| && SlotTyped(sch.fields[i], vs) && j < |sch.fields|
    ensures Merge(sch, m, SetSlot(sch, Empty(sch), i, vs)).slots[j]
         == if j == i then MergeSlot(sch.fields[i], m.slots[i], vs) else m.slots[j]
  {
    MergeAt(sch, m, SetSlot(sch, Empty(sch), i, vs), j);
    if j != i {
      MergeSlotEmptyRight(sch.fields[j], m.slots[j]);
    }
  }

  lemma MergeOneUnknown(sch: Schema, m: Msg, u: Unknown)
    requires Typed(sch, m)
    ensures Typed(sch, AddUnknown(Empty(sch), u))
    ensures Merge(sch, m, AddUnknown(Empty(sch), u)) == AddUnknown(m, u)
  {
    var d := AddUnknown(Empty(sch), u);
    assert d.unknown == [u];
    MergeEmptyRight(sch, m);
    assert Merge(sch, m, d).slots == Merge(sch, m, Empty(sch)).slots;
  }

  /** `from` merged with what was read from nothing. */
  function MergeRead(sch: Schema, m: Msg, r: Read<Msg>): Read<Msg>
    requires Typed(sch, m) && (r.Got? ==> Typed(sch, r.value))
  {
    match r
    case Fail => Fail
    case Got(d, rest) => Got(Merge(sch, m, d), rest)
  }

  lemma {:induction false} RecordIsMerge(sch: Schema, m: Msg, tag: nat, s: Bytes)
    requires WellFormed(sch) && Typed(sch, m)
    ensures ReadRecord(sch, m, tag, s) == MergeRead(sch, m, ReadRecord(sch, Empty(sch), tag, s))
    decreases |s|, 3
  {
    var i := FindTag(sch, tag);
    if i < |sch.fields| {
      FieldIsMerge(sch, i, m, s);
    } else {
      match SkipField(tag, s)
      case Fail =>
      case Got(u, rest) => MergeOneUnknown(sch, m, u);
    }
  }

  lemma {:induction false} FieldIsMerge(sch: Schema, i: nat, m: Msg, s: Bytes)
    requires WellFormed(sch) && i < |sch.fields| && Typed(sch, m)
    ensures ReadField(sch, i, m, s) == MergeRead(sch, m, ReadField(sch, i, Empty(sch), s))
    decreases |s|, 2
  {
    var f, e := sch.fields[i], Empty(sch);
    match f.kind
    case EnumKind => {
      if ReadVarint(s).Got? {
        var n := ReadVarint(s).value % TWO32;
        if EMsgIsValid(n) {
          MergeOneSlot(sch, m, i, [Num(n)]);
        } else {
          MergeOneUnknown(sch, m, UVarint(f.number, SignExtend(n)));
        }
      }
    }
    case Int32Kind => WordIsMerge(sch, i, m, ReadVarint(s));
    case UInt32Kind => WordIsMerge(sch, i, m, ReadVarint(s));
    case Fixed32Kind => WordIsMerge(sch, i, m, ReadFixed32(s));
    case BoolKind => {
      if ReadVarint(s).Got? {
        MergeOneSlot(sch, m, i, [Num(if ReadVarint(s).value % TWO64 != 0 then 1 else 0)]);
      }
    }
    case BytesKind => {
      if ReadString(s).Got? {
        MergeOneSlot(sch, m, i, [Str(ReadString(s).value)]);
      }
    }
    case MessageKind(sub) => {
      if f.arity == Repeated {
        var x := Parse(sub, Empty(sub), ReadElementBody(s).0);
        if x.Some? {
          assert [] + [Sub(x.value)] == [Sub(x.value)];
          MergeOneSlot(sch, m, i, [Sub(x.value)]);
        }
      } else if ReadBody(s).Got? {
        var body := ReadBody(s).value;
        ParseIsMerge(sub, Mutable(f, m.slots[i]), body);
        var x := Parse(sub, Empty(sub), body);
        if x.Some? {
          MergeOneSlot(sch, m, i, [Sub(x.value)]);
        }
      }
    }
  }

  lemma WordIsMerge(sch: Schema, i: nat, m: Msg, r: Read<nat>)
    requires Typed(sch, m) && i < |sch.fields|
    requires IsWord(sch.fields[i])
    ensures ReadWord(sch, m, i, r) == MergeRead(sch, m, ReadWord(sch, Empty(sch), i, r))
  {
    if r.Got? {
      MergeOneSlot(sch, m, i, [Num(r.value % TWO32)]);
    }
  }

  function MergeParsed(sch: Schema, m: Msg, p: Option<Msg>): Option<Msg>
    requires Typed(sch, m) && (p.Some? ==> Typed(sch, p.value))
  {
    match p
    case None => None
    case Some(d) => Some(Merge(sch, m, d))
  }

  /** MergePartialFromCodedStream merges: the message it fills ends up merged with the message that
      the same bytes give when read into an empty one, and it fails on the same bytes. */
  lemma {:induction false} ParseIsMerge(sch: Schema, m: Msg, s: Bytes)
    requires WellFormed(sch) && Typed(sch, m)
    ensures Parse(sch, m, s) == MergeParsed(sch, m, Parse(sch, Empty(sch), s))
    decreases |s|, 1
  {
    if s == [] {
      MergeEmptyRight(sch, m);
    } else if ReadTag(s).Got? {
      var Got(tag, t) := ReadTag(s);
      RecordIsMerge(sch, m, tag, t);
      var first := ReadRecord(sch, Empty(sch), tag, t);
      if first.Got? && WireType(tag) != WIRETYPE_END_GROUP {
        var Got(d, rest) := first;
        ParseIsMerge(sch, Merge(sch, m, d), rest);
        ParseIsMerge(sch, d, rest);
        var p := Parse(sch, Empty(sch), rest);
        if p.Some? {
          MergeAssociative(sch, m, d, p.value);
        }
      }
    }
  }

  // ---------------------------------------------------- concatenated encodings

  /** The length in front of a submessage reaches no further than the bytes at hand. */
  predicate PrefixFits(f: Field, s: Bytes) {
    f.kind.MessageKind? ==>
      match ReadVarint(s)
      case Fail => false
      case Got(v, t) => v % TWO32 <= INT_MAX && v % TWO32 <= |t|
  }

  /** Every length prefix at the top level of `s` fits in `s`. */
  predicate Closed(sch: Schema, s: Bytes)
    requires WellFormed(sch)
    decreases |s|
  {
    match ReadTag(s)
    case Fail => true
    case Got(tag, t) =>
      var i := FindTag(sch, tag);
      (i < |sch.fields| ==> PrefixFits(sch.fields[i], t)) &&
      match ReadRecord(sch, Empty(sch), tag, t)
      case Fail => true
      case Got(_, rest) => Closed(sch, rest)
  }

  lemma DelimitExtends(length: nat, s: Bytes, t: Bytes)
    requires length <= INT_MAX && length <= |s|
    ensures Delimit(length, s + t) == (Delimit(length, s).0, Delimit(length, s).1 + t)
  {
    assert (s + t)[..length] == s[..length];
    assert (s + t)[length..] == s[length..] + t;
  }

  lemma FieldExtends(sch: Schema, i: nat, m: Msg, s: Bytes, t: Bytes)
    requires WellFormed(sch) && i < |sch.fields| && Typed(sch, m)
    requires ReadField(sch, i, m, s).Got? && PrefixFits(sch.fields[i], s)
    ensures ReadField(sch, i, m, s + t) == Got(ReadField(sch, i, m, s).value, ReadField(sch, i, m, s).rest + t)
  {
    var f := sch.fields[i];
    if f.kind.MessageKind? {
      BodyExtends(f, s, t);
    } else {
      PlainFieldExtends(sch, i, m, s, t);
    }
  }

  lemma PlainFieldExtends(sch: Schema, i: nat, m: Msg, s: Bytes, t: Bytes)
    requires WellFormed(sch) && i < |sch.fields| && Typed(sch, m) && !sch.fields[i].kind.MessageKind?
    requires ReadField(sch, i, m, s).Got?
    ensures ReadField(sch, i, m, s + t) == Got(ReadField(sch, i, m, s).value, ReadField(sch, i, m, s).rest + t)
  {
    var f := sch.fields[i];
    if f.kind.Fixed32Kind? {
      Fixed32Extends(s, t);
    } else if f.kind.BytesKind? {
      StringExtends(s, t);
    } else {
      VarintExtends(s, 10, t);
    }
  }

  lemma BodyExtends(f: Field, s: Bytes, t: Bytes)
    requires f.kind.MessageKind? && PrefixFits(f, s)
    ensures ReadElementBody(s + t) == (ReadElementBody(s).0, ReadElementBody(s).1 + t)
    ensures ReadBody(s).Got? ==> ReadBody(s + t) == Got(ReadBody(s).value, ReadBody(s).rest + t)
  {
    VarintExtends(s, 10, t);
    var Got(v, u) := ReadVarint(s);
    DelimitExtends(v % TWO32, u, t);
    if v % TWO64 <= INT_MAX {
      SameResidue(v);
    }
  }

  lemma SameResidue(v: nat)
    requires v % TWO64 < TWO32
    ensures v % TWO32 == v % TWO64
  {
    var q, r := v / TWO64, v % TWO64;
    assert v == q * TWO32 * TWO32 + r;
    assert (q * TWO32 * TWO32 + r) % TWO32 == r;
  }

  lemma RecordExtends(sch: Schema, m: Msg, tag: nat, s: Bytes, t: Bytes)
    requires WellFormed(sch) && Typed(sch, m)
    requires ReadRecord(sch, m, tag, s).Got?
    requires FindTag(sch, tag) < |sch.fields| ==> PrefixFits(sch.fields[FindTag(sch, tag)], s)
    ensures ReadRecord(sch, m, tag, s + t) == Got(ReadRecord(sch, m, tag, s).value, ReadRecord(sch, m, tag, s).rest + t)
  {
    var i := FindTag(sch, tag);
    if i < |sch.fields| {
      FieldExtends(sch, i, m, s, t);
    } else {
      SkipFieldExtends(tag, s, t);
    }
  }

  lemma {:induction false} ClosedParseExtends(sch: Schema, m: Msg, s: Bytes, t: Bytes)
    requires WellFormed(sch) && Typed(sch, m)
    requires Closed(sch, s) && Parse(sch, m, s).Some?
    ensures Parse(sch, m, s + t) == Parse(sch, Parse(sch, m, s).value, t)
    decreases |s|
  {
    if s == [] {
      assert s + t == t;
    } else {
      VarintExtends(s, 10, t);
      var Got(tag, u) := ReadTag(s);
      RecordIsMerge(sch, m, tag, u);
      RecordExtends(sch, m, tag, u, t);
      var Got(m', rest) := ReadRecord(sch, m, tag, u);
      ClosedParseExtends(sch, m', rest, t);
    }
  }

  /** The concatenation law, for every closed first part. */
  lemma ClosedConcatenationMerges(sch: Schema, s: Bytes, t: Bytes)
    requires WellFormed(sch)
    requires Closed(sch, s) && Parse(sch, Empty(sch), s).Some?
    ensures Parse(sch, Empty(sch), s + t)
         == MergeParsed(sch, Parse(sch, Empty(sch), s).value, Parse(sch, Empty(sch), t))
  {
    ClosedParseExtends(sch, Empty(sch), s, t);
    ParseIsMerge(sch, Parse(sch, Empty(sch), s).value, t);
  }

  /** A varint field numbered 15, which no schema here uses. */
  const PROBE: Bytes := [120, 0]

  lemma ProbeIsUnknown(sch: Schema, m: Msg)
    requires WellFormed(sch) && Typed(sch, m)
    ensures Parse(sch, m, PROBE) == Some(AddUnknown(m, UVarint(15, 0)))
  {
    ProbeParts();
    assert FindTag(sch, 120) == |sch.fields|;
    assert ReadRecord(sch, m, 120, [0]) == Got(AddUnknown(m, UVarint(15, 0)), []);
  }

  lemma ProbeParts()
    ensures ReadTag(PROBE) == Got(120, [0]) && SkipField(120, [0]) == Got(UVarint(15, 0), [])
    ensures ReadTag([0]) == Fail
  {
    assert PROBE[1..] == [0];
    SmallResidue(120);
  }

  /** A lone zero byte is a tag of 0, on which no message may end. */
  lemma ZeroByteFails(sch: Schema, m: Msg)
    requires WellFormed(sch) && Typed(sch, m)
    ensures Parse(sch, m, [0]) == None
  {
    ProbeParts();
  }

  /** A varint cut off by the end of its bytes is completed by one more byte. */
  lemma {:induction false} CutVarintCompletes(s: Bytes, budget: nat)
    requires ReadVarint(s, budget).Fail? && |s| < budget
    ensures ReadVarint(s + PROBE, budget).Got? && ReadVarint(s + PROBE, budget).rest == [0]
  {
    if s == [] {
      assert s + PROBE == PROBE;
    } else {
      assert (s + PROBE)[1..] == s[1..] + PROBE;
      CutVarintCompletes(s[1..], budget - 1);
    }
  }

  /** What two appended bytes do to a body whose length prefix was cut short: they are swallowed
      whole, or the second one is left over. */
  lemma OpenBodySwallows(length: nat, s: Bytes)
    requires length > INT_MAX || length > |s|
    ensures Delimit(length, s) == (s, [])
    ensures Delimit(length, s + PROBE).1 == [] || Delimit(length, s + PROBE).1 == [0]
  {
    assert s[..|s|] == s && s[|s|..] == [];
  }

  lemma OpenElementSwallows(f: Field, s: Bytes)
    requires f.kind.MessageKind? && !PrefixFits(f, s)
    ensures ReadElementBody(s).1 == [] || (ReadVarint(s).Fail? && |s| >= 10 && ReadElementBody(s).1 == s)
    ensures ReadElementBody(s).1 == [] ==>
              ReadElementBody(s + PROBE).1 == [] || ReadElementBody(s + PROBE).1 == [0]
  {
    match ReadVarint(s)
    case Got(v, t) =>
      VarintExtends(s, 10, PROBE);
      OpenBodySwallows(v % TWO32, t);
    case Fail =>
      if |s| < 10 {
        CutVarintCompletes(s, 10);
      }
  }

  lemma OpenSubmessageSwallows(f: Field, s: Bytes)
    requires f.kind.MessageKind? && !PrefixFits(f, s) && ReadBody(s).Got?
    ensures ReadBody(s).rest == []
    ensures ReadBody(s + PROBE).Got? && (ReadBody(s + PROBE).rest == [] || ReadBody(s + PROBE).rest == [0])
  {
    var Got(v, t) := ReadVarint(s);
    SameResidue(v);
    VarintExtends(s, 10, PROBE);
    OpenBodySwallows(v % TWO32, t);
  }

  /** What reading a submessage leaves, and that it adds no unknown field to the message around it. */
  lemma SubmessageRest(sch: Schema, m: Msg, i: nat, s: Bytes)
    requires WellFormed(sch) && Typed(sch, m) && i < |sch.fields| && sch.fields[i].kind.MessageKind?
    requires ReadField(sch, i, m, s).Got?
    ensures ReadField(sch, i, m, s).value.unknown == m.unknown
    ensures if sch.fields[i].arity == Repeated then ReadField(sch, i, m, s).rest == ReadElementBody(s).1
            else ReadBody(s).Got? && ReadField(sch, i, m, s).rest == ReadBody(s).rest
  {
  }

  /** The record whose length prefix does not fit ends its bytes, and loses an appended probe. */
  lemma OpenRecordLosesProbe(sch: Schema, m: Msg, i: nat, s: Bytes)
    requires WellFormed(sch) && Typed(sch, m) && i < |sch.fields|
    requires !PrefixFits(sch.fields[i], s) && ReadField(sch, i, m, s).Got?
    requires ReadField(sch, i, m, s).rest == [] || ReadTag(ReadField(sch, i, m, s).rest).Got?
    ensures ReadField(sch, i, m, s).rest == []
    ensures ReadField(sch, i, m, s).value.unknown == m.unknown
    ensures var r := ReadField(sch, i, m, s + PROBE);
            r.Got? ==> r.value.unknown == m.unknown && (r.rest == [] || r.rest == [0])
  {
    var f := sch.fields[i];
    SubmessageRest(sch, m, i, s);
    if ReadField(sch, i, m, s + PROBE).Got? {
      SubmessageRest(sch, m, i, s + PROBE);
    }
    if f.arity == Repeated {
      OpenElementSwallows(f, s);
    } else {
      OpenSubmessageSwallows(f, s);
    }
  }

  lemma {:induction false} OpenParseLosesProbe(sch: Schema, m: Msg, s: Bytes)
    requires WellFormed(sch) && Typed(sch, m)
    requires !Closed(sch, s) && Parse(sch, m, s).Some?
    ensures var p := Parse(sch, m, s + PROBE);
            p == None || p.value.unknown == Parse(sch, m, s).value.unknown
    decreases |s|
  {
    VarintExtends(s, 10, PROBE);
    var Got(tag, t) := ReadTag(s);
    RecordIsMerge(sch, m, tag, t);
    var i := FindTag(sch, tag);
    if i < |sch.fields| && !PrefixFits(sch.fields[i], t) {
      OpenRecordLosesProbe(sch, m, i, t);
      var r := ReadField(sch, i, m, t + PROBE);
      if r.Got? {
        ZeroByteFails(sch, r.value);
      }
    } else {
      RecordExtends(sch, m, tag, t, PROBE);
      var Got(m', rest) := ReadRecord(sch, m, tag, t);
      OpenParseLosesProbe(sch, m', rest);
    }
  }

  /** `s` followed by any parsable bytes parses to the merge of the two parts. */
  ghost predicate MergesWithEverySuffix(sch: Schema, s: Bytes)
    requires WellFormed(sch) && Parse(sch, Empty(sch), s).Some?
  {
    forall t: Bytes :: Parse(sch, Empty(sch), t).Some? ==>
      Parse(sch, Empty(sch), s + t)
      == MergeParsed(sch, Parse(sch, Empty(sch), s).value, Parse(sch, Empty(sch), t))
  }

  /** Exactly the closed encodings obey the concatenation law. */
  lemma ConcatenationMergesExactlyWhenClosed(sch: Schema, s: Bytes)
    requires WellFormed(sch) && Parse(sch, Empty(sch), s).Some?
    ensures MergesWithEverySuffix(sch, s) <==> Closed(sch, s)
  {
    if Closed(sch, s) {
      forall t: Bytes | Parse(sch, Empty(sch), t).Some?
        ensures Parse(sch, Empty(sch), s + t)
             == MergeParsed(sch, Parse(sch, Empty(sch), s).value, Parse(sch, Empty(sch), t))
      {
        ClosedConcatenationMerges(sch, s, t);
      }
    } else {
      OpenParseLosesProbe(sch, Empty(sch), s);
      ProbeIsUnknown(sch, Empty(sch));
      var whole := MergeParsed(sch, Parse(sch, Empty(sch), s).value, Parse(sch, Empty(sch), PROBE));
      assert |whole.value.unknown| == |Parse(sch, Empty(sch), s).value.unknown| + 1;
    }
  }

  /** Closed encodings of messages with no field in common may come in either order. */
  lemma RecordsCommute(sch: Schema, s: Bytes, t: Bytes)
    requires WellFormed(sch)
    requires Closed(sch, s) && Parse(sch, Empty(sch), s).Some?
    requires Closed(sch, t) && Parse(sch, Empty(sch), t).Some?
    requires Disjoint(sch, Parse(sch, Empty(sch), s).value, Parse(sch, Empty(sch), t).value)
    ensures Parse(sch, Empty(sch), s + t) == Parse(sch, Empty(sch), t + s)
  {
    ClosedConcatenationMerges(sch, s, t);
    ClosedConcatenationMerges(sch, t, s);
    MergeCommutesWhenDisjoint(sch, Parse(sch, Empty(sch), s).value, Parse(sch, Empty(sch), t).value);
  }
}
