/** Runs of the API of any generated class.  A run is a list of calls; the calls made through a pointer
    that mutable_x or add_x hands out, and those that build another message, are runs themselves. */
module StorageRuns {
  import opened Octets
  import opened Wire
  import opened Schemas
  import opened Codec
  import opened RecursionLimit
  import opened Storage
  import opened CodedStream
  import opened Intake
  import CachedSizes
  import Parser

  datatype Call =
    | SetNumber(i: nat, n: nat)
    | SetText(i: nat, b: Bytes)
    | ClearField(i: nat)
    | ChangeChild(i: nat, through: seq<Call>)
    | ReleaseChild(i: nat)
    | SetAllocated(i: nat, other: seq<Call>)
    | Add(i: nat, through: seq<Call>)
    | ChangeElement(i: nat, j: nat, through: seq<Call>)
    | RemoveLast(i: nat)
    | ClearAll
    | MergeFrom(other: seq<Call>)
    | CopyFrom(other: seq<Call>)
    | Swap(other: seq<Call>)
    | MergeFromStream(s: Bytes)
    | ParsePartialFromArray(s: Bytes)
    | ByteSize

  /** The class of `sch` has such a member, and its arguments are in range for a message that shows `m`.
      A call that is not possible is left out of a run. */
  predicate Possible(sch: Schema, m: Msg, c: Call)
    requires Typed(sch, m)
  {
    match c
    case SetNumber(i, n) => i < |sch.fields| && IsNumber(sch.fields[i]) && SlotTyped(sch.fields[i], [Num(n)])
    case SetText(i, b) => i < |sch.fields| && sch.fields[i].kind.BytesKind? && SlotTyped(sch.fields[i], [Str(b)])
    case ClearField(i) => i < |sch.fields|
    case ChangeChild(i, _) => i < |sch.fields| && IsChild(sch.fields[i])
    case ReleaseChild(i) => i < |sch.fields| && IsChild(sch.fields[i])
    case SetAllocated(i, _) => i < |sch.fields| && IsChild(sch.fields[i])
    case Add(i, _) => i < |sch.fields| && IsRepeated(sch.fields[i])
    case ChangeElement(i, j, _) => i < |sch.fields| && IsRepeated(sch.fields[i]) && j < |m.slots[i]|
    case RemoveLast(i) => i < |sch.fields| && IsRepeated(sch.fields[i]) && m.slots[i] != []
    case MergeFromStream(s) => |s| <= TOTAL_BYTES_LIMIT
    case ParsePartialFromArray(s) => |s| <= TOTAL_BYTES_LIMIT
    case _ => true
  }

  // ------------------------------------------------------------ meaning of a run

  /** The value after one call, or none if a parse in it fails. */
  ghost function After(sch: Schema, m: Msg, c: Call): (r: Option<Msg>)
    requires WellFormed(sch) && Typed(sch, m)
    ensures r.Some? ==> Typed(sch, r.value)
    decreases c
  {
    if !Possible(sch, m, c) then Some(m) else
    match c
    case SetNumber(i, n) => Some(SetSlot(sch, m, i, [Num(n)]))
    case SetText(i, b) => Some(SetSlot(sch, m, i, [Str(b)]))
    case ClearField(i) => Some(SetSlot(sch, m, i, []))
    case ReleaseChild(i) => Some(SetSlot(sch, m, i, []))
    case ChangeChild(i, calls) =>
      assert SlotTyped(sch.fields[i], m.slots[i]);
      PutSub(sch, m, i, [], AfterAll(sch.fields[i].kind.schema, Codec.Mutable(sch.fields[i], m.slots[i]), calls), [])
    case SetAllocated(i, calls) =>
      PutSub(sch, m, i, [], AfterAll(sch.fields[i].kind.schema, Empty(sch.fields[i].kind.schema), calls), [])
    case Add(i, calls) =>
      PutSub(sch, m, i, m.slots[i], AfterAll(sch.fields[i].kind.schema, Empty(sch.fields[i].kind.schema), calls), [])
    case ChangeElement(i, j, calls) =>
      assert SlotTyped(sch.fields[i], m.slots[i]) && ValueTyped(sch.fields[i].kind, m.slots[i][j]);
      PutSub(sch, m, i, m.slots[i][..j], AfterAll(sch.fields[i].kind.schema, m.slots[i][j].m, calls), m.slots[i][j + 1..])
    case RemoveLast(i) =>
      assert SlotTyped(sch.fields[i], m.slots[i]);
      Some(SetSlot(sch, m, i, m.slots[i][..|m.slots[i]| - 1]))
    case ClearAll => Some(Empty(sch))
    case MergeFrom(calls) =>
      (match AfterAll(sch, Empty(sch), calls)
       case None => None
       case Some(x) => Some(Merge(sch, m, x)))
    case CopyFrom(calls) => AfterAll(sch, Empty(sch), calls)
    case Swap(calls) => AfterAll(sch, Empty(sch), calls)
    case MergeFromStream(s) => (var r := ScanWithin(sch, m, s, RECURSION_LIMIT); if r.Failed? then None else Some(r.m))
    case ParsePartialFromArray(s) => ParseWithin(sch, Empty(sch), s, RECURSION_LIMIT)
    case ByteSize => Some(m)
  }

  /** The value after a run. */
  ghost function AfterAll(sch: Schema, m: Msg, calls: seq<Call>): (r: Option<Msg>)
    requires WellFormed(sch) && Typed(sch, m)
    ensures r.Some? ==> Typed(sch, r.value)
    decreases calls
  {
    if calls == [] then Some(m)
    else
      match After(sch, m, calls[0])
      case None => None
      case Some(x) => AfterAll(sch, x, calls[1..])
  }

  /** Field `i` with a submessage between what stays before and after it. */
  ghost function PutSub(sch: Schema, m: Msg, i: nat, before: seq<Value>, x: Option<Msg>, after: seq<Value>): (r: Option<Msg>)
    requires WellFormed(sch) && Typed(sch, m) && i < |sch.fields| && sch.fields[i].kind.MessageKind?
    requires sch.fields[i].arity == Repeated || before + after == []
    requires SlotTyped(sch.fields[i], before) && SlotTyped(sch.fields[i], after)
    requires x.Some? ==> Typed(sch.fields[i].kind.schema, x.value)
    ensures r.Some? ==> Typed(sch, r.value)
  {
    match x
    case None => None
    case Some(y) =>
      var vs := before + [Sub(y)] + after;
      assert forall k :: 0 <= k < |vs| ==> ValueTyped(sch.fields[i].kind, vs[k]);
      Some(SetSlot(sch, m, i, vs))
  }

  // --------------------------------------------------------- storage after a run

  /** Whether all parses of a call or a run succeed, and the storage that it leaves in either case. */
  datatype Outcome = Outcome(ok: bool, st: Store)

  function Do(sch: Schema, st: Store, c: Call): (r: Outcome)
    requires WellFormed(sch) && Valid(sch, st)
    ensures Valid(sch, r.st)
    decreases c, 1
  {
    if !Possible(sch, View(sch, st), c) then Outcome(true, st) else
    match c
    case SetNumber(i, n) => Outcome(true, Storage.SetNumber(sch, st, i, n))
    case SetText(i, b) => Outcome(true, Storage.SetText(sch, st, i, b))
    case ClearField(i) => Outcome(true, Storage.ClearField(sch, st, i))
    case ReleaseChild(i) => Outcome(true, Storage.Release(sch, st, i))
    case RemoveLast(i) => Outcome(true, Storage.RemoveLast(sch, st, i))
    case ClearAll => Outcome(true, Storage.Clear(sch, st))
    case ByteSize => Outcome(true, CachedSizes.Sized(sch, st))
    case MergeFromStream(s) => (var h := ScanInto(sch, st, s, RECURSION_LIMIT); Outcome(!h.Broken?, h.st))
    case ParsePartialFromArray(s) =>
      (var h := ScanInto(sch, Storage.Clear(sch, st), s, RECURSION_LIMIT); Outcome(h.AtEnd?, h.st))
    case MergeFrom(calls) => (var r := DoAll(sch, New(sch), calls); Outcome(r.ok, Storage.MergeFrom(sch, st, r.st)))
    case CopyFrom(calls) =>
      (var r := DoAll(sch, New(sch), calls); Outcome(r.ok, Storage.MergeFrom(sch, Storage.Clear(sch, st), r.st)))
    case Swap(calls) => DoAll(sch, New(sch), calls)
    case _ => DoInside(sch, st, c)
  }

  predicate Inside(c: Call) { c.ChangeChild? || c.SetAllocated? || c.Add? || c.ChangeElement? }

  /** The submessage or element that the calls of `c` go to. */
  function Target(sch: Schema, st: Store, c: Call): (x: Store)
    requires WellFormed(sch) && Valid(sch, st) && Inside(c) && Possible(sch, View(sch, st), c)
    ensures c.i < |sch.fields| && sch.fields[c.i].kind.MessageKind? && WellFormed(sch.fields[c.i].kind.schema)
    ensures Valid(sch.fields[c.i].kind.schema, x) && (Clean(sch, st) ==> Clean(sch.fields[c.i].kind.schema, x))
  {
    match c
    case ChangeChild(i, _) => Storage.Mutable(sch, st, i)
    case SetAllocated(i, _) => New(sch.fields[i].kind.schema)
    case Add(i, _) => Spare(sch, st, i)
    case ChangeElement(i, j, _) => ElementAt(sch, st, i, j)
  }

  function Through(c: Call): seq<Call>
    requires Inside(c)
  {
    if c.SetAllocated? then c.other else c.through
  }

  /** The storage with that submessage or element as `x`. */
  function PutBack(sch: Schema, st: Store, c: Call, x: Store): (r: Store)
    requires WellFormed(sch) && Valid(sch, st) && Inside(c) && Possible(sch, View(sch, st), c)
    requires Valid(sch.fields[c.i].kind.schema, x)
    ensures Valid(sch, r) && (Clean(sch, st) && Clean(sch.fields[c.i].kind.schema, x) ==> Clean(sch, r))
  {
    match c
    case ChangeChild(i, _) => PutChild(sch, st, i, x)
    case SetAllocated(i, _) => PutChild(sch, st, i, x)
    case Add(i, _) => Append(sch, st, i, x)
    case ChangeElement(i, j, _) => PutElement(sch, st, i, j, x)
  }

  function DoInside(sch: Schema, st: Store, c: Call): (r: Outcome)
    requires WellFormed(sch) && Valid(sch, st) && Inside(c) && Possible(sch, View(sch, st), c)
    ensures Valid(sch, r.st)
    decreases c, 0
  {
    var r := DoAll(sch.fields[c.i].kind.schema, Target(sch, st, c), Through(c));
    Outcome(r.ok, PutBack(sch, st, c, r.st))
  }

  function DoAll(sch: Schema, st: Store, calls: seq<Call>): (r: Outcome)
    requires WellFormed(sch) && Valid(sch, st)
    ensures Valid(sch, r.st)
    decreases calls, 0
  {
    if calls == [] then Outcome(true, st)
    else
      var first := Do(sch, st, calls[0]);
      var rest := DoAll(sch, first.st, calls[1..]);
      Outcome(first.ok && rest.ok, rest.st)
  }

  // ------------------------------------------------- the storage shows the meaning

  /** A run left its value behind, if no parse in it failed. */
  predicate Left(sch: Schema, r: Option<Msg>, o: Outcome)
    requires Valid(sch, o.st)
  {
    o.ok == r.Some? && (o.ok ==> r == Some(View(sch, o.st)))
  }

  lemma {:induction false} CallMeans(sch: Schema, st: Store, c: Call)
    requires WellFormed(sch) && Valid(sch, st)
    ensures Left(sch, After(sch, View(sch, st), c), Do(sch, st, c))
    decreases c, 1
  {
    hide Valid, View, Do, After;
    if !Possible(sch, View(sch, st), c) {
      ImpossibleCall(sch, st, c);
    } else if Inside(c) {
      CallInsideMeans(sch, st, c);
    } else if c.MergeFrom? || c.CopyFrom? || c.Swap? {
      CallWithMeans(sch, st, c);
    } else {
      PlainCallMeans(sch, st, c);
    }
  }

  lemma ImpossibleCall(sch: Schema, st: Store, c: Call)
    requires WellFormed(sch) && Valid(sch, st) && !Possible(sch, View(sch, st), c)
    ensures Do(sch, st, c) == Outcome(true, st) && After(sch, View(sch, st), c) == Some(View(sch, st))
  {
  }

  lemma InsideCall(sch: Schema, st: Store, c: Call)
    requires WellFormed(sch) && Valid(sch, st) && Inside(c) && Possible(sch, View(sch, st), c)
    ensures Do(sch, st, c) == DoInside(sch, st, c)
  {
    hide DoInside, Possible;
  }

  lemma PlainCallMeans(sch: Schema, st: Store, c: Call)
    requires WellFormed(sch) && Valid(sch, st) && Possible(sch, View(sch, st), c)
    requires !Inside(c) && !c.MergeFrom? && !c.CopyFrom? && !c.Swap?
    ensures Left(sch, After(sch, View(sch, st), c), Do(sch, st, c))
  {
    hide Valid, View;
    match c
    case ClearAll => BlankShowsEmpty(sch, Storage.Clear(sch, st));
    case MergeFromStream(s) => ScanIntoShows(sch, st, s, RECURSION_LIMIT);
    case ParsePartialFromArray(s) =>
      BlankShowsEmpty(sch, Storage.Clear(sch, st));
      ScanIntoShows(sch, Storage.Clear(sch, st), s, RECURSION_LIMIT);
    case _ =>
  }

  lemma {:induction false} CallWithMeans(sch: Schema, st: Store, c: Call)
    requires WellFormed(sch) && Valid(sch, st)
    requires c.MergeFrom? || c.CopyFrom? || c.Swap?
    ensures Left(sch, After(sch, View(sch, st), c), Do(sch, st, c))
    decreases c, 0
  {
    hide Valid, View;
    BlankShowsEmpty(sch, New(sch));
    RunMeans(sch, New(sch), c.other);
    var x := DoAll(sch, New(sch), c.other).st;
    MergeShows(sch, st, x);
    CopyShows(sch, st, x);
  }

  lemma {:induction false} CallInsideMeans(sch: Schema, st: Store, c: Call)
    requires WellFormed(sch) && Valid(sch, st) && Inside(c) && Possible(sch, View(sch, st), c)
    ensures Left(sch, After(sch, View(sch, st), c), Do(sch, st, c))
    decreases c, 0
  {
    hide Valid, View, Do, After, DoAll, AfterAll;
    var sub := sch.fields[c.i].kind.schema;
    BlankShowsEmpty(sub, New(sub));
    RunMeans(sub, Target(sch, st, c), Through(c));
    PutBackMeans(sch, st, c);
  }

  /** If the inner run leaves its value behind, so does the call. */
  lemma PutBackMeans(sch: Schema, st: Store, c: Call)
    requires WellFormed(sch) && Valid(sch, st) && Inside(c) && Possible(sch, View(sch, st), c)
    requires var (sub, x) := (sch.fields[c.i].kind.schema, Target(sch, st, c));
      Left(sub, AfterAll(sub, View(sub, x), Through(c)), DoAll(sub, x, Through(c)))
    ensures Left(sch, After(sch, View(sch, st), c), Do(sch, st, c))
  {
    hide Valid, View, Do, DoAll, AfterAll;
    InsideCall(sch, st, c);
    var sub := sch.fields[c.i].kind.schema;
    var vs, x := View(sch, st).slots[c.i], DoAll(sub, Target(sch, st, c), Through(c)).st;
    var v := Sub(View(sub, x));
    BlankShowsEmpty(sub, New(sub));
    if c.ChangeElement? {
      assert vs[c.j := v] == vs[..c.j] + [v] + vs[c.j + 1..];
    } else if c.Add? {
      assert vs + [v] + [] == vs + [v];
    } else {
      assert [] + [v] + [] == [v];
    }
  }

  /** The storage shows the value that the run means, if no parse in it failed. */
  lemma {:induction false} RunMeans(sch: Schema, st: Store, calls: seq<Call>)
    requires WellFormed(sch) && Valid(sch, st)
    ensures Left(sch, AfterAll(sch, View(sch, st), calls), DoAll(sch, st, calls))
    decreases calls, 0
  {
    hide Valid, View;
    if calls != [] {
      CallMeans(sch, st, calls[0]);
      RunMeans(sch, Do(sch, st, calls[0]).st, calls[1..]);
    }
  }

  // -------------------------------------------------------- marks of failed reads

  /** A parse in the call fails on an absent uint32, in an object that the call leaves in its place. */
  predicate CallStrays(sch: Schema, st: Store, c: Call)
    requires WellFormed(sch) && Valid(sch, st)
    decreases c, 1
  {
    Possible(sch, View(sch, st), c) &&
    if Inside(c) then RunStrays(sch.fields[c.i].kind.schema, Target(sch, st, c), Through(c))
    else
      match c
      case MergeFromStream(s) => ScanStrays(sch, View(sch, st), s, RECURSION_LIMIT)
      case ParsePartialFromArray(s) => ScanStrays(sch, Empty(sch), s, RECURSION_LIMIT)
      case Swap(calls) => RunStrays(sch, New(sch), calls)
      case _ => false
  }

  predicate RunStrays(sch: Schema, st: Store, calls: seq<Call>)
    requires WellFormed(sch) && Valid(sch, st)
    decreases calls, 0
  {
    calls != [] && (CallStrays(sch, st, calls[0]) || RunStrays(sch, Do(sch, st, calls[0]).st, calls[1..]))
  }

  lemma {:induction false} CallStaysClean(sch: Schema, st: Store, c: Call)
    requires WellFormed(sch) && Valid(sch, st) && Clean(sch, st) && !CallStrays(sch, st, c)
    ensures Clean(sch, Do(sch, st, c).st)
    decreases c, 1
  {
    hide Valid, View, Clean, Do;
    if !Possible(sch, View(sch, st), c) {
      ImpossibleCall(sch, st, c);
    } else if Inside(c) {
      RunStaysClean(sch.fields[c.i].kind.schema, Target(sch, st, c), Through(c));
      InsideCall(sch, st, c);
    } else {
      if c.Swap? { RunStaysClean(sch, New(sch), c.other); }
      PlainStaysClean(sch, st, c);
    }
  }

  lemma PlainStaysClean(sch: Schema, st: Store, c: Call)
    requires WellFormed(sch) && Valid(sch, st) && Clean(sch, st) && !CallStrays(sch, st, c)
    requires Possible(sch, View(sch, st), c) && !Inside(c)
    requires c.Swap? ==> Clean(sch, DoAll(sch, New(sch), c.other).st)
    ensures Clean(sch, Do(sch, st, c).st)
  {
    hide Valid, View, Clean, DoAll;
    match c
    case MergeFromStream(s) => ScanIntoStrays(sch, st, s, RECURSION_LIMIT);
    case ParsePartialFromArray(s) =>
      BlankShowsEmpty(sch, Storage.Clear(sch, st));
      ScanIntoStrays(sch, Storage.Clear(sch, st), s, RECURSION_LIMIT);
    case _ =>
  }

  /** In a run without such a failure every absent field stays default, every absent submessage and every
      kept element empty and default in all fields. */
  lemma {:induction false} RunStaysClean(sch: Schema, st: Store, calls: seq<Call>)
    requires WellFormed(sch) && Valid(sch, st) && Clean(sch, st) && !RunStrays(sch, st, calls)
    ensures Clean(sch, DoAll(sch, st, calls).st)
    decreases calls, 0
  {
    hide Valid, View, Clean;
    if calls != [] {
      CallStaysClean(sch, st, calls[0]);
      RunStaysClean(sch, Do(sch, st, calls[0]).st, calls[1..]);
    }
  }

  // ------------------------------------------------------------- running the API

  /** One call, with the parser and the size pass as they are implemented. */
  method Execute(sch: Schema, st0: Store, c: Call) returns (ok: bool, st: Store)
    requires WellFormed(sch) && Valid(sch, st0)
    ensures Outcome(ok, st) == Do(sch, st0, c)
    ensures Valid(sch, st) && Left(sch, After(sch, View(sch, st0), c), Outcome(ok, st))
    decreases c, 2
  {
    hide Valid, View, After, Do;
    CallMeans(sch, st0, c);
    if !Possible(sch, View(sch, st0), c) {
      ok, st := true, st0;
      ImpossibleCall(sch, st0, c);
    } else if Inside(c) {
      ok, st := ExecuteAll(sch.fields[c.i].kind.schema, Target(sch, st0, c), Through(c));
      st := PutBack(sch, st0, c, st);
      InsideCall(sch, st0, c);
    } else if c.MergeFrom? || c.CopyFrom? || c.Swap? {
      ok, st := ExecuteWith(sch, st0, c);
    } else {
      ok, st := ExecutePlain(sch, st0, c);
    }
  }

  /** A call that takes another message of the class. */
  method ExecuteWith(sch: Schema, st0: Store, c: Call) returns (ok: bool, st: Store)
    requires WellFormed(sch) && Valid(sch, st0)
    requires c.MergeFrom? || c.CopyFrom? || c.Swap?
    ensures Outcome(ok, st) == Do(sch, st0, c)
    decreases c, 1
  {
    hide Valid, View, AfterAll;
    ok, st := ExecuteAll(sch, New(sch), c.other);
    match c {
      case MergeFrom(_) => st := Storage.MergeFrom(sch, st0, st);
      case CopyFrom(_) => st := Storage.MergeFrom(sch, Storage.Clear(sch, st0), st);
      case Swap(_) =>
    }
  }

  /** Every other call. */
  method ExecutePlain(sch: Schema, st0: Store, c: Call) returns (ok: bool, st: Store)
    requires WellFormed(sch) && Valid(sch, st0) && Possible(sch, View(sch, st0), c)
    requires !Inside(c) && !c.MergeFrom? && !c.CopyFrom? && !c.Swap?
    ensures Outcome(ok, st) == Do(sch, st0, c)
  {
    hide Valid, View;
    ok := true;
    match c {
      case SetNumber(i, n) => st := Storage.SetNumber(sch, st0, i, n);
      case SetText(i, b) => st := Storage.SetText(sch, st0, i, b);
      case ClearField(i) => st := Storage.ClearField(sch, st0, i);
      case ReleaseChild(i) => st := Storage.Release(sch, st0, i);
      case RemoveLast(i) => st := Storage.RemoveLast(sch, st0, i);
      case ClearAll => st := Storage.Clear(sch, st0);
      case ByteSize =>
        var size;
        st, size := CachedSizes.SizePass(sch, st0);
      case MergeFromStream(s) =>
        var input := new CodedInputStream(s);
        ok, st := Parser.MergePartialFromCodedStream(sch, st0, input);
      case ParsePartialFromArray(s) => ok, st := Parser.ParsePartialFromArray(sch, st0, s);
    }
  }

  /** Every run, from any valid state. */
  method ExecuteAll(sch: Schema, st0: Store, calls: seq<Call>) returns (ok: bool, st: Store)
    requires WellFormed(sch) && Valid(sch, st0)
    ensures Outcome(ok, st) == DoAll(sch, st0, calls)
    ensures Valid(sch, st) && Left(sch, AfterAll(sch, View(sch, st0), calls), Outcome(ok, st))
    decreases calls, 0
  {
    hide Valid, View;
    RunMeans(sch, st0, calls);
    if calls == [] { return true, st0; }
    ok, st := Execute(sch, st0, calls[0]);
    var good;
    good, st := ExecuteAll(sch, st, calls[1..]);
    ok := ok && good;
  }

  /** Every run on a new message: the storage is valid, shows the value that the run means if no parse
      failed, and has a default in every absent field if none failed on an absent uint32. */
  method Build(sch: Schema, calls: seq<Call>) returns (ok: bool, st: Store)
    requires WellFormed(sch)
    ensures Valid(sch, st) && Left(sch, AfterAll(sch, Empty(sch), calls), Outcome(ok, st))
    ensures !RunStrays(sch, New(sch), calls) ==> Clean(sch, st)
  {
    hide Valid, View, Clean;
    BlankShowsEmpty(sch, New(sch));
    ok, st := ExecuteAll(sch, New(sch), calls);
    if !RunStrays(sch, New(sch), calls) { RunStaysClean(sch, New(sch), calls); }
  }
}
