/** The array serializer and the stream serializer of any generated class.  Both take every length
    prefix from the cached sizes, and both emit the same bytes. */
module Serializers {
  import opened Octets
  import opened Wire
  import opened Schemas
  import opened Codec
  import opened Storage
  import opened CachedSizes
  import opened Output
  import RoundTrip

  /** The payload of a scalar or string field. */
  function Scalar(f: Field, c: Cell): Bytes
    requires CellValid(f, c) && !f.kind.MessageKind?
  {
    match f.kind
    case EnumKind => WriteVarint(SignExtend(c.number))
    case Int32Kind => WriteVarint(SignExtend(c.number))
    case Fixed32Kind => WriteFixed32(c.number)
    case BoolKind => [c.number]
    case BytesKind => WriteString(c.text)
    case _ => WriteVarint(c.number)
  }

  // ----------------------------------------------------------------- to an array

  /** InternalSerializeWithCachedSizesToArray. */
  method ToArray(sch: Schema, st: Store, target: array<Byte>, at: nat) returns (end: nat)
    requires Valid(sch, st) && at + |WriteCached(sch, st)| <= target.Length
    modifies target
    ensures Wrote(old(target[..]), target[..], at, WriteCached(sch, st), end)
    decreases sch, 3
  {
    hide Valid, WriteCell;
    ghost var s0, cells, us := target[..], WriteCells(sch, st, 0), WriteUnknowns(st.unknown);
    ghost var head: Bytes := [];
    end := at;
    for i := 0 to |sch.fields|
      invariant Wrote(s0, target[..], at, head, end) && head + WriteCells(sch, st, i) == cells
    {
      CellAt(sch, st, i);
      ghost var s1, mid, x, rest := target[..], end, WriteCell(sch.fields[i], st.cells[i]), WriteCells(sch, st, i + 1);
      ConcatAssociative(head, x, rest);
      assert |head| + |x| + |rest| == |cells|;
      end := CellToArray(sch.fields[i], st.cells[i], target, end);
      WroteThen(s0, s1, target[..], at, head, mid, x, end);
      head := head + x;
    }
    ghost var s1, mid := target[..], end;
    assert head == cells;
    if st.unknown != [] { end := WriteUnknownsToArray(st.unknown, target, end); }
    WroteThen(s0, s1, target[..], at, cells, mid, us, end);
  }

  method CellToArray(f: Field, c: Cell, target: array<Byte>, at: nat) returns (end: nat)
    requires CellValid(f, c) && at + |WriteCell(f, c)| <= target.Length
    modifies target
    ensures Wrote(old(target[..]), target[..], at, WriteCell(f, c), end)
    decreases f, 2
  {
    end := at;
    match c {
      case Number(present, n) =>
        if present { end := WriteTaggedToArray(FieldTag(f), Scalar(f, c), target, at); }
      case Text(present, b) =>
        if present { end := WriteTaggedToArray(FieldTag(f), Scalar(f, c), target, at); }
      case Child(present, o) =>
        if present { end := ChildToArray(f, o.value, target, at); }
      case Elements(es, size) =>
        end := ElementsToArray(f, es[..size], target, at);
    }
  }

  /** InternalWriteMessageNoVirtualToArray: tag, cached size, message. */
  method ChildToArray(f: Field, x: Store, target: array<Byte>, at: nat) returns (end: nat)
    requires f.kind.MessageKind? && Valid(f.kind.schema, x) && at + |WriteChild(f, x)| <= target.Length
    modifies target
    ensures Wrote(old(target[..]), target[..], at, WriteChild(f, x), end)
    decreases f, 0
  {
    hide Valid, WriteCached;
    ghost var s0 := target[..];
    ghost var t, n, b := WriteVarint(FieldTag(f)), WriteVarint(x.cachedSize), WriteCached(f.kind.schema, x);
    var mid1 := WriteVarintToArray(FieldTag(f), target, at);
    ghost var s1 := target[..];
    var mid2 := WriteVarintToArray(x.cachedSize, target, mid1);
    ghost var s2 := target[..];
    end := ToArray(f.kind.schema, x, target, mid2);
    WroteThen(s1, s2, target[..], mid1, n, mid2, b, end);
    WroteThen(s0, s1, target[..], at, t, mid1, n + b, end);
  }

  method ElementsToArray(f: Field, es: seq<Store>, target: array<Byte>, at: nat) returns (end: nat)
    requires f.kind.MessageKind? && forall j :: 0 <= j < |es| ==> Valid(f.kind.schema, es[j])
    requires at + |WriteElements(f, es)| <= target.Length
    modifies target
    ensures Wrote(old(target[..]), target[..], at, WriteElements(f, es), end)
    decreases f, 1
  {
    hide Valid, WriteChild;
    ghost var s0, all := target[..], WriteElements(f, es);
    ghost var head: Bytes := [];
    end := at;
    for j := 0 to |es|
      invariant Wrote(s0, target[..], at, head, end) && head + WriteElements(f, es[j..]) == all
    {
      ghost var s1, mid, x, rest := target[..], end, WriteChild(f, es[j]), WriteElements(f, es[j + 1..]);
      assert es[j..][0] == es[j] && es[j..][1..] == es[j + 1..];
      ConcatAssociative(head, x, rest);
      assert |head| + |x| + |rest| == |all|;
      end := ChildToArray(f, es[j], target, end);
      WroteThen(s0, s1, target[..], at, head, mid, x, end);
      head := head + x;
    }
    assert head == all;
  }

  // ----------------------------------------------------------------- to a stream

  /** With exact sizes a cached size is the length of what is written behind it. */
  lemma CachedSizeIsLength(sch: Schema, x: Store)
    requires WellFormed(sch) && Valid(sch, x) && Exact(sch, x) && Writable(sch, View(sch, x))
    ensures |WriteCached(sch, x)| == x.cachedSize
  {
    CachedIsSerialize(sch, x);
    RoundTrip.ByteSizeIsLength(sch, View(sch, x));
  }

  /** SerializeWithCachedSizes. */
  method ToStream(sch: Schema, st: Store, output: CodedOutputStream)
    requires WellFormed(sch) && Valid(sch, st) && Exact(sch, st) && Writable(sch, View(sch, st))
    modifies output
    ensures output.bytes == old(output.bytes) + WriteCached(sch, st)
    decreases sch, 3
  {
    hide Valid, View, WriteCell, Exact, Writable;
    ghost var s, cells := output.bytes, WriteCells(sch, st, 0);
    ghost var head: Bytes := [];
    for i := 0 to |sch.fields|
      invariant output.bytes == s + head && head + WriteCells(sch, st, i) == cells
    {
      ReadyAt(sch, st, i);
      ghost var x := WriteCell(sch.fields[i], st.cells[i]);
      ConcatAssociative(head, x, WriteCells(sch, st, i + 1));
      CellToStream(sch.fields[i], st.cells[i], output);
      ConcatAssociative(s, head, x);
      head := head + x;
    }
    assert head == cells;
    if st.unknown != [] { output.WriteUnknowns(st.unknown); }
    ConcatAssociative(s, cells, WriteUnknowns(st.unknown));
  }

  /** A field whose submessages can be written from their cached sizes. */
  predicate CellReady(f: Field, c: Cell) {
    CellValid(f, c) && ExactCell(f, c) && ValuesWritable(f.kind, ViewCell(f, c))
    && (f.kind.MessageKind? ==> WellFormed(f.kind.schema))
  }

  predicate ChildReady(sch: Schema, x: Store) {
    WellFormed(sch) && Valid(sch, x) && Exact(sch, x) && Writable(sch, View(sch, x))
  }

  lemma ReadyAt(sch: Schema, st: Store, i: nat)
    requires WellFormed(sch) && Valid(sch, st) && Exact(sch, st) && Writable(sch, View(sch, st)) && i < |sch.fields|
    ensures i < |st.cells| && CellReady(sch.fields[i], st.cells[i])
  {
    assert ValuesWritable(sch.fields[i].kind, View(sch, st).slots[i]);
  }

  lemma ElementsReady(f: Field, c: Cell)
    requires CellReady(f, c) && c.Elements?
    ensures c.size <= |c.elements| && f.kind.MessageKind?
    ensures forall j :: 0 <= j < c.size ==> ChildReady(f.kind.schema, c.elements[j])
  {
    forall j | 0 <= j < c.size ensures ChildReady(f.kind.schema, c.elements[j]) {
      assert ViewCell(f, c)[j] == Sub(View(f.kind.schema, c.elements[j])) && ValueWritable(f.kind, ViewCell(f, c)[j]);
    }
  }

  lemma PresentReady(f: Field, c: Cell)
    requires CellReady(f, c) && c.Child? && c.present
    ensures c.owned.Some? && f.kind.MessageKind? && ChildReady(f.kind.schema, c.owned.value)
  {
    assert ViewCell(f, c)[0] == Sub(View(f.kind.schema, c.owned.value)) && ValueWritable(f.kind, ViewCell(f, c)[0]);
  }

  method CellToStream(f: Field, c: Cell, output: CodedOutputStream)
    requires CellReady(f, c)
    modifies output
    ensures output.bytes == old(output.bytes) + WriteCell(f, c)
    decreases f, 2
  {
    match c {
      case Number(present, n) =>
        if present { output.WriteTagged(FieldTag(f), Scalar(f, c)); }
      case Text(present, b) =>
        if present { output.WriteTagged(FieldTag(f), Scalar(f, c)); }
      case Child(present, o) =>
        if present {
          PresentReady(f, c);
          ChildToStream(f, o.value, output);
        }
      case Elements(es, size) =>
        ElementsReady(f, c);
        ElementsToStream(f, es[..size], output);
    }
  }

  /** WriteMessageMaybeToArray: tag, cached size, message, which goes straight into the stream's buffer if
      that has room for all of it. */
  method ChildToStream(f: Field, x: Store, output: CodedOutputStream)
    requires f.kind.MessageKind? && ChildReady(f.kind.schema, x)
    modifies output
    ensures output.bytes == old(output.bytes) + WriteChild(f, x)
    decreases f, 0
  {
    hide Valid, WriteCached, Exact, Writable, View;
    ghost var s := output.bytes;
    ghost var t, n, b := WriteVarint(FieldTag(f)), WriteVarint(x.cachedSize), WriteCached(f.kind.schema, x);
    output.WriteVarint(FieldTag(f));
    output.WriteVarint(x.cachedSize);
    var target := output.GetDirectBufferForNBytesAndAdvance(x.cachedSize);
    if target != null {
      CachedSizeIsLength(f.kind.schema, x);
      var end := ToArray(f.kind.schema, x, target, 0);
      assert target[..] == target[0..end] == b;
      output.Filled(target);
    } else {
      ToStream(f.kind.schema, x, output);
    }
    assert s + t + n + b == s + (t + (n + b));
  }

  method ElementsToStream(f: Field, es: seq<Store>, output: CodedOutputStream)
    requires f.kind.MessageKind?
    requires forall j :: 0 <= j < |es| ==> Valid(f.kind.schema, es[j]) && ChildReady(f.kind.schema, es[j])
    modifies output
    ensures output.bytes == old(output.bytes) + WriteElements(f, es)
    decreases f, 1
  {
    hide Valid, WriteChild;
    ghost var s, all := output.bytes, WriteElements(f, es);
    ghost var head: Bytes := [];
    for j := 0 to |es|
      invariant output.bytes == s + head && head + WriteElements(f, es[j..]) == all
    {
      ghost var x := WriteChild(f, es[j]);
      assert es[j..][0] == es[j] && es[j..][1..] == es[j + 1..];
      ConcatAssociative(head, x, WriteElements(f, es[j + 1..]));
      ChildToStream(f, es[j], output);
      ConcatAssociative(s, head, x);
      head := head + x;
    }
    assert head == all;
  }

  // --------------------------------------------------------------- entry points

  /** SerializePartialToArray: the size pass, and then one pass that fills the caller's buffer exactly up
      to the computed size. */
  method SerializePartialToArray(sch: Schema, st: Store, data: array<Byte>, size: nat) returns (ok: bool, r: Store)
    requires WellFormed(sch) && Valid(sch, st) && Writable(sch, View(sch, st)) && size <= data.Length
    requires ByteSize(sch, View(sch, st)) <= INT_MAX
    modifies data
    ensures r == Sized(sch, st)
    ensures Valid(sch, r) && View(sch, r) == View(sch, st) && Exact(sch, r)
    ensures ok == (|Serialize(sch, View(sch, st))| <= size)
    ensures data[..] == if ok then Serialize(sch, View(sch, st)) + old(data[|Serialize(sch, View(sch, st))|..]) else old(data[..])
  {
    hide Valid, View, Exact, Writable, Sized, ByteSize;
    var byteSize;
    r, byteSize := SizePass(sch, st);
    RoundTrip.ByteSizeIsLength(sch, View(sch, st));
    if size < byteSize { return false, r; }
    CachedIsSerialize(sch, r);
    var end := ToArray(sch, r, data, 0);
    assert end == byteSize;
    ok := true;
    assert data[end..] == old(data[end..]);
  }

  /** SerializePartialToCodedStream: into the stream's buffer if that has room for the whole message. */
  method SerializePartialToStream(sch: Schema, st: Store, output: CodedOutputStream) returns (r: Store)
    requires WellFormed(sch) && Valid(sch, st) && Writable(sch, View(sch, st)) && ByteSize(sch, View(sch, st)) <= INT_MAX
    modifies output
    ensures r == Sized(sch, st)
    ensures Valid(sch, r) && View(sch, r) == View(sch, st) && Exact(sch, r)
    ensures output.bytes == old(output.bytes) + Serialize(sch, View(sch, st))
  {
    hide Valid, View, Exact, Writable, Sized, ByteSize;
    ghost var before := output.bytes;
    var byteSize;
    r, byteSize := SizePass(sch, st);
    CachedIsSerialize(sch, r);
    RoundTrip.ByteSizeIsLength(sch, View(sch, st));
    var buffer := output.GetDirectBufferForNBytesAndAdvance(byteSize);
    if buffer != null {
      var end := ToArray(sch, r, buffer, 0);
      assert end == byteSize;
      assert buffer[..] == buffer[0..end];
      output.Filled(buffer);
    } else {
      ToStream(sch, r, output);
      assert |output.bytes| - |before| == byteSize;
    }
  }
}
