/** The size pass, which leaves in every object the length that serialization will write in front of
    it, and the two serializers, which take each length prefix from there. */
module CachedSizes {
  import opened Octets
  import opened Wire
  import opened Schemas
  import opened Codec
  import opened Storage
  import opened Output
  import RoundTrip

  /** Every cached size that a serializer of this store takes a prefix from is the size of the value. */
  predicate Exact(sch: Schema, st: Store)
    requires Valid(sch, st)
    decreases sch, 1
  {
    st.cachedSize == ByteSize(sch, View(sch, st)) && forall i :: 0 <= i < |sch.fields| ==> ExactCell(sch.fields[i], st.cells[i])
  }

  predicate ExactCell(f: Field, c: Cell)
    requires CellValid(f, c)
    decreases f, 0
  {
    match c
    case Child(present, o) => present ==> Exact(f.kind.schema, o.value)
    case Elements(es, size) => forall j :: 0 <= j < size ==> Exact(f.kind.schema, es[j])
    case _ => true
  }

  // ------------------------------------------------------------------- writing

  /** What the serializers emit: known fields in order, each submessage behind its cached size. */
  function WriteCached(sch: Schema, st: Store): Bytes
    requires Valid(sch, st)
    decreases sch, 3
  {
    WriteCells(sch, st, 0) + WriteUnknowns(st.unknown)
  }

  function WriteCells(sch: Schema, st: Store, i: nat): Bytes
    requires Valid(sch, st) && i <= |sch.fields|
    decreases sch, 2, |sch.fields| - i
  {
    if i == |sch.fields| then [] else WriteCell(sch.fields[i], st.cells[i]) + WriteCells(sch, st, i + 1)
  }

  function WriteCell(f: Field, c: Cell): Bytes
    requires CellValid(f, c)
    decreases f, 2
  {
    match c
    case Number(present, n) => if present then WriteValue(f, Num(n)) else []
    case Text(present, b) => if present then WriteValue(f, Str(b)) else []
    case Child(present, o) => if present then WriteChild(f, o.value) else []
    case Elements(es, size) => WriteElements(f, es[..size])
  }

  function WriteChild(f: Field, x: Store): Bytes
    requires f.kind.MessageKind? && Valid(f.kind.schema, x)
    decreases f, 0
  {
    WriteVarint(FieldTag(f)) + (WriteVarint(x.cachedSize) + WriteCached(f.kind.schema, x))
  }

  function WriteElements(f: Field, es: seq<Store>): Bytes
    requires f.kind.MessageKind? && forall j :: 0 <= j < |es| ==> Valid(f.kind.schema, es[j])
    decreases f, 1, |es|
  {
    if es == [] then [] else WriteChild(f, es[0]) + WriteElements(f, es[1..])
  }

  /** With exact sizes in place the serializers emit the serialization of the value. */
  lemma {:induction false} CachedIsSerialize(sch: Schema, st: Store)
    requires WellFormed(sch) && Valid(sch, st) && Exact(sch, st) && Writable(sch, View(sch, st))
    ensures WriteCached(sch, st) == Serialize(sch, View(sch, st))
    decreases sch, 4
  {
    CachedCells(sch, st, 0);
  }

  lemma {:induction false} CachedCells(sch: Schema, st: Store, i: nat)
    requires WellFormed(sch) && Valid(sch, st) && Exact(sch, st) && Writable(sch, View(sch, st)) && i <= |sch.fields|
    ensures WriteCells(sch, st, i) == WriteFields(sch, View(sch, st), i)
    decreases sch, 3, |sch.fields| - i
  {
    if i < |sch.fields| {
      assert ValuesWritable(sch.fields[i].kind, View(sch, st).slots[i]);
      CachedCell(sch, i, st.cells[i]);
      CachedCells(sch, st, i + 1);
    }
  }

  lemma {:induction false} CachedCell(sch: Schema, i: nat, c: Cell)
    requires WellFormed(sch) && i < |sch.fields| && CellValid(sch.fields[i], c) && ExactCell(sch.fields[i], c)
    requires ValuesWritable(sch.fields[i].kind, ViewCell(sch.fields[i], c))
    ensures WriteCell(sch.fields[i], c) == WriteSlot(sch.fields[i], ViewCell(sch.fields[i], c))
    decreases sch, 2
  {
    var f, vs := sch.fields[i], ViewCell(sch.fields[i], c);
    match c
    case Number(_, _) =>
    case Text(_, _) =>
    case Child(present, o) =>
      if present {
        assert ValueWritable(f.kind, vs[0]);
        CachedChild(sch, i, o.value);
      }
    case Elements(es, size) =>
      assert vs == ViewElements(f, es[..size]);
      CachedElements(sch, i, es[..size]);
  }

  /** The values of a list of elements. */
  function ViewElements(f: Field, es: seq<Store>): seq<Value>
    requires f.kind.MessageKind? && forall j :: 0 <= j < |es| ==> Valid(f.kind.schema, es[j])
  {
    seq(|es|, j requires 0 <= j < |es| => Sub(View(f.kind.schema, es[j])))
  }

  lemma {:induction false} CachedChild(sch: Schema, i: nat, x: Store)
    requires WellFormed(sch) && i < |sch.fields| && sch.fields[i].kind.MessageKind?
    requires Valid(sch.fields[i].kind.schema, x) && Exact(sch.fields[i].kind.schema, x)
    requires ValueWritable(sch.fields[i].kind, Sub(View(sch.fields[i].kind.schema, x)))
    ensures WriteChild(sch.fields[i], x) == WriteValue(sch.fields[i], Sub(View(sch.fields[i].kind.schema, x)))
    decreases sch, 0
  {
    var sub := sch.fields[i].kind.schema;
    CachedIsSerialize(sub, x);
    RoundTrip.ByteSizeIsLength(sub, View(sub, x));
  }

  lemma {:induction false} CachedElements(sch: Schema, i: nat, es: seq<Store>)
    requires WellFormed(sch) && i < |sch.fields| && sch.fields[i].kind.MessageKind?
    requires forall j :: 0 <= j < |es| ==> Valid(sch.fields[i].kind.schema, es[j]) && Exact(sch.fields[i].kind.schema, es[j])
    requires ValuesWritable(sch.fields[i].kind, ViewElements(sch.fields[i], es))
    ensures WriteElements(sch.fields[i], es) == WriteSlot(sch.fields[i], ViewElements(sch.fields[i], es))
    decreases sch, 1, |es|
  {
    if es != [] {
      var f, vs := sch.fields[i], ViewElements(sch.fields[i], es);
      assert ValueWritable(f.kind, vs[0]);
      assert vs[1..] == ViewElements(f, es[1..]);
      CachedChild(sch, i, es[0]);
      CachedElements(sch, i, es[1..]);
    }
  }

  // ----------------------------------------------------------------- size pass

  /** The storage after the size pass: exact sizes in every present submessage and element, and nothing
      else changed. */
  function Sized(sch: Schema, st: Store): (r: Store)
    requires Valid(sch, st)
    ensures Valid(sch, r) && View(sch, r) == View(sch, st) && Exact(sch, r)
    ensures Clean(sch, r) <==> Clean(sch, st)
    decreases sch, 1
  {
    var r := Store(seq(|sch.fields|, i requires 0 <= i < |sch.fields| => SizedCell(sch.fields[i], st.cells[i])),
                   st.unknown, ByteSize(sch, View(sch, st)));
    assert View(sch, r).slots == View(sch, st).slots;
    assert forall i :: 0 <= i < |sch.fields|
             ==> (CleanCell(sch.fields[i], r.cells[i]) <==> CleanCell(sch.fields[i], st.cells[i]));
    r
  }

  function SizedCell(f: Field, c: Cell): (r: Cell)
    requires CellValid(f, c)
    ensures CellValid(f, r) && ViewCell(f, r) == ViewCell(f, c) && ExactCell(f, r)
    ensures CleanCell(f, r) <==> CleanCell(f, c)
    decreases f, 0
  {
    match c
    case Child(present, o) => if present then Child(true, Some(Sized(f.kind.schema, o.value))) else c
    case Elements(es, size) =>
      var r := Elements(seq(|es|, j requires 0 <= j < |es| => if j < size then Sized(f.kind.schema, es[j]) else es[j]), size);
      assert forall j :: 0 <= j < |es| ==> (Clean(f.kind.schema, r.elements[j]) <==> Clean(f.kind.schema, es[j]));
      r
    case _ => c
  }

  /** ByteSize: the sizes of the fields that are present are added up, and the sum is stored. */
  method SizePass(sch: Schema, st: Store) returns (r: Store, size: nat)
    requires Valid(sch, st)
    ensures r == Sized(sch, st)
    ensures size == r.cachedSize == ByteSize(sch, View(sch, st))
    decreases sch, 1
  {
    hide Valid, View, Exact, Clean, Sized, SizedCell, CellValid, ViewCell, SlotSize, ByteSize;
    ghost var m := View(sch, st);
    UnknownShown(sch, st);
    SumOfFields(sch, m);
    var cells := st.cells;
    size := 0;
    for i := 0 to |sch.fields|
      invariant |cells| == |st.cells| == |sch.fields|
      invariant forall j :: 0 <= j < i
                  ==> CellValid(sch.fields[j], st.cells[j]) && cells[j] == SizedCell(sch.fields[j], st.cells[j])
      invariant forall j :: i <= j < |cells| ==> cells[j] == st.cells[j]
      invariant size + FieldsSize(sch, m, i) == FieldsSize(sch, m, 0)
    {
      CellShown(sch, st, i);
      var c, n := SizeCell(sch.fields[i], cells[i]);
      cells := cells[i := c];
      size := size + n;
    }
    if st.unknown != [] { size := size + UnknownsSize(st.unknown); }
    r := Store(cells, st.unknown, size);
    AllSized(sch, st, r);
  }

  lemma SumOfFields(sch: Schema, m: Msg)
    requires Typed(sch, m)
    ensures ByteSize(sch, m) == FieldsSize(sch, m, 0) + UnknownsSize(m.unknown) && FieldsSize(sch, m, |sch.fields|) == 0
  {
  }

  lemma AllSized(sch: Schema, st: Store, r: Store)
    requires Valid(sch, st) && |r.cells| == |sch.fields|
    requires forall j :: 0 <= j < |sch.fields|
               ==> CellValid(sch.fields[j], st.cells[j]) && r.cells[j] == SizedCell(sch.fields[j], st.cells[j])
    requires r.unknown == st.unknown && r.cachedSize == ByteSize(sch, View(sch, st))
    ensures r == Sized(sch, st)
  {
    assert r.cells == Sized(sch, st).cells;
  }

  lemma CellShown(sch: Schema, st: Store, i: nat)
    requires Valid(sch, st) && i < |sch.fields|
    ensures i < |st.cells| && CellValid(sch.fields[i], st.cells[i])
    ensures View(sch, st).slots[i] == ViewCell(sch.fields[i], st.cells[i])
  {
  }

  lemma UnknownShown(sch: Schema, st: Store)
    requires Valid(sch, st)
    ensures View(sch, st).unknown == st.unknown && |st.cells| == |sch.fields|
  {
  }

  method SizeCell(f: Field, c: Cell) returns (r: Cell, size: nat)
    requires CellValid(f, c)
    ensures r == SizedCell(f, c) && size == SlotSize(f, ViewCell(f, c))
    decreases f, 0
  {
    r, size := c, 0;
    ghost var vs := ViewCell(f, c);
    match c {
      case Number(present, n) =>
        if present { size := ValueSize(f, Num(n)); }
        OneOrNone(f, vs);
      case Text(present, b) =>
        if present { size := ValueSize(f, Str(b)); }
        OneOrNone(f, vs);
      case Child(present, o) =>
        OneOrNone(f, vs);
        if present {
          var x, n := SizePass(f.kind.schema, o.value);
          r, size := Child(true, Some(x)), 1 + DelimitedSize(n);
        }
      case Elements(es, n) =>
        r, size := SizeElements(f, c);
    }
  }

  lemma OneOrNone(f: Field, vs: seq<Value>)
    requires ValuesTyped(f.kind, vs) && |vs| <= 1
    ensures SlotSize(f, vs) == if vs == [] then 0 else ValueSize(f, vs[0])
  {
    if vs != [] {
      assert vs[1..] == [];
    }
  }

  /** One tag byte for each element, and each element behind its length. */
  method SizeElements(f: Field, c: Cell) returns (r: Cell, size: nat)
    requires IsRepeated(f) && CellValid(f, c)
    ensures r == SizedCell(f, c) && size == SlotSize(f, ViewCell(f, c))
    decreases f, 0, 0
  {
    hide Valid, View, Exact, ByteSize, Clean;
    ghost var vs := ViewCell(f, c);
    var es := c.elements;
    size := c.size;
    for j := 0 to c.size
      invariant |es| == |c.elements|
      invariant forall k :: 0 <= k < j ==> es[k] == Sized(f.kind.schema, c.elements[k])
      invariant forall k :: j <= k < |es| ==> es[k] == c.elements[k]
      invariant size + SlotSize(f, vs[j..]) == SlotSize(f, vs) + c.size - j
    {
      var x, n := SizePass(f.kind.schema, es[j]);
      assert vs[j..][0] == vs[j] && vs[j..][1..] == vs[j + 1..];
      es := es[j := x];
      size := size + DelimitedSize(n);
    }
    assert vs[c.size..] == [];
    r := Elements(es, c.size);
    assert r.elements == SizedCell(f, c).elements;
  }
}
