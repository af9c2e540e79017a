/** The state behind a generated class: presence bits, stored scalars and strings, owned submessages
    through pointers that may be null, repeated fields that keep their cleared elements for reuse,
    and a cached size.  A message value is what such a state shows.  Every operation keeps `Valid`: what
    is absent is default or empty, except that a uint32 may hold what a failed read has left in it.
    Every operation but a parse also keeps `Clean`: no field holds that. */
module Storage {
  import opened Octets
  import opened Wire
  import opened Schemas
  import opened Codec

  datatype Cell =
    | Number(present: bool, number: nat)
    | Text(present: bool, text: Bytes)
    | Child(present: bool, owned: Option<Store>)
    | Elements(elements: seq<Store>, size: nat)

  datatype Store = Store(cells: seq<Cell>, unknown: seq<Unknown>, cachedSize: nat)

  function DefaultNumber(k: Kind): nat { if k.EnumKind? then 10001 else 0 }

  /** What a read of a uint32 stores when it fails. */
  const STRAY: nat := TWO32 - 1

  /** What the number of an absent field can be. */
  predicate AbsentNumber(k: Kind, n: nat) { n == DefaultNumber(k) || (k.UInt32Kind? && n == STRAY) }

  /** Nothing is present. */
  predicate Blank(st: Store) {
    st.unknown == [] && forall i :: 0 <= i < |st.cells| ==> BlankCell(st.cells[i])
  }

  predicate BlankCell(c: Cell) {
    match c
    case Number(present, _) => !present
    case Text(present, _) => !present
    case Child(present, _) => !present
    case Elements(_, size) => size == 0
  }

  /** A store of the class of `sch`: an absent string is empty, an absent scalar holds its default or, if
      it is a uint32, the mark of a failed read; a present submessage is allocated, an absent one is null
      or blank, and so are the cleared elements of a repeated field. */
  predicate Valid(sch: Schema, st: Store)
    decreases sch, 1
  {
    |st.cells| == |sch.fields| && forall i :: 0 <= i < |sch.fields| ==> CellValid(sch.fields[i], st.cells[i])
  }

  predicate CellValid(f: Field, c: Cell)
    decreases f, 1
  {
    if f.kind.MessageKind? then
      if f.arity == Repeated then
        && c.Elements? && c.size <= |c.elements|
        && forall j :: 0 <= j < |c.elements| ==> Valid(f.kind.schema, c.elements[j]) && (j >= c.size ==> Blank(c.elements[j]))
      else
        && c.Child? && (c.present ==> c.owned.Some?)
        && (c.owned.Some? ==> Valid(f.kind.schema, c.owned.value) && (!c.present ==> Blank(c.owned.value)))
    else
      && f.arity != Repeated
      && if f.kind.BytesKind? then c.Text? && |c.text| <= INT_MAX && (!c.present ==> c.text == [])
         else c.Number? && ValueTyped(f.kind, Num(c.number)) && (!c.present ==> AbsentNumber(f.kind, c.number))
  }

  /** Every absent number is its default, here, in all allocated submessages and in all kept elements. */
  predicate Clean(sch: Schema, st: Store)
    requires Valid(sch, st)
    decreases sch, 1
  {
    forall i :: 0 <= i < |sch.fields| ==> CleanCell(sch.fields[i], st.cells[i])
  }

  predicate CleanCell(f: Field, c: Cell)
    requires CellValid(f, c)
    decreases f, 0
  {
    match c
    case Number(present, n) => !present ==> n == DefaultNumber(f.kind)
    case Text(_, _) => true
    case Child(_, o) => o.Some? ==> Clean(f.kind.schema, o.value)
    case Elements(es, _) => forall j :: 0 <= j < |es| ==> Clean(f.kind.schema, es[j])
  }

  /** The message value that a store shows. */
  function View(sch: Schema, st: Store): (m: Msg)
    requires Valid(sch, st)
    ensures Typed(sch, m)
    decreases sch, 1
  {
    Msg(seq(|sch.fields|, i requires 0 <= i < |sch.fields| => ViewCell(sch.fields[i], st.cells[i])), st.unknown)
  }

  function ViewCell(f: Field, c: Cell): (vs: seq<Value>)
    requires CellValid(f, c)
    ensures SlotTyped(f, vs) && (vs == [] <==> BlankCell(c))
    decreases f, 0
  {
    match c
    case Number(present, n) => if present then [Num(n)] else []
    case Text(present, b) => if present then [Str(b)] else []
    case Child(present, o) => if present then [Sub(View(f.kind.schema, o.value))] else []
    case Elements(es, size) => seq(size, j requires 0 <= j < size => Sub(View(f.kind.schema, es[j])))
  }

  /** Blank stores are those that show the empty message. */
  lemma BlankShowsEmpty(sch: Schema, st: Store)
    requires Valid(sch, st)
    ensures Blank(st) <==> View(sch, st) == Empty(sch)
  {
    var m, e := View(sch, st), Empty(sch);
    forall i | 0 <= i < |st.cells| ensures m.slots[i] == [] <==> BlankCell(st.cells[i]) {
      assert CellValid(sch.fields[i], st.cells[i]);
    }
    assert forall i :: 0 <= i < |st.cells| ==> e.slots[i] == [];
    if Blank(st) {
      assert m.slots == e.slots;
    }
  }

  lemma CellAt(sch: Schema, st: Store, i: nat)
    requires Valid(sch, st) && i < |sch.fields|
    ensures i < |st.cells| && CellValid(sch.fields[i], st.cells[i])
  {
  }

  // --------------------------------------------------------------- single fields

  function WithCell(sch: Schema, st: Store, i: nat, c: Cell): (r: Store)
    requires Valid(sch, st) && i < |sch.fields| && CellValid(sch.fields[i], c)
    ensures Valid(sch, r) && View(sch, r) == SetSlot(sch, View(sch, st), i, ViewCell(sch.fields[i], c))
    ensures Clean(sch, st) && CleanCell(sch.fields[i], c) ==> Clean(sch, r)
  {
    var r := st.(cells := st.cells[i := c]);
    assert View(sch, r).slots == View(sch, st).slots[i := ViewCell(sch.fields[i], c)];
    r
  }

  function NewCell(f: Field): (c: Cell)
    requires f.arity == Repeated ==> f.kind.MessageKind?
    ensures CellValid(f, c) && BlankCell(c) && CleanCell(f, c)
  {
    if f.kind.MessageKind? then if f.arity == Repeated then Elements([], 0) else Child(false, None)
    else if f.kind.BytesKind? then Text(false, [])
    else Number(false, DefaultNumber(f.kind))
  }

  /** The constructor. */
  function New(sch: Schema): (st: Store)
    requires WellFormed(sch)
    ensures Valid(sch, st) && Blank(st) && Clean(sch, st)
  {
    Store(seq(|sch.fields|, i requires 0 <= i < |sch.fields| => NewCell(sch.fields[i])), [], 0)
  }

  /** Clear.  Scalars are reset when any field is present, and in a class of one field always; strings and
      submessages when they are present themselves.  An allocated submessage stays allocated, and so do the
      elements of a repeated field. */
  function Clear(sch: Schema, st: Store): (r: Store)
    requires Valid(sch, st)
    ensures Valid(sch, r) && Blank(r) && (Clean(sch, st) ==> Clean(sch, r))
    decreases sch, 1
  {
    var cells := seq(|sch.fields|, i requires 0 <= i < |sch.fields| =>
                       if Resets(sch, st) then ClearCell(sch.fields[i], st.cells[i]) else st.cells[i]);
    Store(cells, [], st.cachedSize)
  }

  /** Clear goes through the fields. */
  predicate Resets(sch: Schema, st: Store) {
    |sch.fields| == 1 || exists i :: 0 <= i < |st.cells| && !BlankCell(st.cells[i])
  }

  function ClearCell(f: Field, c: Cell): (r: Cell)
    requires CellValid(f, c)
    ensures CellValid(f, r) && BlankCell(r) && (CleanCell(f, c) ==> CleanCell(f, r))
    decreases f, 0
  {
    match c
    case Number(_, _) => Number(false, DefaultNumber(f.kind))
    case Text(present, b) => Text(false, if present then [] else b)
    case Child(present, o) => Child(false, if present then Some(Clear(f.kind.schema, o.value)) else o)
    case Elements(es, size) =>
      Elements(seq(|es|, j requires 0 <= j < |es| => if j < size then Clear(f.kind.schema, es[j]) else es[j]), 0)
  }

  /** clear_x: the string and an allocated submessage are emptied whether present or not. */
  function ClearField(sch: Schema, st: Store, i: nat): (r: Store)
    requires Valid(sch, st) && i < |sch.fields|
    ensures Valid(sch, r) && View(sch, r) == SetSlot(sch, View(sch, st), i, [])
    ensures Clean(sch, st) ==> Clean(sch, r)
  {
    var f, c := sch.fields[i], st.cells[i];
    assert CellValid(f, c);
    assert Clean(sch, st) ==> CleanCell(sch.fields[i], st.cells[i]);
    var d := match c
      case Text(_, _) => Text(false, [])
      case Child(_, o) => Child(false, if o.Some? then Some(Clear(f.kind.schema, o.value)) else None)
      case _ => ClearCell(f, c);
    WithCell(sch, st, i, d)
  }

  predicate IsNumber(f: Field) { !f.kind.BytesKind? && !f.kind.MessageKind? }
  predicate IsChild(f: Field) { f.kind.MessageKind? && f.arity != Repeated }
  predicate IsRepeated(f: Field) { f.kind.MessageKind? && f.arity == Repeated }

  /** set_x of a scalar and of a string. */
  function SetNumber(sch: Schema, st: Store, i: nat, n: nat): (r: Store)
    requires Valid(sch, st) && i < |sch.fields| && IsNumber(sch.fields[i]) && SlotTyped(sch.fields[i], [Num(n)])
    ensures Valid(sch, r) && View(sch, r) == SetSlot(sch, View(sch, st), i, [Num(n)])
    ensures Clean(sch, st) ==> Clean(sch, r)
  {
    assert CellValid(sch.fields[i], st.cells[i]) && [Num(n)][0] == Num(n);
    WithCell(sch, st, i, Number(true, n))
  }

  function SetText(sch: Schema, st: Store, i: nat, b: Bytes): (r: Store)
    requires Valid(sch, st) && i < |sch.fields| && sch.fields[i].kind.BytesKind? && SlotTyped(sch.fields[i], [Str(b)])
    ensures Valid(sch, r) && View(sch, r) == SetSlot(sch, View(sch, st), i, [Str(b)])
    ensures Clean(sch, st) ==> Clean(sch, r)
  {
    assert CellValid(sch.fields[i], st.cells[i]) && ValueTyped(sch.fields[i].kind, [Str(b)][0]);
    WithCell(sch, st, i, Text(true, b))
  }

  /** The getters return what is stored: the value, or the default of an absent field, or what a failed read
      of an absent uint32 has left. */
  function NumberOf(sch: Schema, st: Store, i: nat): (n: nat)
    requires Valid(sch, st) && i < |sch.fields| && IsNumber(sch.fields[i])
    ensures var vs := View(sch, st).slots[i]; if vs == [] then AbsentNumber(sch.fields[i].kind, n) else vs == [Num(n)]
    ensures Clean(sch, st) && View(sch, st).slots[i] == [] ==> n == DefaultNumber(sch.fields[i].kind)
  {
    assert CellValid(sch.fields[i], st.cells[i]);
    assert Clean(sch, st) ==> CleanCell(sch.fields[i], st.cells[i]);
    st.cells[i].number
  }

  function TextOf(sch: Schema, st: Store, i: nat): (b: Bytes)
    requires Valid(sch, st) && i < |sch.fields| && sch.fields[i].kind.BytesKind?
    ensures var vs := View(sch, st).slots[i]; if vs == [] then b == [] else vs == [Str(b)]
  {
    assert CellValid(sch.fields[i], st.cells[i]);
    st.cells[i].text
  }

  /** The submessage, allocated or that of the default instance. */
  function ChildOf(sch: Schema, st: Store, i: nat): (x: Store)
    requires WellFormed(sch) && Valid(sch, st) && i < |sch.fields| && IsChild(sch.fields[i])
    ensures Valid(sch.fields[i].kind.schema, x) && (Clean(sch, st) ==> Clean(sch.fields[i].kind.schema, x))
    ensures var (vs, m) := (View(sch, st).slots[i], View(sch.fields[i].kind.schema, x));
      if vs == [] then m == Empty(sch.fields[i].kind.schema) else vs == [Sub(m)]
  {
    var f, c := sch.fields[i], st.cells[i];
    assert CellValid(f, c);
    assert Clean(sch, st) ==> CleanCell(sch.fields[i], st.cells[i]);
    var x := if c.owned.Some? then c.owned.value else New(f.kind.schema);
    BlankShowsEmpty(f.kind.schema, x);
    x
  }

  /** Entries added to the unknown fields. */
  function KeepUnknowns(sch: Schema, st: Store, us: seq<Unknown>): (r: Store)
    requires Valid(sch, st)
    ensures Valid(sch, r) && View(sch, r) == View(sch, st).(unknown := View(sch, st).unknown + us)
    ensures Clean(sch, st) <==> Clean(sch, r)
  {
    var r := st.(unknown := st.unknown + us);
    assert View(sch, r).slots == View(sch, st).slots;
    r
  }

  /** The numbers that Clear resets: all of them, unless no field is present in a class of several. */
  lemma ClearRepairs(sch: Schema, st: Store, i: nat)
    requires Valid(sch, st) && i < |sch.fields| && IsNumber(sch.fields[i])
    ensures NumberOf(sch, Clear(sch, st), i)
         == if Resets(sch, st) then DefaultNumber(sch.fields[i].kind) else NumberOf(sch, st, i)
  {
    assert CellValid(sch.fields[i], st.cells[i]);
  }

  // ---------------------------------------------------------------- submessages

  /** The submessage that mutable_x hands out: the allocated one, or a new one. */
  function Mutable(sch: Schema, st: Store, i: nat): (x: Store)
    requires WellFormed(sch) && Valid(sch, st) && i < |sch.fields| && IsChild(sch.fields[i])
    ensures Valid(sch.fields[i].kind.schema, x) && (Clean(sch, st) ==> Clean(sch.fields[i].kind.schema, x))
    ensures View(sch.fields[i].kind.schema, x) == Codec.Mutable(sch.fields[i], View(sch, st).slots[i])
  {
    var f, c := sch.fields[i], st.cells[i];
    assert CellValid(f, c) && SlotTyped(f, View(sch, st).slots[i]);
    assert Clean(sch, st) ==> CleanCell(sch.fields[i], st.cells[i]);
    var x := if c.owned.Some? then c.owned.value else New(f.kind.schema);
    BlankShowsEmpty(f.kind.schema, x);
    x
  }

  /** mutable_x followed by changes through the pointer, which leave the submessage as `x`; or
      set_allocated_x with an object. */
  function PutChild(sch: Schema, st: Store, i: nat, x: Store): (r: Store)
    requires Valid(sch, st) && i < |sch.fields| && IsChild(sch.fields[i]) && Valid(sch.fields[i].kind.schema, x)
    ensures SlotTyped(sch.fields[i], [Sub(View(sch.fields[i].kind.schema, x))])
    ensures Valid(sch, r) && View(sch, r) == SetSlot(sch, View(sch, st), i, [Sub(View(sch.fields[i].kind.schema, x))])
    ensures Clean(sch, st) ==> (Clean(sch, r) <==> Clean(sch.fields[i].kind.schema, x))
  {
    WithCell(sch, st, i, Child(true, Some(x)))
  }

  /** release_x, and set_allocated_x with a null pointer. */
  function Release(sch: Schema, st: Store, i: nat): (r: Store)
    requires Valid(sch, st) && i < |sch.fields| && IsChild(sch.fields[i])
    ensures Valid(sch, r) && View(sch, r) == SetSlot(sch, View(sch, st), i, [])
    ensures Clean(sch, st) ==> Clean(sch, r)
  {
    WithCell(sch, st, i, Child(false, None))
  }

  // ------------------------------------------------------------ repeated fields

  /** What add_x hands out: a cleared element if there is one, else a new one. */
  function Spare(sch: Schema, st: Store, i: nat): (x: Store)
    requires WellFormed(sch) && Valid(sch, st) && i < |sch.fields| && IsRepeated(sch.fields[i])
    ensures Valid(sch.fields[i].kind.schema, x) && View(sch.fields[i].kind.schema, x) == Empty(sch.fields[i].kind.schema)
    ensures Clean(sch, st) ==> Clean(sch.fields[i].kind.schema, x)
  {
    var f, c := sch.fields[i], st.cells[i];
    assert CellValid(f, c);
    assert Clean(sch, st) ==> CleanCell(sch.fields[i], st.cells[i]);
    var x := if c.size < |c.elements| then c.elements[c.size] else New(f.kind.schema);
    BlankShowsEmpty(f.kind.schema, x);
    x
  }

  function AppendCell(c: Cell, x: Store): Cell
    requires c.Elements? && c.size <= |c.elements|
  {
    Elements(if c.size < |c.elements| then c.elements[c.size := x] else c.elements + [x], c.size + 1)
  }

  /** add_x followed by changes through the pointer, which leave the new element as `x`. */
  function Append(sch: Schema, st: Store, i: nat, x: Store): (r: Store)
    requires Valid(sch, st) && i < |sch.fields| && IsRepeated(sch.fields[i]) && Valid(sch.fields[i].kind.schema, x)
    ensures SlotTyped(sch.fields[i], View(sch, st).slots[i] + [Sub(View(sch.fields[i].kind.schema, x))])
    ensures Valid(sch, r) && (Clean(sch, st) ==> (Clean(sch, r) <==> Clean(sch.fields[i].kind.schema, x)))
    ensures View(sch, r) == SetSlot(sch, View(sch, st), i, View(sch, st).slots[i] + [Sub(View(sch.fields[i].kind.schema, x))])
  {
    var f, c := sch.fields[i], st.cells[i];
    assert CellValid(f, c) && SlotTyped(f, View(sch, st).slots[i]);
    AppendShows(f, c, x);
    WithCell(sch, st, i, AppendCell(c, x))
  }

  lemma AppendShows(f: Field, c: Cell, x: Store)
    requires IsRepeated(f) && CellValid(f, c) && Valid(f.kind.schema, x)
    ensures CellValid(f, AppendCell(c, x)) && ViewCell(f, AppendCell(c, x)) == ViewCell(f, c) + [Sub(View(f.kind.schema, x))]
    ensures CleanCell(f, c) ==> (CleanCell(f, AppendCell(c, x)) <==> Clean(f.kind.schema, x))
  {
    var d := AppendCell(c, x);
    assert d.elements[c.size] == x;
    assert forall j :: 0 <= j < |d.elements| && j != c.size ==> d.elements[j] == c.elements[j];
  }

  /** The element that mutable_x(j) hands out. */
  function ElementAt(sch: Schema, st: Store, i: nat, j: nat): (x: Store)
    requires Valid(sch, st) && i < |sch.fields| && IsRepeated(sch.fields[i]) && j < |View(sch, st).slots[i]|
    ensures Valid(sch.fields[i].kind.schema, x) && (Clean(sch, st) ==> Clean(sch.fields[i].kind.schema, x))
    ensures View(sch, st).slots[i][j] == Sub(View(sch.fields[i].kind.schema, x))
  {
    assert CellValid(sch.fields[i], st.cells[i]) && View(sch, st).slots[i] == ViewCell(sch.fields[i], st.cells[i]);
    assert Clean(sch, st) ==> CleanCell(sch.fields[i], st.cells[i]);
    st.cells[i].elements[j]
  }

  /** mutable_x(j) followed by changes through the pointer. */
  function PutElement(sch: Schema, st: Store, i: nat, j: nat, x: Store): (r: Store)
    requires Valid(sch, st) && i < |sch.fields| && IsRepeated(sch.fields[i]) && j < |View(sch, st).slots[i]|
    requires Valid(sch.fields[i].kind.schema, x)
    ensures SlotTyped(sch.fields[i], View(sch, st).slots[i][j := Sub(View(sch.fields[i].kind.schema, x))])
    ensures Valid(sch, r) && (Clean(sch, st) && Clean(sch.fields[i].kind.schema, x) ==> Clean(sch, r))
    ensures View(sch, r) == SetSlot(sch, View(sch, st), i, View(sch, st).slots[i][j := Sub(View(sch.fields[i].kind.schema, x))])
  {
    var f, c := sch.fields[i], st.cells[i];
    assert CellValid(f, c) && SlotTyped(f, View(sch, st).slots[i]);
    assert |ViewCell(f, c)| == c.size;
    assert Clean(sch, st) ==> CleanCell(sch.fields[i], st.cells[i]);
    var d := c.(elements := c.elements[j := x]);
    assert ViewCell(f, d) == ViewCell(f, c)[j := Sub(View(f.kind.schema, x))];
    WithCell(sch, st, i, d)
  }

  /** RemoveLast: the element is cleared and kept. */
  function RemoveLast(sch: Schema, st: Store, i: nat): (r: Store)
    requires Valid(sch, st) && i < |sch.fields| && IsRepeated(sch.fields[i]) && View(sch, st).slots[i] != []
    ensures SlotTyped(sch.fields[i], View(sch, st).slots[i][..|View(sch, st).slots[i]| - 1])
    ensures Valid(sch, r) && (Clean(sch, st) ==> Clean(sch, r))
    ensures View(sch, r) == SetSlot(sch, View(sch, st), i, View(sch, st).slots[i][..|View(sch, st).slots[i]| - 1])
  {
    var f, c := sch.fields[i], st.cells[i];
    assert CellValid(f, c) && SlotTyped(f, View(sch, st).slots[i]);
    assert Clean(sch, st) ==> CleanCell(sch.fields[i], st.cells[i]);
    var last := c.size - 1;
    var d := Elements(c.elements[last := Clear(f.kind.schema, c.elements[last])], last);
    assert ViewCell(f, d) == ViewCell(f, c)[..last];
    WithCell(sch, st, i, d)
  }

  // -------------------------------------------------------------------- merging

  /** MergeFrom on stores: presence decides field by field, submessages are created on demand, repeated
      fields fill cleared elements before they allocate. */
  function MergeFrom(sch: Schema, a: Store, b: Store): (r: Store)
    requires WellFormed(sch) && Valid(sch, a) && Valid(sch, b)
    ensures Valid(sch, r) && (Clean(sch, a) ==> Clean(sch, r))
    decreases sch, 2
  {
    Store(seq(|sch.fields|, i requires 0 <= i < |sch.fields| => MergeCell(sch, i, a.cells[i], b.cells[i])),
          a.unknown + b.unknown, a.cachedSize)
  }

  function MergeCell(sch: Schema, i: nat, a: Cell, b: Cell): (r: Cell)
    requires WellFormed(sch) && i < |sch.fields| && CellValid(sch.fields[i], a) && CellValid(sch.fields[i], b)
    ensures CellValid(sch.fields[i], r) && (CleanCell(sch.fields[i], a) ==> CleanCell(sch.fields[i], r))
    decreases sch, 1
  {
    var f := sch.fields[i];
    match b
    case Number(present, n) => if present then Number(true, n) else a
    case Text(present, t) => if present then Text(true, t) else a
    case Child(present, o) =>
      if present then
        var into := if a.owned.Some? then a.owned.value else New(f.kind.schema);
        Child(true, Some(MergeFrom(f.kind.schema, into, o.value)))
      else a
    case Elements(es, size) => MergeElements(sch, i, a, es[..size])
  }

  function MergeElements(sch: Schema, i: nat, a: Cell, es: seq<Store>): (r: Cell)
    requires WellFormed(sch) && i < |sch.fields| && IsRepeated(sch.fields[i]) && CellValid(sch.fields[i], a)
    requires forall j :: 0 <= j < |es| ==> Valid(sch.fields[i].kind.schema, es[j])
    ensures CellValid(sch.fields[i], r) && (CleanCell(sch.fields[i], a) ==> CleanCell(sch.fields[i], r))
    decreases sch, 0, |es|
  {
    if es == [] then a
    else
      var sub := sch.fields[i].kind.schema;
      var into := if a.size < |a.elements| then a.elements[a.size] else New(sub);
      var x := MergeFrom(sub, into, es[0]);
      AppendShows(sch.fields[i], a, x);
      MergeElements(sch, i, AppendCell(a, x), es[1..])
  }

  /** Merging stores merges what they show. */
  lemma {:induction false} MergeShows(sch: Schema, a: Store, b: Store)
    requires WellFormed(sch) && Valid(sch, a) && Valid(sch, b)
    ensures View(sch, MergeFrom(sch, a, b)) == Merge(sch, View(sch, a), View(sch, b))
    decreases sch, 2
  {
    var l, r := View(sch, MergeFrom(sch, a, b)), Merge(sch, View(sch, a), View(sch, b));
    forall i | 0 <= i < |sch.fields| ensures l.slots[i] == r.slots[i] {
      MergeCellShows(sch, i, a.cells[i], b.cells[i]);
    }
    assert l.slots == r.slots;
  }

  lemma {:induction false} MergeCellShows(sch: Schema, i: nat, a: Cell, b: Cell)
    requires WellFormed(sch) && i < |sch.fields| && CellValid(sch.fields[i], a) && CellValid(sch.fields[i], b)
    ensures ViewCell(sch.fields[i], MergeCell(sch, i, a, b))
         == MergeSlot(sch.fields[i], ViewCell(sch.fields[i], a), ViewCell(sch.fields[i], b))
    decreases sch, 1
  {
    var f := sch.fields[i];
    match b
    case Number(_, _) =>
    case Text(_, _) =>
    case Child(present, o) =>
      if present {
        var into := if a.owned.Some? then a.owned.value else New(f.kind.schema);
        MergeShows(f.kind.schema, into, o.value);
        BlankShowsEmpty(f.kind.schema, into);
      }
    case Elements(es, size) =>
      MergeElementsShows(sch, i, a, es[..size]);
      assert ViewCell(f, Elements(es[..size], size)) == ViewCell(f, b);
  }

  lemma {:induction false} MergeElementsShows(sch: Schema, i: nat, a: Cell, es: seq<Store>)
    requires WellFormed(sch) && i < |sch.fields| && IsRepeated(sch.fields[i]) && CellValid(sch.fields[i], a)
    requires forall j :: 0 <= j < |es| ==> Valid(sch.fields[i].kind.schema, es[j])
    ensures CellValid(sch.fields[i], Elements(es, |es|))
    ensures ViewCell(sch.fields[i], MergeElements(sch, i, a, es))
         == ViewCell(sch.fields[i], a) + ViewCell(sch.fields[i], Elements(es, |es|))
    decreases sch, 0, |es|
  {
    hide Valid, View, ViewCell, MergeFrom, Blank, Clean, CleanCell;
    ElementsValid(sch.fields[i], es);
    if es != [] {
      var f, sub := sch.fields[i], sch.fields[i].kind.schema;
      var into := if a.size < |a.elements| then a.elements[a.size] else New(sub);
      var x := MergeFrom(sub, into, es[0]);
      MergeIntoBlank(sub, into, es[0]);
      AppendShows(f, a, x);
      MergeElementsShows(sch, i, AppendCell(a, x), es[1..]);
      FirstElement(f, es);
      assert ViewCell(f, a) + [Sub(View(sub, x))] + ViewCell(f, Elements(es[1..], |es| - 1))
          == ViewCell(f, a) + ViewCell(f, Elements(es, |es|));
    }
  }

  lemma ElementsValid(f: Field, es: seq<Store>)
    requires IsRepeated(f) && forall j :: 0 <= j < |es| ==> Valid(f.kind.schema, es[j])
    ensures CellValid(f, Elements(es, |es|)) && (es == [] ==> ViewCell(f, Elements(es, |es|)) == [])
  {
  }

  lemma FirstElement(f: Field, es: seq<Store>)
    requires IsRepeated(f) && es != [] && forall j :: 0 <= j < |es| ==> Valid(f.kind.schema, es[j])
    ensures CellValid(f, Elements(es, |es|)) && CellValid(f, Elements(es[1..], |es| - 1))
    ensures ViewCell(f, Elements(es, |es|)) == [Sub(View(f.kind.schema, es[0]))] + ViewCell(f, Elements(es[1..], |es| - 1))
  {
  }

  lemma {:induction false} MergeIntoBlank(sch: Schema, a: Store, b: Store)
    requires WellFormed(sch) && Valid(sch, a) && Blank(a) && Valid(sch, b)
    ensures View(sch, MergeFrom(sch, a, b)) == View(sch, b)
    decreases sch, 3
  {
    MergeShows(sch, a, b);
    BlankShowsEmpty(sch, a);
    MergeEmptyLeft(sch, View(sch, b));
  }

  /** CopyFrom: the target shows what the source shows, whatever it held before. */
  lemma CopyShows(sch: Schema, a: Store, b: Store)
    requires WellFormed(sch) && Valid(sch, a) && Valid(sch, b)
    ensures View(sch, MergeFrom(sch, Clear(sch, a), b)) == View(sch, b)
  {
    MergeIntoBlank(sch, Clear(sch, a), b);
  }

  // ------------------------------------------------------------------ required

  /** IsInitialized: required bits first, then every present submessage. */
  function Initialized(sch: Schema, st: Store): (b: bool)
    requires Valid(sch, st)
    ensures b == IsInitialized(sch, View(sch, st))
    decreases sch, 1
  {
    var m := View(sch, st);
    assert forall i :: 0 <= i < |sch.fields| ==> m.slots[i] == ViewCell(sch.fields[i], st.cells[i]);
    && (forall i :: 0 <= i < |sch.fields| && sch.fields[i].arity == Required ==> !BlankCell(st.cells[i]))
    && forall i :: 0 <= i < |sch.fields| ==> CellInitialized(sch.fields[i], st.cells[i])
  }

  function CellInitialized(f: Field, c: Cell): (b: bool)
    requires CellValid(f, c)
    ensures b && (f.arity == Required ==> !BlankCell(c)) <==> SlotInitialized(f, ViewCell(f, c))
    decreases f, 0
  {
    match c
    case Child(present, o) =>
      assert present ==> ViewCell(f, c)[0] == Sub(View(f.kind.schema, o.value));
      present ==> Initialized(f.kind.schema, o.value)
    case Elements(es, size) =>
      assert forall j :: 0 <= j < size ==> ViewCell(f, c)[j] == Sub(View(f.kind.schema, es[j]));
      forall j :: 0 <= j < size ==> Initialized(f.kind.schema, es[j])
    case _ => true
  }
}
