/** The output tree the example synthesizer writes into: the object and array
    literals of the scratch `output.ts` file, which ts-morph edits in place.

    The literals live in one arena, `Output.literals`; a literal is named by
    its index. An initializer is either literal text (`0`, `false`, `""`) or a
    reference to a nested object or array literal. A literal is always created
    before anything is put into it, so every reference points to a later index
    (`Forward`); that is what lets the arena be read back as a finite tree
    (`DecodeLiteral`). */
module ExampleOutput {
  import opened Wrappers

  /** An initializer or an array element: literal text, or a nested literal. */
  datatype Value = Text(text: string) | Ref(literal: nat)

  /** A `PropertyAssignment`: name, leading comment trivia, initializer. */
  datatype Assignment = Assignment(name: string, trivia: string, value: Value)

  datatype Literal = ObjectLiteral(props: seq<Assignment>) | ArrayLiteral(elements: seq<Value>)

  /** What the arena means: the example value tree. */
  datatype Example = ExText(text: string) | ExObject(entries: seq<Entry>) | ExArray(elements: seq<Example>)

  datatype Entry = Entry(name: string, trivia: string, value: Example)

  // Termination measures for walks over an example tree.

  function ExampleSize(x: Example): nat {
    match x
    case ExText(_) => 1
    case ExObject(es) => 1 + EntriesSize(es)
    case ExArray(xs) => 1 + ExamplesSize(xs)
  }

  function EntriesSize(es: seq<Entry>): nat {
    if es == [] then 0 else ExampleSize(es[0].value) + EntriesSize(es[1..])
  }

  function ExamplesSize(xs: seq<Example>): nat {
    if xs == [] then 0 else ExampleSize(xs[0]) + ExamplesSize(xs[1..])
  }

  /** `v` is text or refers to a literal after index `i` and inside an arena of
      `n` literals. */
  predicate ValueAbove(v: Value, i: nat, n: nat) {
    v.Text? || i < v.literal < n
  }

  predicate PropsAbove(ps: seq<Assignment>, i: nat, n: nat) {
    forall k :: 0 <= k < |ps| ==> ValueAbove(ps[k].value, i, n)
  }

  predicate ValuesAbove(vs: seq<Value>, i: nat, n: nat) {
    forall k :: 0 <= k < |vs| ==> ValueAbove(vs[k], i, n)
  }

  predicate LiteralAbove(lit: Literal, i: nat, n: nat) {
    match lit
    case ObjectLiteral(ps) => PropsAbove(ps, i, n)
    case ArrayLiteral(vs) => ValuesAbove(vs, i, n)
  }

  /** Every reference points forward, to a literal that exists. */
  predicate Forward(lits: seq<Literal>) {
    forall i :: 0 <= i < |lits| ==> LiteralAbove(lits[i], i, |lits|)
  }

  function DecodeLiteral(lits: seq<Literal>, i: nat): Example
    requires Forward(lits) && i < |lits|
    decreases |lits| - i, 2, 0
  {
    match lits[i]
    case ObjectLiteral(ps) => ExObject(DecodeProps(lits, i, ps))
    case ArrayLiteral(vs) => ExArray(DecodeValues(lits, i, vs))
  }

  function DecodeProps(lits: seq<Literal>, i: nat, ps: seq<Assignment>): (r: seq<Entry>)
    requires Forward(lits) && PropsAbove(ps, i, |lits|)
    ensures |r| == |ps|
    decreases |lits| - i, 1, |ps|
  {
    if ps == [] then []
    else [Entry(ps[0].name, ps[0].trivia, DecodeValue(lits, i, ps[0].value))] + DecodeProps(lits, i, ps[1..])
  }

  function DecodeValues(lits: seq<Literal>, i: nat, vs: seq<Value>): (r: seq<Example>)
    requires Forward(lits) && ValuesAbove(vs, i, |lits|)
    ensures |r| == |vs|
    decreases |lits| - i, 1, |vs|
  {
    if vs == [] then [] else [DecodeValue(lits, i, vs[0])] + DecodeValues(lits, i, vs[1..])
  }

  function DecodeValue(lits: seq<Literal>, i: nat, v: Value): Example
    requires Forward(lits) && ValueAbove(v, i, |lits|)
    decreases |lits| - i, 0, 0
  {
    match v
    case Text(t) => ExText(t)
    case Ref(j) => DecodeLiteral(lits, j)
  }

  lemma {:induction false} DecodePropsAppend(lits: seq<Literal>, i: nat, ps: seq<Assignment>, qs: seq<Assignment>)
    requires Forward(lits) && PropsAbove(ps, i, |lits|) && PropsAbove(qs, i, |lits|)
    ensures PropsAbove(ps + qs, i, |lits|)
    ensures DecodeProps(lits, i, ps + qs) == DecodeProps(lits, i, ps) + DecodeProps(lits, i, qs)
  {
    if ps == [] {
      assert ps + qs == qs;
    } else {
      assert (ps + qs)[1..] == ps[1..] + qs;
      DecodePropsAppend(lits, i, ps[1..], qs);
    }
  }

  lemma {:induction false} DecodeValuesAppend(lits: seq<Literal>, i: nat, vs: seq<Value>, ws: seq<Value>)
    requires Forward(lits) && ValuesAbove(vs, i, |lits|) && ValuesAbove(ws, i, |lits|)
    ensures ValuesAbove(vs + ws, i, |lits|)
    ensures DecodeValues(lits, i, vs + ws) == DecodeValues(lits, i, vs) + DecodeValues(lits, i, ws)
  {
    if vs == [] {
      assert vs + ws == ws;
    } else {
      assert (vs + ws)[1..] == vs[1..] + ws;
      DecodeValuesAppend(lits, i, vs[1..], ws);
    }
  }

  /** `b` extends `a` and holds the same literals from index `lo` on. */
  predicate AgreeFrom(a: seq<Literal>, b: seq<Literal>, lo: nat) {
    |a| <= |b| && forall j :: lo <= j < |a| ==> b[j] == a[j]
  }

  /** A literal reads only the literals after it: changing earlier ones, or
      appending new ones, does not change what it decodes to. */
  lemma {:induction false} FrameLiteral(a: seq<Literal>, b: seq<Literal>, lo: nat, i: nat)
    requires Forward(a) && Forward(b) && AgreeFrom(a, b, lo) && lo <= i < |a|
    ensures DecodeLiteral(b, i) == DecodeLiteral(a, i)
    decreases |a| - i, 2, 0
  {
    match a[i]
    case ObjectLiteral(ps) => FrameProps(a, b, lo, i, ps);
    case ArrayLiteral(vs) => FrameValues(a, b, lo, i, vs);
  }

  lemma {:induction false} FrameProps(a: seq<Literal>, b: seq<Literal>, lo: nat, i: nat, ps: seq<Assignment>)
    requires Forward(a) && Forward(b) && AgreeFrom(a, b, lo) && lo <= i + 1 && PropsAbove(ps, i, |a|)
    ensures PropsAbove(ps, i, |b|)
    ensures DecodeProps(b, i, ps) == DecodeProps(a, i, ps)
    decreases |a| - i, 1, |ps|
  {
    if ps != [] {
      FrameValue(a, b, lo, i, ps[0].value);
      FrameProps(a, b, lo, i, ps[1..]);
    }
  }

  lemma {:induction false} FrameValues(a: seq<Literal>, b: seq<Literal>, lo: nat, i: nat, vs: seq<Value>)
    requires Forward(a) && Forward(b) && AgreeFrom(a, b, lo) && lo <= i + 1 && ValuesAbove(vs, i, |a|)
    ensures ValuesAbove(vs, i, |b|)
    ensures DecodeValues(b, i, vs) == DecodeValues(a, i, vs)
    decreases |a| - i, 1, |vs|
  {
    if vs != [] {
      FrameValue(a, b, lo, i, vs[0]);
      FrameValues(a, b, lo, i, vs[1..]);
    }
  }

  lemma {:induction false} FrameValue(a: seq<Literal>, b: seq<Literal>, lo: nat, i: nat, v: Value)
    requires Forward(a) && Forward(b) && AgreeFrom(a, b, lo) && lo <= i + 1 && ValueAbove(v, i, |a|)
    ensures ValueAbove(v, i, |b|)
    ensures DecodeValue(b, i, v) == DecodeValue(a, i, v)
    decreases |a| - i, 0, 0
  {
    if v.Ref? {
      FrameLiteral(a, b, lo, v.literal);
    }
  }

  /** `b` is `a` after more properties were added to object literal `c` and
      fresh literals were appended; nothing else changed. */
  predicate GrewObject(a: seq<Literal>, b: seq<Literal>, c: nat) {
    && |a| <= |b| && c < |a|
    && a[c].ObjectLiteral? && b[c].ObjectLiteral?
    && |a[c].props| <= |b[c].props| && b[c].props[..|a[c].props|] == a[c].props
    && (forall j :: 0 <= j < |a| && j != c ==> b[j] == a[j])
  }

  /** The properties `b` added to object literal `c`. */
  function AddedProps(a: seq<Literal>, b: seq<Literal>, c: nat): seq<Assignment>
    requires GrewObject(a, b, c)
  {
    b[c].props[|a[c].props|..]
  }

  /** Like `GrewObject`, for elements added to array literal `c`. */
  predicate GrewArray(a: seq<Literal>, b: seq<Literal>, c: nat) {
    && |a| <= |b| && c < |a|
    && a[c].ArrayLiteral? && b[c].ArrayLiteral?
    && |a[c].elements| <= |b[c].elements| && b[c].elements[..|a[c].elements|] == a[c].elements
    && (forall j :: 0 <= j < |a| && j != c ==> b[j] == a[j])
  }

  function AddedElements(a: seq<Literal>, b: seq<Literal>, c: nat): seq<Value>
    requires GrewArray(a, b, c)
  {
    b[c].elements[|a[c].elements|..]
  }

  /** Properties already on a literal keep their meaning when more are
      appended after them and fresh literals are added to the arena. */
  lemma AppendedPropsDecode(a: seq<Literal>, b: seq<Literal>, c: nat, ps: seq<Assignment>, qs: seq<Assignment>)
    requires Forward(a) && Forward(b) && AgreeFrom(a, b, c + 1)
    requires PropsAbove(ps, c, |a|) && PropsAbove(qs, c, |b|)
    ensures PropsAbove(ps + qs, c, |b|)
    ensures DecodeProps(b, c, ps + qs) == DecodeProps(a, c, ps) + DecodeProps(b, c, qs)
  {
    FrameProps(a, b, c + 1, c, ps);
    DecodePropsAppend(b, c, ps, qs);
  }

  lemma AppendedValuesDecode(a: seq<Literal>, b: seq<Literal>, c: nat, vs: seq<Value>, ws: seq<Value>)
    requires Forward(a) && Forward(b) && AgreeFrom(a, b, c + 1)
    requires ValuesAbove(vs, c, |a|) && ValuesAbove(ws, c, |b|)
    ensures ValuesAbove(vs + ws, c, |b|)
    ensures DecodeValues(b, c, vs + ws) == DecodeValues(a, c, vs) + DecodeValues(b, c, ws)
  {
    FrameValues(a, b, c + 1, c, vs);
    DecodeValuesAppend(b, c, vs, ws);
  }

  /** Between arena states `a` and `b`, properties were added to object
      literal `c` (and fresh literals appended), and the added properties
      read back as `want`. */
  ghost predicate PropsEmitted(a: seq<Literal>, b: seq<Literal>, c: nat, want: seq<Entry>) {
    && Forward(b) && GrewObject(a, b, c)
    && PropsAbove(AddedProps(a, b, c), c, |b|)
    && DecodeProps(b, c, AddedProps(a, b, c)) == want
  }

  /** Like `PropsEmitted`, for elements added to array literal `c`. */
  ghost predicate ElementsEmitted(a: seq<Literal>, b: seq<Literal>, c: nat, want: seq<Example>) {
    && Forward(b) && GrewArray(a, b, c)
    && ValuesAbove(AddedElements(a, b, c), c, |b|)
    && DecodeValues(b, c, AddedElements(a, b, c)) == want
  }

  /** Two rounds of additions to the same object literal read back as the
      first round's entries followed by the second's. */
  lemma PropsEmittedThen(a: seq<Literal>, b: seq<Literal>, d: seq<Literal>, c: nat, w1: seq<Entry>, w2: seq<Entry>)
    requires PropsEmitted(a, b, c, w1) && PropsEmitted(b, d, c, w2)
    ensures PropsEmitted(a, d, c, w1 + w2)
  {
    var p1 := AddedProps(a, b, c);
    var p2 := AddedProps(b, d, c);
    assert d[c].props == a[c].props + p1 + p2;
    assert AddedProps(a, d, c) == p1 + p2;
    assert AgreeFrom(b, d, c + 1);
    AppendedPropsDecode(b, d, c, p1, p2);
  }

  lemma ElementsEmittedThen(a: seq<Literal>, b: seq<Literal>, d: seq<Literal>, c: nat, w1: seq<Example>, w2: seq<Example>)
    requires ElementsEmitted(a, b, c, w1) && ElementsEmitted(b, d, c, w2)
    ensures ElementsEmitted(a, d, c, w1 + w2)
  {
    var e1 := AddedElements(a, b, c);
    var e2 := AddedElements(b, d, c);
    assert d[c].elements == a[c].elements + e1 + e2;
    assert AddedElements(a, d, c) == e1 + e2;
    assert AgreeFrom(b, d, c + 1);
    AppendedValuesDecode(b, d, c, e1, e2);
  }

  /** Nothing added reads back as nothing. */
  lemma PropsEmittedNone(a: seq<Literal>, c: nat)
    requires Forward(a) && c < |a| && a[c].ObjectLiteral?
    ensures PropsEmitted(a, a, c, [])
  {
    assert AddedProps(a, a, c) == [];
  }

  lemma ElementsEmittedNone(a: seq<Literal>, c: nat)
    requires Forward(a) && c < |a| && a[c].ArrayLiteral?
    ensures ElementsEmitted(a, a, c, [])
  {
    assert AddedElements(a, a, c) == [];
  }

  /** `c.getFirstChildByKind(PropertyAssignment)?.getFirstChildByKind(
      ObjectLiteralExpression)`: the object literal held by the first property
      of object literal `c`, if it holds one. */
  function FirstPropertyObject(lits: seq<Literal>, c: nat): (r: Option<nat>)
    requires Forward(lits) && c < |lits| && lits[c].ObjectLiteral?
    ensures r.Some? <==> lits[c].props != [] && DecodeValue(lits, c, lits[c].props[0].value).ExObject?
    ensures r.Some? ==> r.value < |lits| && DecodeLiteral(lits, r.value) == DecodeValue(lits, c, lits[c].props[0].value)
  {
    assert LiteralAbove(lits[c], c, |lits|);
    if lits[c].props != [] && lits[c].props[0].value.Ref? && lits[lits[c].props[0].value.literal].ObjectLiteral? then
      Some(lits[c].props[0].value.literal)
    else None
  }

  /** The scratch source file holding the literals; `literals[0]` is the
      `root` object of `const root = {}`. */
  class Output {
    var literals: seq<Literal>

    ghost predicate Valid()
      reads this
    {
      Forward(literals)
    }

    constructor ()
      ensures Valid() && literals == [ObjectLiteral([])]
    {
      literals := [ObjectLiteral([])];
    }

    /** A fresh, empty object literal (`{}`), appended to the arena. */
    method NewObject() returns (o: nat)
      requires Valid()
      modifies this
      ensures Valid()
      ensures o == |old(literals)| && literals == old(literals) + [ObjectLiteral([])]
    {
      o := |literals|;
      literals := literals + [ObjectLiteral([])];
      assert forall i :: 0 <= i < o ==> literals[i] == old(literals)[i];
    }

    /** A fresh array literal with the given elements. */
    method NewArray(vs: seq<Value>) returns (a: nat)
      requires Valid() && ValuesAbove(vs, |literals|, |literals| + 1)
      modifies this
      ensures Valid()
      ensures a == |old(literals)| && literals == old(literals) + [ArrayLiteral(vs)]
    {
      a := |literals|;
      literals := literals + [ArrayLiteral(vs)];
      assert forall i :: 0 <= i < a ==> literals[i] == old(literals)[i];
    }

    /** `addPropertyAssignment` on object literal `c`. */
    method AddPropertyAssignment(c: nat, p: Assignment)
      requires Valid() && c < |literals| && literals[c].ObjectLiteral?
      requires ValueAbove(p.value, c, |literals|)
      modifies this
      ensures Valid()
      ensures literals == old(literals)[c := ObjectLiteral(old(literals)[c].props + [p])]
    {
      literals := literals[c := ObjectLiteral(literals[c].props + [p])];
      assert LiteralAbove(old(literals)[c], c, |literals|);
    }

    /** `addElement` on array literal `c`. */
    method AddElement(c: nat, v: Value)
      requires Valid() && c < |literals| && literals[c].ArrayLiteral?
      requires ValueAbove(v, c, |literals|)
      modifies this
      ensures Valid()
      ensures literals == old(literals)[c := ArrayLiteral(old(literals)[c].elements + [v])]
    {
      literals := literals[c := ArrayLiteral(literals[c].elements + [v])];
      assert LiteralAbove(old(literals)[c], c, |literals|);
    }
  }
}
