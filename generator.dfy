/** `gen` and `jsonSchema2json` of the two jsonSchema2json.ts copies: the
    walk over a schema that writes an example value into the output tree.

    src/gen/jsonSchema2json.ts (`Plain`) and src/genSchema/jsonSchema2json.ts
    (`CamelAware`) differ only in the camelCase rewrite of keys, so one
    method models both, with the copy as a parameter.

    `Synth` states what one call of `gen` adds to its container, as the value
    tree the added properties read back as; `Gen` is proved to add exactly
    that. */
module Generator {
  import opened Wrappers
  import opened JsStrings
  import opened Schema
  import opened ExampleOutput

  datatype Variant = Plain | CamelAware

  /** `toCamel` after the `id === 'toCamelCase'` test: switched on by the tag,
      never switched off; the plain copy has no camel mode. */
  predicate CamelOn(v: Variant, s: Schema, toCamel: bool) {
    v == CamelAware && (toCamel || s.id == Some(CamelTag))
  }

  /** The name written for a primitive or object property. */
  function NameFor(camel: bool, key: string): string {
    if camel then SnakeToCamel(key) else key
  }

  /** The entries one `gen(s, container, origin, key, toCamel)` appends to its
      container, read back as a value tree: one entry, or none for an array
      whose items are absent or neither objects nor primitives. Array entries
      keep the raw key. */
  function Synth(v: Variant, s: Schema, origin: bool, key: string, toCamel: bool): seq<Entry>
    decreases SchemaSize(s), 0
  {
    var camel := CamelOn(v, s, toCamel);
    var trivia := DescriptionHandler(s.description);
    ItemsSmaller(s);
    match s.kind
    case ObjectType =>
      [Entry(NameFor(camel, key), trivia, ExObject(SynthProps(v, s.properties, origin, camel)))]
    case ArrayType =>
      (match s.items
       case Tuple(es) => [Entry(key, trivia, ExArray(TupleElements(v, es, origin, camel)))]
       case Single(it) =>
         if it.kind == ObjectType then
           [Entry(key, trivia, ExArray([ExObject(SynthProps(v, it.properties, origin, camel))]))]
         else if IsPrimitive(it.kind) then
           [Entry(key, trivia, ExArray([ExText(TemplateText(Format(origin, it.kind, false)))]))]
         else []
       case NoItems => [])
    case _ =>
      [Entry(NameFor(camel, key), trivia, ExText(TemplateText(Format(origin, s.kind, false))))]
  }

  /** One `gen` per property, in insertion order, into the same container. */
  function SynthProps(v: Variant, ps: seq<Property>, origin: bool, camel: bool): seq<Entry>
    decreases PropertiesSize(ps), 1
  {
    if ps == [] then []
    else Synth(v, ps[0].schema, origin, ps[0].key, camel) + SynthProps(v, ps[1..], origin, camel)
  }

  /** The elements of a tuple, item after item. */
  function TupleElements(v: Variant, es: seq<Schema>, origin: bool, camel: bool): seq<Example>
    decreases ListSize(es), 2
  {
    if es == [] then []
    else ItemElements(v, es[0], origin, camel) + TupleElements(v, es[1..], origin, camel)
  }

  /** The elements one tuple item contributes: the JSON text of a primitive's
      value, one object per property of an object item, nothing otherwise. */
  function ItemElements(v: Variant, it: Schema, origin: bool, camel: bool): seq<Example>
    decreases SchemaSize(it), 1
  {
    if IsPrimitive(it.kind) then [ExText(JsonText(Format(origin, it.kind, true).value))]
    else if it.kind == ObjectType then PerPropertyObjects(v, it.properties, origin, camel)
    else []
  }

  function PerPropertyObjects(v: Variant, ps: seq<Property>, origin: bool, camel: bool): seq<Example>
    decreases PropertiesSize(ps), 1
  {
    if ps == [] then []
    else [ExObject(Synth(v, ps[0].schema, origin, ps[0].key, camel))] + PerPropertyObjects(v, ps[1..], origin, camel)
  }

  lemma {:induction false} SynthPropsAppend(v: Variant, ps: seq<Property>, qs: seq<Property>, origin: bool, camel: bool)
    ensures SynthProps(v, ps + qs, origin, camel) == SynthProps(v, ps, origin, camel) + SynthProps(v, qs, origin, camel)
  {
    if ps == [] {
      assert ps + qs == qs;
    } else {
      assert (ps + qs)[1..] == ps[1..] + qs;
      SynthPropsAppend(v, ps[1..], qs, origin, camel);
    }
  }

  lemma {:induction false} TupleElementsAppend(v: Variant, es: seq<Schema>, fs: seq<Schema>, origin: bool, camel: bool)
    ensures TupleElements(v, es + fs, origin, camel) == TupleElements(v, es, origin, camel) + TupleElements(v, fs, origin, camel)
  {
    if es == [] {
      assert es + fs == fs;
    } else {
      assert (es + fs)[1..] == es[1..] + fs;
      TupleElementsAppend(v, es[1..], fs, origin, camel);
    }
  }

  lemma {:induction false} PerPropertyObjectsAppend(v: Variant, ps: seq<Property>, qs: seq<Property>, origin: bool, camel: bool)
    ensures PerPropertyObjects(v, ps + qs, origin, camel)
         == PerPropertyObjects(v, ps, origin, camel) + PerPropertyObjects(v, qs, origin, camel)
  {
    if ps == [] {
      assert ps + qs == qs;
    } else {
      assert (ps + qs)[1..] == ps[1..] + qs;
      PerPropertyObjectsAppend(v, ps[1..], qs, origin, camel);
    }
  }

  lemma SynthPropsStep(v: Variant, ps: seq<Property>, j: nat, origin: bool, camel: bool)
    requires j < |ps|
    ensures SynthProps(v, ps[..j + 1], origin, camel)
         == SynthProps(v, ps[..j], origin, camel) + Synth(v, ps[j].schema, origin, ps[j].key, camel)
  {
    assert ps[..j + 1] == ps[..j] + [ps[j]];
    SynthPropsAppend(v, ps[..j], [ps[j]], origin, camel);
    assert [ps[j]][1..] == [];
  }

  lemma TupleElementsStep(v: Variant, es: seq<Schema>, j: nat, origin: bool, camel: bool)
    requires j < |es|
    ensures TupleElements(v, es[..j + 1], origin, camel)
         == TupleElements(v, es[..j], origin, camel) + ItemElements(v, es[j], origin, camel)
  {
    assert es[..j + 1] == es[..j] + [es[j]];
    TupleElementsAppend(v, es[..j], [es[j]], origin, camel);
    assert [es[j]][1..] == [];
  }

  lemma PerPropertyObjectsStep(v: Variant, ps: seq<Property>, j: nat, origin: bool, camel: bool)
    requires j < |ps|
    ensures PerPropertyObjects(v, ps[..j + 1], origin, camel)
         == PerPropertyObjects(v, ps[..j], origin, camel) + [ExObject(Synth(v, ps[j].schema, origin, ps[j].key, camel))]
  {
    assert ps[..j + 1] == ps[..j] + [ps[j]];
    PerPropertyObjectsAppend(v, ps[..j], [ps[j]], origin, camel);
    assert [ps[j]][1..] == [];
  }

  /** `gen(s, node, origin, key, toCamel)`. An absent container (`None`)
      changes nothing; otherwise the container gains exactly the entries of
      `Synth`, after the ones it had, and no other literal already in the
      output changes. */
  method Gen(out: Output, v: Variant, s: Schema, node: Option<nat>, origin: bool, key: string, toCamel: bool)
    requires out.Valid()
    requires node.Some? ==> node.value < |out.literals| && out.literals[node.value].ObjectLiteral?
    modifies out
    ensures out.Valid()
    ensures node.None? ==> out.literals == old(out.literals)
    ensures node.Some? ==> PropsEmitted(old(out.literals), out.literals, node.value, Synth(v, s, origin, key, toCamel))
    decreases SchemaSize(s), 1
  {
    if node.None? {
      return;
    }
    var n := node.value;
    match s.kind {
      case ObjectType =>
        GenObject(out, v, s, n, origin, key, toCamel);
      case ArrayType =>
        match s.items {
          case Tuple(_) =>
            GenTupleProperty(out, v, s, n, origin, key, toCamel);
          case Single(it) =>
            if it.kind == ObjectType {
              GenObjectArray(out, v, s, n, origin, key, toCamel);
            } else if IsPrimitive(it.kind) {
              GenPrimitiveArray(out, v, s, n, origin, key, toCamel);
            } else {
              PropsEmittedNone(out.literals, n);
            }
          case NoItems =>
            PropsEmittedNone(out.literals, n);
        }
      case _ =>
        GenPrimitive(out, v, s, n, origin, key, toCamel);
    }
  }

  /** A boolean, number or string: one property with the formatted value. */
  method GenPrimitive(out: Output, v: Variant, s: Schema, n: nat, origin: bool, key: string, toCamel: bool)
    requires out.Valid() && n < |out.literals| && out.literals[n].ObjectLiteral?
    requires IsPrimitive(s.kind)
    modifies out
    ensures out.Valid()
    ensures PropsEmitted(old(out.literals), out.literals, n, Synth(v, s, origin, key, toCamel))
  {
    var camel := CamelOn(v, s, toCamel);
    var p := Assignment(NameFor(camel, key), DescriptionHandler(s.description),
      Text(TemplateText(Format(origin, s.kind, false))));
    out.AddPropertyAssignment(n, p);
    OneProp(old(out.literals), out.literals, n, p);
  }

  /** An object: `key: {}`, then its properties generated into that object. */
  method GenObject(out: Output, v: Variant, s: Schema, n: nat, origin: bool, key: string, toCamel: bool)
    requires out.Valid() && n < |out.literals| && out.literals[n].ObjectLiteral?
    requires s.kind == ObjectType
    modifies out
    ensures out.Valid()
    ensures PropsEmitted(old(out.literals), out.literals, n, Synth(v, s, origin, key, toCamel))
    decreases SchemaSize(s), 0
  {
    var camel := CamelOn(v, s, toCamel);
    var o := out.NewObject();
    var p := Assignment(NameFor(camel, key), DescriptionHandler(s.description), Ref(o));
    out.AddPropertyAssignment(n, p);
    ghost var mid := out.literals;
    ItemsSmaller(s);
    GenProps(out, v, s.properties, o, origin, camel);
    NestedProps(old(out.literals), mid, out.literals, n, o, p, SynthProps(v, s.properties, origin, camel));
  }

  /** A tuple: `key: []`, then the elements of its items. */
  method GenTupleProperty(out: Output, v: Variant, s: Schema, n: nat, origin: bool, key: string, toCamel: bool)
    requires out.Valid() && n < |out.literals| && out.literals[n].ObjectLiteral?
    requires s.kind == ArrayType && s.items.Tuple?
    modifies out
    ensures out.Valid()
    ensures PropsEmitted(old(out.literals), out.literals, n, Synth(v, s, origin, key, toCamel))
    decreases SchemaSize(s), 0
  {
    var camel := CamelOn(v, s, toCamel);
    var l := out.NewArray([]);
    var p := Assignment(key, DescriptionHandler(s.description), Ref(l));
    out.AddPropertyAssignment(n, p);
    ghost var mid := out.literals;
    ItemsSmaller(s);
    GenTuple(out, v, s.items.elements, l, origin, camel);
    NestedElements(old(out.literals), mid, out.literals, n, l, p, TupleElements(v, s.items.elements, origin, camel));
  }

  /** An array of objects: `key: [{}]`, then the item's properties generated
      into that one object. */
  method GenObjectArray(out: Output, v: Variant, s: Schema, n: nat, origin: bool, key: string, toCamel: bool)
    requires out.Valid() && n < |out.literals| && out.literals[n].ObjectLiteral?
    requires s.kind == ArrayType && s.items.Single? && s.items.item.kind == ObjectType
    modifies out
    ensures out.Valid()
    ensures PropsEmitted(old(out.literals), out.literals, n, Synth(v, s, origin, key, toCamel))
    decreases SchemaSize(s), 0
  {
    var camel := CamelOn(v, s, toCamel);
    var l := out.NewArray([]);
    var o := out.NewObject();
    out.AddElement(l, Ref(o));
    var p := Assignment(key, DescriptionHandler(s.description), Ref(l));
    out.AddPropertyAssignment(n, p);
    ghost var mid := out.literals;
    ItemsSmaller(s);
    GenProps(out, v, s.items.item.properties, o, origin, camel);
    SingleObjectArray(old(out.literals), mid, out.literals, n, l, o, p, SynthProps(v, s.items.item.properties, origin, camel));
  }

  /** An array of a primitive: `key: [value]`. */
  method GenPrimitiveArray(out: Output, v: Variant, s: Schema, n: nat, origin: bool, key: string, toCamel: bool)
    requires out.Valid() && n < |out.literals| && out.literals[n].ObjectLiteral?
    requires s.kind == ArrayType && s.items.Single? && IsPrimitive(s.items.item.kind)
    modifies out
    ensures out.Valid()
    ensures PropsEmitted(old(out.literals), out.literals, n, Synth(v, s, origin, key, toCamel))
  {
    var t := Text(TemplateText(Format(origin, s.items.item.kind, false)));
    var l := out.NewArray([t]);
    var p := Assignment(key, DescriptionHandler(s.description), Ref(l));
    out.AddPropertyAssignment(n, p);
    OneProp(old(out.literals), out.literals, n, p);
    assert out.literals[l] == ArrayLiteral([t]);
    assert DecodeValues(out.literals, l, [t]) == [ExText(t.text)];
    assert DecodeValue(out.literals, n, p.value) == ExArray([ExText(t.text)]);
  }

  /** `jsonSchema2json` (both copies, `v` choosing which): generates the
      schema under the key `value` into a fresh `root = {}` and returns the
      object literal stored under that first key, which exists exactly when
      the schema is an object. */
  method JsonSchemaToJson(v: Variant, schema: Schema, origin: bool) returns (out: Output, value: Option<nat>)
    ensures out.Valid() && |out.literals| > 0
    ensures DecodeLiteral(out.literals, 0) == ExObject(Synth(v, schema, origin, "value", false))
    ensures value.Some? <==> schema.kind == ObjectType
    ensures value.Some? ==>
              && value.value < |out.literals|
              && DecodeLiteral(out.literals, value.value)
                 == ExObject(SynthProps(v, schema.properties, origin, CamelOn(v, schema, false)))
  {
    out := new Output();
    Gen(out, v, schema, Some(0), origin, "value", false);
    RootHolds(out.literals, v, schema, origin);
    value := FirstPropertyObject(out.literals, 0);
  }

  /** What the root holds once `gen` has run on a fresh `{}`. */
  lemma RootHolds(lits: seq<Literal>, v: Variant, schema: Schema, origin: bool)
    requires PropsEmitted([ObjectLiteral([])], lits, 0, Synth(v, schema, origin, "value", false))
    ensures |lits| > 0 && lits[0].ObjectLiteral?
    ensures DecodeLiteral(lits, 0) == ExObject(Synth(v, schema, origin, "value", false))
    ensures lits[0].props != [] && DecodeValue(lits, 0, lits[0].props[0].value).ExObject?
        <==> schema.kind == ObjectType
    ensures schema.kind == ObjectType ==>
      DecodeValue(lits, 0, lits[0].props[0].value)
        == ExObject(SynthProps(v, schema.properties, origin, CamelOn(v, schema, false)))
  {
    var added := AddedProps([ObjectLiteral([])], lits, 0);
    assert lits[0].props == added;
    var w := Synth(v, schema, origin, "value", false);
    assert DecodeProps(lits, 0, added) == w;
    ObjectIsFirst(v, schema, origin, "value", false);
    if added != [] {
      assert DecodeProps(lits, 0, added)[0].value == DecodeValue(lits, 0, added[0].value);
    }
  }

  /** Only an object schema makes `gen` write an object literal. */
  lemma ObjectIsFirst(v: Variant, s: Schema, origin: bool, key: string, toCamel: bool)
    ensures var w := Synth(v, s, origin, key, toCamel);
      (w != [] && w[0].value.ExObject?) <==> s.kind == ObjectType
    ensures s.kind == ObjectType ==>
      Synth(v, s, origin, key, toCamel)[0].value == ExObject(SynthProps(v, s.properties, origin, CamelOn(v, s, toCamel)))
  {
    var w := Synth(v, s, origin, key, toCamel);
    if s.kind != ObjectType && s.kind != ArrayType {
      assert w[0].value.ExText?;
    }
  }

  /** The property loop (`for (let key in properties) gen(...)`): one `gen`
      per property, in order, into object literal `o`. */
  method GenProps(out: Output, v: Variant, ps: seq<Property>, o: nat, origin: bool, camel: bool)
    requires out.Valid() && o < |out.literals| && out.literals[o].ObjectLiteral?
    modifies out
    ensures PropsEmitted(old(out.literals), out.literals, o, SynthProps(v, ps, origin, camel))
    decreases PropertiesSize(ps), 2
  {
    PropsEmittedNone(out.literals, o);
    var j := 0;
    while j < |ps|
      invariant 0 <= j <= |ps|
      invariant PropsEmitted(old(out.literals), out.literals, o, SynthProps(v, ps[..j], origin, camel))
    {
      PropertySmaller(ps, j);
      ghost var before := out.literals;
      Gen(out, v, ps[j].schema, Some(o), origin, ps[j].key, camel);
      PropsEmittedThen(old(out.literals), before, out.literals, o,
        SynthProps(v, ps[..j], origin, camel), Synth(v, ps[j].schema, origin, ps[j].key, camel));
      SynthPropsStep(v, ps, j, origin, camel);
      j := j + 1;
    }
    assert ps[..|ps|] == ps;
  }

  /** The tuple loop (`items.forEach`) into array literal `l`. */
  method GenTuple(out: Output, v: Variant, es: seq<Schema>, l: nat, origin: bool, camel: bool)
    requires out.Valid() && l < |out.literals| && out.literals[l].ArrayLiteral?
    modifies out
    ensures ElementsEmitted(old(out.literals), out.literals, l, TupleElements(v, es, origin, camel))
    decreases ListSize(es), 3
  {
    ElementsEmittedNone(out.literals, l);
    var j := 0;
    while j < |es|
      invariant 0 <= j <= |es|
      invariant ElementsEmitted(old(out.literals), out.literals, l, TupleElements(v, es[..j], origin, camel))
    {
      ElementSmaller(es, j);
      ghost var before := out.literals;
      GenItem(out, v, es[j], l, origin, camel);
      ElementsEmittedThen(old(out.literals), before, out.literals, l,
        TupleElements(v, es[..j], origin, camel), ItemElements(v, es[j], origin, camel));
      TupleElementsStep(v, es, j, origin, camel);
      j := j + 1;
    }
    assert es[..|es|] == es;
  }

  /** One tuple item: a primitive adds its JSON text; an object adds a fresh
      `{}` per property and generates that property into it. */
  method GenItem(out: Output, v: Variant, it: Schema, l: nat, origin: bool, camel: bool)
    requires out.Valid() && l < |out.literals| && out.literals[l].ArrayLiteral?
    modifies out
    ensures ElementsEmitted(old(out.literals), out.literals, l, ItemElements(v, it, origin, camel))
    decreases SchemaSize(it), 2
  {
    ghost var start := out.literals;
    if IsPrimitive(it.kind) {
      out.AddElement(l, Text(JsonText(Format(origin, it.kind, true).value)));
      assert AddedElements(start, out.literals, l) == [Text(JsonText(Format(origin, it.kind, true).value))];
    } else if it.kind == ObjectType {
      var ps := it.properties;
      ElementsEmittedNone(out.literals, l);
      var j := 0;
      while j < |ps|
        invariant 0 <= j <= |ps|
        invariant ElementsEmitted(start, out.literals, l, PerPropertyObjects(v, ps[..j], origin, camel))
      {
        PropertySmaller(ps, j);
        ghost var before := out.literals;
        var o := out.NewObject();
        out.AddElement(l, Ref(o));
        ghost var mid := out.literals;
        Gen(out, v, ps[j].schema, Some(o), origin, ps[j].key, camel);
        FreshObjectElement(before, mid, out.literals, l, o, Synth(v, ps[j].schema, origin, ps[j].key, camel));
        ElementsEmittedThen(start, before, out.literals, l,
          PerPropertyObjects(v, ps[..j], origin, camel), [ExObject(Synth(v, ps[j].schema, origin, ps[j].key, camel))]);
        PerPropertyObjectsStep(v, ps, j, origin, camel);
        j := j + 1;
      }
      assert ps[..|ps|] == ps;
    } else {
      ElementsEmittedNone(out.literals, l);
    }
  }

  // The steps of `Gen`, one lemma per shape of what it appends.

  /** One property with text or a finished literal as its value. */
  lemma OneProp(a: seq<Literal>, b: seq<Literal>, n: nat, p: Assignment)
    requires Forward(a) && Forward(b) && n < |a| && a[n].ObjectLiteral?
    requires |a| <= |b| && b[n] == ObjectLiteral(a[n].props + [p])
    requires forall j :: 0 <= j < |a| && j != n ==> b[j] == a[j]
    ensures GrewObject(a, b, n) && AddedProps(a, b, n) == [p]
    ensures ValueAbove(p.value, n, |b|)
    ensures PropsEmitted(a, b, n, [Entry(p.name, p.trivia, DecodeValue(b, n, p.value))])
  {
    assert AddedProps(a, b, n) == [p];
    assert LiteralAbove(b[n], n, |b|);
    assert b[n].props[|a[n].props|] == p;
  }

  /** `key: {}` then the properties generated into that object. */
  lemma NestedProps(a: seq<Literal>, m: seq<Literal>, b: seq<Literal>, n: nat, o: nat, p: Assignment, want: seq<Entry>)
    requires Forward(a) && n < |a| && a[n].ObjectLiteral?
    requires o == |a| && |m| == |a| + 1 && m[o] == ObjectLiteral([])
    requires p.value == Ref(o) && m[n] == ObjectLiteral(a[n].props + [p])
    requires forall j :: 0 <= j < |a| && j != n ==> m[j] == a[j]
    requires PropsEmitted(m, b, o, want)
    ensures PropsEmitted(a, b, n, [Entry(p.name, p.trivia, ExObject(want))])
  {
    assert b[n] == m[n];
    assert AddedProps(a, b, n) == [p];
    assert b[o].props == AddedProps(m, b, o);
    assert DecodeLiteral(b, o) == ExObject(want);
    assert DecodeProps(b, n, [p]) == [Entry(p.name, p.trivia, DecodeLiteral(b, o))];
  }

  /** `key: []` then the tuple's elements added to that array. */
  lemma NestedElements(a: seq<Literal>, m: seq<Literal>, b: seq<Literal>, n: nat, l: nat, p: Assignment, want: seq<Example>)
    requires Forward(a) && n < |a| && a[n].ObjectLiteral?
    requires l == |a| && |m| == |a| + 1 && m[l] == ArrayLiteral([])
    requires p.value == Ref(l) && m[n] == ObjectLiteral(a[n].props + [p])
    requires forall j :: 0 <= j < |a| && j != n ==> m[j] == a[j]
    requires ElementsEmitted(m, b, l, want)
    ensures PropsEmitted(a, b, n, [Entry(p.name, p.trivia, ExArray(want))])
  {
    assert b[n] == m[n];
    assert AddedProps(a, b, n) == [p];
    assert b[l].elements == AddedElements(m, b, l);
    assert DecodeLiteral(b, l) == ExArray(want);
    assert DecodeProps(b, n, [p]) == [Entry(p.name, p.trivia, DecodeLiteral(b, l))];
  }

  /** `key: [{}]` then the item's properties generated into that one object. */
  lemma SingleObjectArray(a: seq<Literal>, m: seq<Literal>, b: seq<Literal>, n: nat, l: nat, o: nat, p: Assignment, want: seq<Entry>)
    requires Forward(a) && n < |a| && a[n].ObjectLiteral?
    requires l == |a| && o == |a| + 1 && |m| == |a| + 2
    requires m[l] == ArrayLiteral([Ref(o)]) && m[o] == ObjectLiteral([])
    requires p.value == Ref(l) && m[n] == ObjectLiteral(a[n].props + [p])
    requires forall j :: 0 <= j < |a| && j != n ==> m[j] == a[j]
    requires PropsEmitted(m, b, o, want)
    ensures PropsEmitted(a, b, n, [Entry(p.name, p.trivia, ExArray([ExObject(want)]))])
  {
    assert b[n] == m[n] && b[l] == m[l];
    assert AddedProps(a, b, n) == [p];
    assert b[o].props == AddedProps(m, b, o);
    assert DecodeLiteral(b, o) == ExObject(want);
    assert DecodeValues(b, l, [Ref(o)]) == [DecodeLiteral(b, o)];
    assert DecodeProps(b, n, [p]) == [Entry(p.name, p.trivia, DecodeLiteral(b, l))];
  }

  /** A fresh `{}` element, then a property generated into it. */
  lemma FreshObjectElement(a: seq<Literal>, m: seq<Literal>, b: seq<Literal>, l: nat, o: nat, want: seq<Entry>)
    requires Forward(a) && l < |a| && a[l].ArrayLiteral?
    requires o == |a| && |m| == |a| + 1 && m[o] == ObjectLiteral([])
    requires m[l] == ArrayLiteral(a[l].elements + [Ref(o)])
    requires forall j :: 0 <= j < |a| && j != l ==> m[j] == a[j]
    requires PropsEmitted(m, b, o, want)
    ensures ElementsEmitted(a, b, l, [ExObject(want)])
  {
    assert b[l] == m[l];
    assert AddedElements(a, b, l) == [Ref(o)];
    assert b[o].props == AddedProps(m, b, o);
    assert DecodeLiteral(b, o) == ExObject(want);
    assert DecodeValues(b, l, [Ref(o)]) == [DecodeLiteral(b, o)];
  }
}
