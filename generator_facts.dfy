/** What the example synthesizer promises, stated about `Synth` (and so, by
    `Generator.Gen`'s contract, about the output tree): which properties
    produce an entry and in what order, how wide a tuple comes out, and what
    the `toCamelCase` tag does. */
module GeneratorFacts {
  import opened Wrappers
  import opened JsStrings
  import opened Schema
  import opened ExampleOutput
  import opened Generator

  /** The schemas `gen` writes something for: everything but an array whose
      items are absent, or a single item that is neither an object nor a
      primitive. */
  predicate Produces(s: Schema) {
    s.kind != ArrayType
    || s.items.Tuple?
    || (s.items.Single? && (s.items.item.kind == ObjectType || IsPrimitive(s.items.item.kind)))
  }

  /** One `gen` call writes one property when the schema produces one and
      nothing otherwise; an array property is written under the raw key, any
      other under the key as the camel mode names it. */
  lemma SynthShape(v: Variant, s: Schema, origin: bool, key: string, toCamel: bool)
    ensures |Synth(v, s, origin, key, toCamel)| == (if Produces(s) then 1 else 0)
    ensures Produces(s) ==>
              Synth(v, s, origin, key, toCamel)[0].name
              == (if s.kind == ArrayType then key else NameFor(CamelOn(v, s, toCamel), key))
    ensures Produces(s) ==> Synth(v, s, origin, key, toCamel)[0].trivia == DescriptionHandler(s.description)
  {
  }

  /** The primitive values: in default mode a value of the schema's own type
      (`false`, `0`, `""`), in origin mode the type's name. */
  lemma PrimitiveValue(v: Variant, s: Schema, origin: bool, key: string, toCamel: bool)
    requires IsPrimitive(s.kind)
    ensures origin ==> Synth(v, s, origin, key, toCamel)[0].value == ExText(TypeName(s.kind))
    ensures !origin ==>
              Synth(v, s, origin, key, toCamel)[0].value
              == ExText(match s.kind case BooleanType => "false" case NumberType => "0" case _ => "\"\"")
  {
  }

  function Names(es: seq<Entry>): (r: seq<string>)
    ensures |r| == |es|
    ensures forall i :: 0 <= i < |es| ==> r[i] == es[i].name
  {
    if es == [] then [] else [es[0].name] + Names(es[1..])
  }

  /** The keys of the properties that produce an entry, in insertion order. */
  function ProducingKeys(ps: seq<Property>): seq<string> {
    if ps == [] then []
    else (if Produces(ps[0].schema) then [ps[0].key] else []) + ProducingKeys(ps[1..])
  }

  lemma {:induction false} NamesAppend(a: seq<Entry>, b: seq<Entry>)
    ensures Names(a + b) == Names(a) + Names(b)
  {
    if a == [] {
      assert a + b == b;
    } else {
      assert (a + b)[1..] == a[1..] + b;
      NamesAppend(a[1..], b);
    }
  }

  /** The plain copy writes an object's properties under their own keys, one
      per producing property, in the order of the schema's `properties`. */
  lemma {:induction false} PlainPropertyOrder(ps: seq<Property>, origin: bool, camel: bool)
    ensures Names(SynthProps(Plain, ps, origin, camel)) == ProducingKeys(ps)
  {
    if ps != [] {
      PlainPropertyOrder(ps[1..], origin, camel);
      SynthShape(Plain, ps[0].schema, origin, ps[0].key, camel);
      NamesAppend(Synth(Plain, ps[0].schema, origin, ps[0].key, camel), SynthProps(Plain, ps[1..], origin, camel));
    }
  }

  /** How many elements one tuple item contributes. */
  function ItemWidth(it: Schema): nat {
    if IsPrimitive(it.kind) then 1
    else if it.kind == ObjectType then |it.properties|
    else 0
  }

  function TupleWidth(es: seq<Schema>): nat {
    if es == [] then 0 else ItemWidth(es[0]) + TupleWidth(es[1..])
  }

  /** A tuple comes out with one element per primitive item and one object
      per property of each object item; other items add nothing. */
  lemma {:induction false} TupleLength(v: Variant, es: seq<Schema>, origin: bool, camel: bool)
    ensures |TupleElements(v, es, origin, camel)| == TupleWidth(es)
  {
    if es != [] {
      TupleLength(v, es[1..], origin, camel);
      if es[0].kind == ObjectType {
        PerPropertyLength(v, es[0].properties, origin, camel);
      }
    }
  }

  lemma {:induction false} PerPropertyLength(v: Variant, ps: seq<Property>, origin: bool, camel: bool)
    ensures |PerPropertyObjects(v, ps, origin, camel)| == |ps|
  {
    if ps != [] {
      PerPropertyLength(v, ps[1..], origin, camel);
    }
  }

  // The camelCase rewrite, as a transformation of the plain output.

  /** Every entry name rewritten by `snakeToCamel`, except the names of entries
      holding arrays, at every depth. */
  function CamelizeEntries(es: seq<Entry>): (r: seq<Entry>)
    ensures |r| == |es|
    decreases EntriesSize(es), 1
  {
    if es == [] then []
    else
      var e := es[0];
      [Entry(if e.value.ExArray? then e.name else SnakeToCamel(e.name), e.trivia, Camelize(e.value))]
        + CamelizeEntries(es[1..])
  }

  function Camelize(x: Example): Example
    decreases ExampleSize(x), 0
  {
    match x
    case ExText(_) => x
    case ExObject(es) => ExObject(CamelizeEntries(es))
    case ExArray(xs) => ExArray(CamelizeAll(xs))
  }

  function CamelizeAll(xs: seq<Example>): (r: seq<Example>)
    ensures |r| == |xs|
    decreases ExamplesSize(xs), 1
  {
    if xs == [] then [] else [Camelize(xs[0])] + CamelizeAll(xs[1..])
  }

  lemma {:induction false} CamelizeEntriesAppend(a: seq<Entry>, b: seq<Entry>)
    ensures CamelizeEntries(a + b) == CamelizeEntries(a) + CamelizeEntries(b)
  {
    if a == [] {
      assert a + b == b;
    } else {
      assert (a + b)[1..] == a[1..] + b;
      CamelizeEntriesAppend(a[1..], b);
    }
  }

  lemma {:induction false} CamelizeAllAppend(a: seq<Example>, b: seq<Example>)
    ensures CamelizeAll(a + b) == CamelizeAll(a) + CamelizeAll(b)
  {
    if a == [] {
      assert a + b == b;
    } else {
      assert (a + b)[1..] == a[1..] + b;
      CamelizeAllAppend(a[1..], b);
    }
  }

  /** With toCamel on, the camel-aware copy writes exactly what the plain copy
      writes with every non-array key rewritten by `snakeToCamel`, at every
      depth: once on, the mode is never switched off below, whatever the
      nested `id`s say. */
  lemma {:induction false} CamelRenames(s: Schema, origin: bool, key: string)
    ensures Synth(CamelAware, s, origin, key, true) == CamelizeEntries(Synth(Plain, s, origin, key, false))
    decreases SchemaSize(s), 0
  {
    ItemsSmaller(s);
    match s.kind {
      case ObjectType =>
        CamelRenamesProps(s.properties, origin);
      case ArrayType =>
        match s.items {
          case Tuple(es) => CamelRenamesTuple(es, origin);
          case Single(it) =>
            if it.kind == ObjectType {
              CamelRenamesProps(it.properties, origin);
              assert CamelizeAll([ExObject(SynthProps(Plain, it.properties, origin, false))])
                  == [ExObject(SynthProps(CamelAware, it.properties, origin, true))];
            } else if IsPrimitive(it.kind) {
              var t := ExText(TemplateText(Format(origin, it.kind, false)));
              assert CamelizeAll([t]) == [t];
            }
          case NoItems =>
        }
      case _ =>
    }
  }

  lemma {:induction false} CamelRenamesProps(ps: seq<Property>, origin: bool)
    ensures SynthProps(CamelAware, ps, origin, true) == CamelizeEntries(SynthProps(Plain, ps, origin, false))
    decreases PropertiesSize(ps), 1
  {
    if ps != [] {
      CamelRenames(ps[0].schema, origin, ps[0].key);
      CamelRenamesProps(ps[1..], origin);
      CamelizeEntriesAppend(Synth(Plain, ps[0].schema, origin, ps[0].key, false), SynthProps(Plain, ps[1..], origin, false));
    }
  }

  lemma {:induction false} CamelRenamesTuple(es: seq<Schema>, origin: bool)
    ensures TupleElements(CamelAware, es, origin, true) == CamelizeAll(TupleElements(Plain, es, origin, false))
    decreases ListSize(es), 2
  {
    if es != [] {
      CamelRenamesItem(es[0], origin);
      CamelRenamesTuple(es[1..], origin);
      CamelizeAllAppend(ItemElements(Plain, es[0], origin, false), TupleElements(Plain, es[1..], origin, false));
    }
  }

  lemma {:induction false} CamelRenamesItem(it: Schema, origin: bool)
    ensures ItemElements(CamelAware, it, origin, true) == CamelizeAll(ItemElements(Plain, it, origin, false))
    decreases SchemaSize(it), 1
  {
    ItemsSmaller(it);
    if IsPrimitive(it.kind) {
      var t := ExText(JsonText(Format(origin, it.kind, true).value));
      assert CamelizeAll([t]) == [t];
    } else if it.kind == ObjectType {
      CamelRenamesPerProperty(it.properties, origin);
    }
  }

  lemma {:induction false} CamelRenamesPerProperty(ps: seq<Property>, origin: bool)
    ensures PerPropertyObjects(CamelAware, ps, origin, true) == CamelizeAll(PerPropertyObjects(Plain, ps, origin, false))
    decreases PropertiesSize(ps), 1
  {
    if ps != [] {
      CamelRenames(ps[0].schema, origin, ps[0].key);
      CamelRenamesPerProperty(ps[1..], origin);
      var head := [ExObject(Synth(Plain, ps[0].schema, origin, ps[0].key, false))];
      CamelizeAllAppend(head, PerPropertyObjects(Plain, ps[1..], origin, false));
      assert CamelizeAll(head) == [ExObject(Synth(CamelAware, ps[0].schema, origin, ps[0].key, true))];
    }
  }

  /** The `toCamelCase` tag on a schema switches the camel mode on for it. */
  lemma TagSwitchesCamelOn(s: Schema, origin: bool, key: string)
    requires s.id == Some(CamelTag)
    ensures Synth(CamelAware, s, origin, key, false) == CamelizeEntries(Synth(Plain, s, origin, key, false))
  {
    CamelRenames(s, origin, key);
  }

  /** No schema in the tree carries the `toCamelCase` tag. */
  predicate Untagged(s: Schema)
    decreases SchemaSize(s), 1
  {
    ItemsSmaller(s);
    && s.id != Some(CamelTag)
    && UntaggedProps(s.properties)
    && match s.items
       case NoItems => true
       case Tuple(es) => UntaggedList(es)
       case Single(it) => Untagged(it)
  }

  predicate UntaggedProps(ps: seq<Property>)
    decreases PropertiesSize(ps), 2
  {
    ps == [] || (Untagged(ps[0].schema) && UntaggedProps(ps[1..]))
  }

  predicate UntaggedList(es: seq<Schema>)
    decreases ListSize(es), 2
  {
    es == [] || (Untagged(es[0]) && UntaggedList(es[1..]))
  }

  /** Without the tag anywhere and without toCamel, the camel-aware copy
      writes what the plain copy writes. */
  lemma {:induction false} UntaggedIsPlain(s: Schema, origin: bool, key: string)
    requires Untagged(s)
    ensures Synth(CamelAware, s, origin, key, false) == Synth(Plain, s, origin, key, false)
    decreases SchemaSize(s), 0
  {
    ItemsSmaller(s);
    match s.kind {
      case ObjectType =>
        UntaggedIsPlainProps(s.properties, origin);
      case ArrayType =>
        match s.items {
          case Tuple(es) => UntaggedIsPlainTuple(es, origin);
          case Single(it) =>
            if it.kind == ObjectType {
              UntaggedIsPlainProps(it.properties, origin);
            }
          case NoItems =>
        }
      case _ =>
    }
  }

  lemma {:induction false} UntaggedIsPlainProps(ps: seq<Property>, origin: bool)
    requires UntaggedProps(ps)
    ensures SynthProps(CamelAware, ps, origin, false) == SynthProps(Plain, ps, origin, false)
    decreases PropertiesSize(ps), 1
  {
    if ps != [] {
      UntaggedIsPlain(ps[0].schema, origin, ps[0].key);
      UntaggedIsPlainProps(ps[1..], origin);
    }
  }

  lemma {:induction false} UntaggedIsPlainTuple(es: seq<Schema>, origin: bool)
    requires UntaggedList(es)
    ensures TupleElements(CamelAware, es, origin, false) == TupleElements(Plain, es, origin, false)
    decreases ListSize(es), 2
  {
    if es != [] {
      ItemsSmaller(es[0]);
      if es[0].kind == ObjectType {
        UntaggedIsPlainPerProperty(es[0].properties, origin);
      }
      UntaggedIsPlainTuple(es[1..], origin);
    }
  }

  lemma {:induction false} UntaggedIsPlainPerProperty(ps: seq<Property>, origin: bool)
    requires UntaggedProps(ps)
    ensures PerPropertyObjects(CamelAware, ps, origin, false) == PerPropertyObjects(Plain, ps, origin, false)
    decreases PropertiesSize(ps), 1
  {
    if ps != [] {
      UntaggedIsPlain(ps[0].schema, origin, ps[0].key);
      UntaggedIsPlainPerProperty(ps[1..], origin);
    }
  }

  /** What `gen` writes (`Synth`, which `Gen` is proved to add) for a
      snake_case key under the tag is the camelCase name: `user_id` is
      written as `userId` by the camel-aware copy and kept by the plain one. */
  lemma CamelExample(origin: bool)
    ensures var s := Schema(NumberType, [], NoItems, None, Some(CamelTag));
      Synth(CamelAware, s, origin, "user_id", false)[0].name == "userId"
      && Synth(Plain, s, origin, "user_id", false)[0].name == "user_id"
  {
    SnakeToCamelExample();
  }
}
