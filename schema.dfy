/** The JSON-schema shape the example synthesizer walks (`ISchema`) and the
    pure helpers shared, character for character, by the two copies of
    jsonSchema2json.ts (src/gen and src/genSchema). */
module Schema {
  import opened Wrappers
  import opened JsStrings

  datatype SchemaType = BooleanType | NumberType | StringType | ObjectType | ArrayType

  /** `items` of an array schema: absent, a list (a tuple) or a single schema
      (a homogeneous array). */
  datatype Items = NoItems | Tuple(elements: seq<Schema>) | Single(item: Schema)

  /** One entry of `properties`, in the object's insertion order. */
  datatype Property = Property(key: string, schema: Schema)

  /** An `ISchema` node. An absent `properties` is the empty list: `for...in`
      over `undefined` visits nothing, as over `{}`. */
  datatype Schema = Schema(
    kind: SchemaType,
    properties: seq<Property>,
    items: Items,
    description: Option<string>,
    id: Option<string>)

  /** The `id` value that switches the camelCase key rewrite on. */
  const CamelTag: string := "toCamelCase"

  function TypeName(t: SchemaType): string {
    match t
    case BooleanType => "boolean"
    case NumberType => "number"
    case StringType => "string"
    case ObjectType => "object"
    case ArrayType => "array"
  }

  predicate IsPrimitive(t: SchemaType) {
    t == BooleanType || t == NumberType || t == StringType
  }

  // Termination measures for the walk over a schema tree.

  function SchemaSize(s: Schema): nat {
    1 + PropertiesSize(s.properties) + ItemsSize(s.items)
  }

  function PropertiesSize(ps: seq<Property>): nat {
    if ps == [] then 0 else SchemaSize(ps[0].schema) + PropertiesSize(ps[1..])
  }

  function ItemsSize(it: Items): nat {
    match it
    case NoItems => 0
    case Tuple(es) => ListSize(es)
    case Single(x) => SchemaSize(x)
  }

  function ListSize(es: seq<Schema>): nat {
    if es == [] then 0 else SchemaSize(es[0]) + ListSize(es[1..])
  }

  lemma {:induction false} PropertySmaller(ps: seq<Property>, i: nat)
    requires i < |ps|
    ensures SchemaSize(ps[i].schema) <= PropertiesSize(ps)
  {
    if i > 0 { PropertySmaller(ps[1..], i - 1); }
  }

  lemma {:induction false} ElementSmaller(es: seq<Schema>, i: nat)
    requires i < |es|
    ensures SchemaSize(es[i]) <= ListSize(es)
  {
    if i > 0 { ElementSmaller(es[1..], i - 1); }
  }

  lemma ItemsSmaller(s: Schema)
    ensures PropertiesSize(s.properties) < SchemaSize(s)
    ensures s.items.Tuple? ==> ListSize(s.items.elements) < SchemaSize(s)
    ensures s.items.Single? ==> PropertiesSize(s.items.item.properties) < SchemaSize(s)
  {
  }

  /** The JavaScript values the value formatters return. */
  datatype JsValue = JsFalse | JsZero | JsString(s: string)

  /** `typeof v`. */
  function TypeOf(v: JsValue): string {
    match v
    case JsFalse => "boolean"
    case JsZero => "number"
    case JsString(_) => "string"
  }

  /** `getDefaulValue(type, pureString)`: a representative value of a
      primitive type, `undefined` for objects and arrays. */
  function DefaultValue(t: SchemaType, pureString: bool): (r: Option<JsValue>)
    ensures r.Some? <==> IsPrimitive(t)
  {
    match t
    case BooleanType => Some(JsFalse)
    case NumberType => Some(JsZero)
    case StringType => Some(JsString(if pureString then "" else "\"\""))
    case _ => None
  }

  /** `getOriginValue(type)`: the primitive type's own name. */
  function OriginValue(t: SchemaType): (r: Option<JsValue>)
    ensures r.Some? <==> IsPrimitive(t)
    ensures r.Some? ==> r.value == JsString(TypeName(t))
  {
    if IsPrimitive(t) then Some(JsString(TypeName(t))) else None
  }

  /** `format(type, pureString)`: `getOriginValue` in origin mode (which
      ignores `pureString`), `getDefaulValue` otherwise. */
  function Format(origin: bool, t: SchemaType, pureString: bool): Option<JsValue> {
    if origin then OriginValue(t) else DefaultValue(t, pureString)
  }

  /** The text of `${v}` in a template literal. */
  function TemplateText(v: Option<JsValue>): string {
    match v
    case None => "undefined"
    case Some(JsFalse) => "false"
    case Some(JsZero) => "0"
    case Some(JsString(s)) => s
  }

  /** `JSON.stringify` of a string: quoted, with `"` and `\` escaped. The
      control characters U+0000 to U+001F, which `JSON.stringify` escapes
      too, are not: the only strings quoted here are the type names
      `boolean`, `number` and `string` and the empty default. */
  function JsonQuote(s: string): string {
    "\"" + JsonEscape(s) + "\""
  }

  function JsonEscape(s: string): string {
    if s == [] then ""
    else (if s[0] == '"' || s[0] == '\\' then ['\\', s[0]] else [s[0]]) + JsonEscape(s[1..])
  }

  /** `JSON.stringify(v)`. */
  function JsonText(v: JsValue): string {
    match v
    case JsFalse => "false"
    case JsZero => "0"
    case JsString(s) => JsonQuote(s)
  }

  /** In default mode every primitive schema gets a value of its own JavaScript
      type; in origin mode the value is the type's name. */
  lemma FormatMatchesType(t: SchemaType, pureString: bool)
    requires IsPrimitive(t)
    ensures TypeOf(DefaultValue(t, pureString).value) == TypeName(t)
    ensures TemplateText(OriginValue(t)) == TypeName(t)
    ensures Format(true, t, pureString) == Format(true, t, !pureString)
    ensures t != StringType ==> DefaultValue(t, pureString) == DefaultValue(t, !pureString)
  {
  }

  /** A tuple item (`JSON.stringify(format(type, true))`) and a property
      initializer (`${format(type)}`) render the default value with the same
      text; origin mode quotes the name only in tuples. */
  lemma {:induction false} TupleAndPropertyTextsAgree(t: SchemaType)
    requires IsPrimitive(t)
    ensures JsonText(DefaultValue(t, true).value) == TemplateText(DefaultValue(t, false))
    ensures JsonText(OriginValue(t).value) == "\"" + TemplateText(OriginValue(t)) + "\""
  {
    TypeNamePlain(t);
    NoQuotesNoEscape(TypeName(t));
  }

  lemma TypeNamePlain(t: SchemaType)
    ensures forall i :: 0 <= i < |TypeName(t)| ==> TypeName(t)[i] != '"' && TypeName(t)[i] != '\\'
  {
    match t {
      case BooleanType =>
      case NumberType =>
      case StringType =>
      case ObjectType =>
      case ArrayType =>
    }
  }

  lemma {:induction false} NoQuotesNoEscape(s: string)
    requires forall i :: 0 <= i < |s| ==> s[i] != '"' && s[i] != '\\'
    ensures JsonEscape(s) == s
  {
    if s != [] {
      NoQuotesNoEscape(s[1..]);
      assert s == [s[0]] + s[1..];
    }
  }

  /** `descriptionHandler(s)`: nothing for an absent or blank description;
      otherwise each line turned into a `//` comment, the whole ending in a
      newline. */
  function DescriptionHandler(s: Option<string>): (r: string)
    ensures r == "" <==> s.None? || AllWhitespace(s.value)
    ensures r != "" ==> |r| >= 3 && r[..2] == "//" && r[|r| - 1] == '\n'
  {
    if s.Some? && s.value != "" && Trim(s.value) != "" then
      "//" + Join(Split(s.value, '\n'), "\n//") + "\n"
    else ""
  }

  /** Every line of `ls`, prefixed with `//`. */
  function Commented(ls: seq<string>): (r: seq<string>)
    ensures |r| == |ls|
    ensures forall i :: 0 <= i < |ls| ==> r[i] == "//" + ls[i]
  {
    if ls == [] then [] else ["//" + ls[0]] + Commented(ls[1..])
  }

  lemma {:induction false} JoinCommented(ls: seq<string>)
    requires ls != []
    ensures "//" + Join(ls, "\n//") + "\n" == Terminated(Commented(ls), '\n')
  {
    if |ls| == 1 {
      assert Commented(ls) == ["//" + ls[0]];
      assert Terminated(Commented(ls), '\n') == "//" + ls[0] + "\n" + Terminated([], '\n');
    } else {
      JoinCommented(ls[1..]);
      var c := Commented(ls);
      assert c[1..] == Commented(ls[1..]);
      calc {
        "//" + Join(ls, "\n//") + "\n";
        "//" + (ls[0] + "\n//" + Join(ls[1..], "\n//")) + "\n";
        ("//" + ls[0] + "\n") + ("//" + Join(ls[1..], "\n//") + "\n");
        c[0] + "\n" + Terminated(c[1..], '\n');
      }
    }
  }

  /** A non-blank description becomes exactly one `//` comment line per line of
      the description, in order: splitting the rendered text at its newlines
      gives back the commented lines (and the empty rest after the final
      newline). */
  lemma DescriptionLines(s: string)
    requires !AllWhitespace(s)
    ensures Split(DescriptionHandler(Some(s)), '\n') == Commented(Split(s, '\n')) + [""]
  {
    var ls := Split(s, '\n');
    var cs := Commented(ls);
    JoinCommented(ls);
    forall i | 0 <= i < |cs| ensures '\n' !in cs[i] {
      assert cs[i] == "//" + ls[i];
    }
    SplitTerminated(cs, "", '\n');
    assert Terminated(cs, '\n') + "" == Terminated(cs, '\n');
  }

  predicate IsWordChar(c: char) {
    ('a' <= c <= 'z') || ('A' <= c <= 'Z') || ('0' <= c <= '9') || c == '_'
  }

  /** `toUpperCase` on the characters `\w` can match. */
  function ToUpper(c: char): char {
    if 'a' <= c <= 'z' then (c as int - 32) as char else c
  }

  /** The regular expression `_(\w)` matches at index `i`. */
  predicate MatchAt(s: string, i: nat) {
    i + 1 < |s| && s[i] == '_' && IsWordChar(s[i + 1])
  }

  predicate NoMatch(s: string) {
    forall i: nat :: i < |s| ==> !MatchAt(s, i)
  }

  /** `name.replace(/_(\w)/g, (_, l) => l.toUpperCase())`: scanning left to
      right, each `_` followed by a word character is replaced by that
      character upper-cased, and the scan resumes after it; every
      replacement shortens the name by one. */
  function SnakeToCamel(s: string): (r: string)
    ensures |r| <= |s|
    ensures |s| >= 2 && s[0] == '_' && IsWordChar(s[1]) ==> |r| < |s|
  {
    if |s| >= 2 && s[0] == '_' && IsWordChar(s[1]) then [ToUpper(s[1])] + SnakeToCamel(s[2..])
    else if s == [] then []
    else [s[0]] + SnakeToCamel(s[1..])
  }

  /** A name is left unchanged exactly when `_(\w)` matches nowhere in it. */
  lemma {:induction false} SnakeToCamelUnchanged(s: string)
    ensures SnakeToCamel(s) == s <==> NoMatch(s)
  {
    if |s| >= 2 && s[0] == '_' && IsWordChar(s[1]) {
      assert MatchAt(s, 0);
    } else if s != [] {
      SnakeToCamelUnchanged(s[1..]);
      assert !MatchAt(s, 0);
      assert NoMatch(s) <==> NoMatch(s[1..]) by {
        if NoMatch(s) {
          NoMatchTail(s);
        } else {
          var i: nat :| i < |s| && MatchAt(s, i);
          assert MatchAt(s[1..], i - 1);
        }
      }
      var r := SnakeToCamel(s);
      assert r == [s[0]] + SnakeToCamel(s[1..]);
      assert s == [s[0]] + s[1..];
      if r == s {
        assert r[1..] == SnakeToCamel(s[1..]);
      }
    }
  }

  /** A name where `_(\w)` matches nowhere (none has `_` followed by a word
      character) is left as it is. */
  lemma SnakeToCamelNoMatch(s: string)
    requires NoMatch(s)
    ensures SnakeToCamel(s) == s
  {
    SnakeToCamelUnchanged(s);
  }

  /** Up to the first place where `_(\w)` matches, a name is copied; the `_`
      and the word character after it become that character upper-cased;
      the rest is converted in turn. `NoMatch(p + "_")` says that no `_` of
      `p` is followed by a word character, counting the `_` after `p`. */
  lemma {:induction false} SnakeToCamelAtUnderscore(p: string, c: char, rest: string)
    requires NoMatch(p + "_")
    requires IsWordChar(c)
    ensures SnakeToCamel(p + ['_', c] + rest) == p + [ToUpper(c)] + SnakeToCamel(rest)
  {
    var s := p + ['_', c] + rest;
    if p == [] {
      assert s == ['_', c] + rest;
      assert s[2..] == rest;
    } else {
      var q := p + "_";
      assert s[0] == q[0] == p[0];
      assert s[1] == q[1] by {
        if |p| == 1 {
          assert s[1] == '_';
        } else {
          assert s[1] == p[1];
        }
      }
      NoMatchHead(q);
      SnakeToCamelHead(s);
      NoMatchTail(q);
      assert q[1..] == p[1..] + "_";
      SnakeToCamelAtUnderscore(p[1..], c, rest);
      assert s[1..] == p[1..] + ['_', c] + rest;
      calc {
        SnakeToCamel(s);
        [p[0]] + SnakeToCamel(p[1..] + ['_', c] + rest);
        [p[0]] + (p[1..] + [ToUpper(c)] + SnakeToCamel(rest));
        { assert [p[0]] + p[1..] == p; }
        p + [ToUpper(c)] + SnakeToCamel(rest);
      }
    }
  }

  lemma NoMatchHead(q: string)
    requires |q| >= 2 && NoMatch(q)
    ensures !(q[0] == '_' && IsWordChar(q[1]))
  {
    assert !MatchAt(q, 0);
  }

  lemma NoMatchTail(q: string)
    requires q != [] && NoMatch(q)
    ensures NoMatch(q[1..])
  {
    forall i: nat | i < |q[1..]| ensures !MatchAt(q[1..], i) {
      assert !MatchAt(q, i + 1);
    }
  }

  /** Where `_(\w)` does not match at the start, the first character is
      copied. */
  lemma SnakeToCamelHead(s: string)
    requires |s| >= 2 && !(s[0] == '_' && IsWordChar(s[1]))
    ensures SnakeToCamel(s) == [s[0]] + SnakeToCamel(s[1..])
  {
  }

  lemma SnakeToCamelExample()
    ensures SnakeToCamel("user_id") == "userId"
    ensures SnakeToCamel("a_$b_c") == "a_$bC"
  {
    SnakeToCamelAtUnderscore("user", 'i', "d");
    assert "user" + ['_', 'i'] + "d" == "user_id";
    SnakeToCamelAtUnderscore("a_$b", 'c', "");
    assert "a_$b" + ['_', 'c'] + "" == "a_$b_c";
  }

  /** `paramsHandler(s)`: the comma-separated pieces between the first and
      last character of the trimmed text; `[]` for an empty or absent text. */
  function ParamsHandler(s: Option<string>): (r: seq<string>)
    ensures s.None? || s.value == "" ==> r == []
    ensures s.Some? && s.value != "" ==>
      var inner := SliceInner(Trim(s.value));
      && |r| == CountChar(inner, ',') + 1
      && (forall i :: 0 <= i < |r| ==> ',' !in r[i])
      && Join(r, ",") == inner
  {
    if s.None? || s.value == "" then []
    else
      var inner := SliceInner(Trim(s.value));
      JoinSplit(inner, ',');
      Split(inner, ',')
  }
}
