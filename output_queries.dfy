/** Reading the generated output back: `extractSchema`, the first property
    of a given name in pre-order and the child it returns for it. */
module OutputQueries {
  import opened Wrappers
  import opened ExampleOutput

  /** The syntax kinds `extractSchema` asks for, and everything else. */
  datatype Kind = ObjectLiteralKind | ArrayLiteralKind | NumericLiteralKind | StringLiteralKind
                | FalseKeywordKind | OtherKind

  predicate IsDigits(t: string) {
    t != [] && forall i :: 0 <= i < |t| ==> '0' <= t[i] <= '9'
  }

  predicate IsQuoted(t: string) {
    |t| >= 2 && (t[0] == '"' || t[0] == '\'')
  }

  /** The kind of the node an initializer text parses to: the texts `gen`
      writes are `false`, decimal digits, quoted strings and identifiers. */
  function TextKind(t: string): Kind {
    if t == "false" then FalseKeywordKind
    else if IsDigits(t) then NumericLiteralKind
    else if IsQuoted(t) then StringLiteralKind
    else OtherKind
  }

  /** The kind of a property's name node: a numeric or string literal for a
      numeric or quoted key, an identifier (even `false`) otherwise. */
  function NameKind(name: string): Kind {
    if IsDigits(name) then NumericLiteralKind
    else if IsQuoted(name) then StringLiteralKind
    else OtherKind
  }

  function ValueKind(lits: seq<Literal>, v: Value): Kind
    requires v.Ref? ==> v.literal < |lits|
  {
    match v
    case Text(t) => TextKind(t)
    case Ref(j) => if lits[j].ObjectLiteral? then ObjectLiteralKind else ArrayLiteralKind
  }

  /** A property assignment found in the output, with the literal it is in. */
  datatype Located = Located(owner: nat, prop: Assignment)

  predicate LocatedIn(lits: seq<Literal>, l: Located) {
    && l.owner < |lits| && lits[l.owner].ObjectLiteral?
    && l.prop in lits[l.owner].props
    && ValueAbove(l.prop.value, l.owner, |lits|)
  }

  /** `getFirstDescendant(n => Node.isPropertyAssignment(n) && n.getName() ===
      name)` on literal `i`: a pre-order search, each property checked before
      the literals under it. */
  function FindAssignment(lits: seq<Literal>, i: nat, name: string): (r: Option<Located>)
    requires Forward(lits) && i < |lits|
    ensures r.Some? ==> LocatedIn(lits, r.value) && r.value.prop.name == name && i <= r.value.owner
    decreases |lits| - i, 2, 0
  {
    match lits[i]
    case ObjectLiteral(_) => FindInProps(lits, i, 0, name)
    case ArrayLiteral(_) => FindInElements(lits, i, 0, name)
  }

  function FindInProps(lits: seq<Literal>, i: nat, k: nat, name: string): (r: Option<Located>)
    requires Forward(lits) && i < |lits| && lits[i].ObjectLiteral? && k <= |lits[i].props|
    ensures r.Some? ==> LocatedIn(lits, r.value) && r.value.prop.name == name && i <= r.value.owner
    decreases |lits| - i, 1, |lits[i].props| - k
  {
    if k == |lits[i].props| then None
    else
      var p := lits[i].props[k];
      assert LiteralAbove(lits[i], i, |lits|);
      if p.name == name then Some(Located(i, p))
      else match FindInValue(lits, i, p.value, name)
        case Some(l) => Some(l)
        case None => FindInProps(lits, i, k + 1, name)
  }

  function FindInElements(lits: seq<Literal>, i: nat, k: nat, name: string): (r: Option<Located>)
    requires Forward(lits) && i < |lits| && lits[i].ArrayLiteral? && k <= |lits[i].elements|
    ensures r.Some? ==> LocatedIn(lits, r.value) && r.value.prop.name == name && i <= r.value.owner
    decreases |lits| - i, 1, |lits[i].elements| - k
  {
    if k == |lits[i].elements| then None
    else
      assert LiteralAbove(lits[i], i, |lits|);
      match FindInValue(lits, i, lits[i].elements[k], name)
      case Some(l) => Some(l)
      case None => FindInElements(lits, i, k + 1, name)
  }

  function FindInValue(lits: seq<Literal>, i: nat, v: Value, name: string): (r: Option<Located>)
    requires Forward(lits) && ValueAbove(v, i, |lits|)
    ensures r.Some? ==> LocatedIn(lits, r.value) && r.value.prop.name == name && i < r.value.owner
    decreases |lits| - i, 0, 0
  {
    match v
    case Text(_) => None
    case Ref(j) => FindAssignment(lits, j, name)
  }

  // The same search on the example tree the output reads back as.

  function FindInExample(x: Example, name: string): (r: Option<Entry>)
    ensures r.Some? ==> r.value.name == name
    decreases ExampleSize(x), 0
  {
    match x
    case ExText(_) => None
    case ExObject(es) => FindInEntries(es, name)
    case ExArray(xs) => FindInExamples(xs, name)
  }

  function FindInEntries(es: seq<Entry>, name: string): (r: Option<Entry>)
    ensures r.Some? ==> r.value.name == name
    decreases EntriesSize(es), 1
  {
    if es == [] then None
    else if es[0].name == name then Some(es[0])
    else match FindInExample(es[0].value, name)
      case Some(e) => Some(e)
      case None => FindInEntries(es[1..], name)
  }

  function FindInExamples(xs: seq<Example>, name: string): (r: Option<Entry>)
    ensures r.Some? ==> r.value.name == name
    decreases ExamplesSize(xs), 1
  {
    if xs == [] then None
    else match FindInExample(xs[0], name)
      case Some(e) => Some(e)
      case None => FindInExamples(xs[1..], name)
  }

  /** Every entry of an example tree, in pre-order: each entry comes before
      the entries of its value, and siblings come in order. */
  function Listing(x: Example): seq<Entry>
    decreases ExampleSize(x), 0
  {
    match x
    case ExText(_) => []
    case ExObject(es) => ListEntries(es)
    case ExArray(xs) => ListExamples(xs)
  }

  function ListEntries(es: seq<Entry>): seq<Entry>
    decreases EntriesSize(es), 1
  {
    if es == [] then [] else [es[0]] + Listing(es[0].value) + ListEntries(es[1..])
  }

  function ListExamples(xs: seq<Example>): seq<Entry>
    decreases ExamplesSize(xs), 1
  {
    if xs == [] then [] else Listing(xs[0]) + ListExamples(xs[1..])
  }

  /** The first entry of `l` called `name`, or none when no entry is. */
  function FirstNamed(l: seq<Entry>, name: string): (r: Option<Entry>)
    ensures r.None? <==> forall k :: 0 <= k < |l| ==> l[k].name != name
    ensures r.Some? ==> r.value in l && r.value.name == name
  {
    if l == [] then None
    else if l[0].name == name then Some(l[0])
    else
      assert forall k :: 1 <= k < |l| ==> l[k] == l[1..][k - 1];
      FirstNamed(l[1..], name)
  }

  /** The entry found is the one at the least index holding the name. */
  lemma {:induction false} FirstNamedAt(l: seq<Entry>, name: string, k: nat)
    requires k < |l| && l[k].name == name
    requires forall j :: 0 <= j < k ==> l[j].name != name
    ensures FirstNamed(l, name) == Some(l[k])
  {
    if k > 0 {
      assert forall j :: 0 <= j < k - 1 ==> l[1..][j] == l[j + 1];
      FirstNamedAt(l[1..], name, k - 1);
    }
  }

  lemma {:induction false} FirstNamedAppend(a: seq<Entry>, b: seq<Entry>, name: string)
    ensures FirstNamed(a + b, name) == if FirstNamed(a, name).Some? then FirstNamed(a, name) else FirstNamed(b, name)
  {
    if a == [] {
      assert a + b == b;
    } else {
      assert (a + b)[1..] == a[1..] + b;
      FirstNamedAppend(a[1..], b, name);
    }
  }

  /** The search on the example tree finds the first entry of that name in
      its pre-order listing, and none when no entry has the name. */
  lemma {:induction false} FindIsFirstInListing(x: Example, name: string)
    ensures FindInExample(x, name) == FirstNamed(Listing(x), name)
    decreases ExampleSize(x), 0
  {
    match x
    case ExText(_) =>
    case ExObject(es) => FindInEntriesIsFirst(es, name);
    case ExArray(xs) => FindInExamplesIsFirst(xs, name);
  }

  lemma {:induction false} FindInEntriesIsFirst(es: seq<Entry>, name: string)
    ensures FindInEntries(es, name) == FirstNamed(ListEntries(es), name)
    decreases EntriesSize(es), 1
  {
    if es != [] {
      var l := Listing(es[0].value);
      var rest := ListEntries(es[1..]);
      assert ListEntries(es) == [es[0]] + (l + rest);
      assert ([es[0]] + (l + rest))[1..] == l + rest;
      if es[0].name != name {
        FindIsFirstInListing(es[0].value, name);
        FindInEntriesIsFirst(es[1..], name);
        FirstNamedAppend(l, rest, name);
      }
    }
  }

  lemma {:induction false} FindInExamplesIsFirst(xs: seq<Example>, name: string)
    ensures FindInExamples(xs, name) == FirstNamed(ListExamples(xs), name)
    decreases ExamplesSize(xs), 1
  {
    if xs != [] {
      FindIsFirstInListing(xs[0], name);
      FindInExamplesIsFirst(xs[1..], name);
      FirstNamedAppend(Listing(xs[0]), ListExamples(xs[1..]), name);
    }
  }

  /** A found assignment, read back as an entry of the example tree. */
  function AsEntry(lits: seq<Literal>, r: Option<Located>): Option<Entry>
    requires Forward(lits) && (r.Some? ==> LocatedIn(lits, r.value))
  {
    match r
    case None => None
    case Some(l) => Some(Entry(l.prop.name, l.prop.trivia, DecodeValue(lits, l.owner, l.prop.value)))
  }

  /** The search on the output finds the entry the search on its example
      tree finds. */
  lemma {:induction false} FindAgrees(lits: seq<Literal>, i: nat, name: string)
    requires Forward(lits) && i < |lits|
    ensures AsEntry(lits, FindAssignment(lits, i, name)) == FindInExample(DecodeLiteral(lits, i), name)
    decreases |lits| - i, 2, 0
  {
    match lits[i]
    case ObjectLiteral(ps) =>
      FindInPropsAgrees(lits, i, 0, name);
      assert ps[0..] == ps;
    case ArrayLiteral(vs) =>
      FindInElementsAgrees(lits, i, 0, name);
      assert vs[0..] == vs;
  }

  lemma {:induction false} FindInPropsAgrees(lits: seq<Literal>, i: nat, k: nat, name: string)
    requires Forward(lits) && i < |lits| && lits[i].ObjectLiteral? && k <= |lits[i].props|
    ensures PropsAbove(lits[i].props[k..], i, |lits|)
    ensures AsEntry(lits, FindInProps(lits, i, k, name)) == FindInEntries(DecodeProps(lits, i, lits[i].props[k..]), name)
    decreases |lits| - i, 1, |lits[i].props| - k
  {
    var ps := lits[i].props;
    assert LiteralAbove(lits[i], i, |lits|);
    assert PropsAbove(ps[k..], i, |lits|) by {
      forall m | 0 <= m < |ps[k..]| ensures ValueAbove(ps[k..][m].value, i, |lits|) {
        assert ps[k..][m] == ps[k + m];
      }
    }
    if k < |ps| {
      var p := ps[k];
      assert ps[k..][1..] == ps[k + 1..];
      var es := DecodeProps(lits, i, ps[k..]);
      assert es[0] == Entry(p.name, p.trivia, DecodeValue(lits, i, p.value));
      assert es[1..] == DecodeProps(lits, i, ps[k + 1..]);
      if p.name != name {
        FindInValueAgrees(lits, i, p.value, name);
        FindInPropsAgrees(lits, i, k + 1, name);
      }
    }
  }

  lemma {:induction false} FindInElementsAgrees(lits: seq<Literal>, i: nat, k: nat, name: string)
    requires Forward(lits) && i < |lits| && lits[i].ArrayLiteral? && k <= |lits[i].elements|
    ensures ValuesAbove(lits[i].elements[k..], i, |lits|)
    ensures AsEntry(lits, FindInElements(lits, i, k, name)) == FindInExamples(DecodeValues(lits, i, lits[i].elements[k..]), name)
    decreases |lits| - i, 1, |lits[i].elements| - k
  {
    var vs := lits[i].elements;
    assert LiteralAbove(lits[i], i, |lits|);
    assert ValuesAbove(vs[k..], i, |lits|) by {
      forall m | 0 <= m < |vs[k..]| ensures ValueAbove(vs[k..][m], i, |lits|) {
        assert vs[k..][m] == vs[k + m];
      }
    }
    if k < |vs| {
      assert vs[k..][1..] == vs[k + 1..];
      var xs := DecodeValues(lits, i, vs[k..]);
      assert xs[0] == DecodeValue(lits, i, vs[k]);
      assert xs[1..] == DecodeValues(lits, i, vs[k + 1..]);
      FindInValueAgrees(lits, i, vs[k], name);
      FindInElementsAgrees(lits, i, k + 1, name);
    }
  }

  lemma {:induction false} FindInValueAgrees(lits: seq<Literal>, i: nat, v: Value, name: string)
    requires Forward(lits) && ValueAbove(v, i, |lits|)
    ensures AsEntry(lits, FindInValue(lits, i, v, name)) == FindInExample(DecodeValue(lits, i, v), name)
    decreases |lits| - i, 0, 0
  {
    if v.Ref? {
      FindAgrees(lits, v.literal, name);
    }
  }

  /** The search on the output finds, read back, the first property of
      that name in the pre-order listing of the literal's value, and finds
      nothing exactly when no property under the literal has that name. */
  lemma FindAssignmentIsFirst(lits: seq<Literal>, i: nat, name: string)
    requires Forward(lits) && i < |lits|
    ensures AsEntry(lits, FindAssignment(lits, i, name)) == FirstNamed(Listing(DecodeLiteral(lits, i)), name)
    ensures var l := Listing(DecodeLiteral(lits, i));
      FindAssignment(lits, i, name).None? <==> forall k :: 0 <= k < |l| ==> l[k].name != name
  {
    FindAgrees(lits, i, name);
    FindIsFirstInListing(DecodeLiteral(lits, i), name);
  }

  /** A child of a property assignment: its name node or its initializer. */
  datatype Child = NameChild(text: string) | ValueChild(value: Value)

  /** The order in which `extractSchema` asks for the kinds; `OtherKind` is
      never asked for. */
  function Rank(k: Kind): nat {
    match k
    case ObjectLiteralKind => 0
    case ArrayLiteralKind => 1
    case NumericLiteralKind => 2
    case StringLiteralKind => 3
    case FalseKeywordKind => 4
    case OtherKind => 5
  }

  /** `p.getFirstChildByKind(k)`: the name node comes before the initializer. */
  function FirstChildByKind(lits: seq<Literal>, p: Assignment, k: Kind): Option<Child>
    requires p.value.Ref? ==> p.value.literal < |lits|
  {
    if NameKind(p.name) == k then Some(NameChild(p.name))
    else if ValueKind(lits, p.value) == k then Some(ValueChild(p.value))
    else None
  }

  /** The kind-priority choice of `extractSchema` among the children of the
      found assignment: the child of the earliest kind in the order object,
      array, numeric, string, `false`, the name on a tie; none when neither
      child is of these kinds. */
  function PickChild(lits: seq<Literal>, p: Assignment): (r: Option<Child>)
    requires p.value.Ref? ==> p.value.literal < |lits|
    ensures var nr := Rank(NameKind(p.name)); var vr := Rank(ValueKind(lits, p.value));
      && (r.None? <==> nr == 5 && vr == 5)
      && (r == Some(NameChild(p.name)) <==> nr < 5 && nr <= vr)
      && (r == Some(ValueChild(p.value)) <==> vr < 5 && vr < nr)
  {
    var o := FirstChildByKind(lits, p, ObjectLiteralKind);
    if o.Some? then o
    else
      var a := FirstChildByKind(lits, p, ArrayLiteralKind);
      if a.Some? then a
      else
        var n := FirstChildByKind(lits, p, NumericLiteralKind);
        if n.Some? then n
        else
          var s := FirstChildByKind(lits, p, StringLiteralKind);
          if s.Some? then s
          else FirstChildByKind(lits, p, FalseKeywordKind)
  }

  /** `extractSchema(o, name)`: the first property named `name` anywhere under
      `o`, and of it the child `PickChild` chooses; undefined for an undefined
      `o` or when there is no such property. */
  function ExtractSchema(lits: seq<Literal>, o: Option<nat>, name: string): (r: Option<Child>)
    requires Forward(lits) && (o.Some? ==> o.value < |lits|)
    ensures o.None? ==> r.None?
    ensures o.Some? ==> var l := Listing(DecodeLiteral(lits, o.value));
      (forall k :: 0 <= k < |l| ==> l[k].name != name) ==> r.None?
    ensures o.Some? && FindAssignment(lits, o.value, name).Some? ==>
      && AsEntry(lits, FindAssignment(lits, o.value, name)) == FirstNamed(Listing(DecodeLiteral(lits, o.value)), name)
      && r == PickChild(lits, FindAssignment(lits, o.value, name).value.prop)
  {
    if o.None? then None
    else
      FindAssignmentIsFirst(lits, o.value, name);
      match FindAssignment(lits, o.value, name)
      case None => None
      case Some(l) => PickChild(lits, l.prop)
  }

  /** A property holding an object or array literal always yields that
      literal: no name node is of those kinds. */
  lemma ExtractNested(lits: seq<Literal>, o: nat, name: string)
    requires Forward(lits) && o < |lits|
    requires FindAssignment(lits, o, name).Some? && FindAssignment(lits, o, name).value.prop.value.Ref?
    ensures ExtractSchema(lits, Some(o), name) == Some(ValueChild(FindAssignment(lits, o, name).value.prop.value))
  {
  }
}
