/** The type-dependency collector of `src/gen/collect.ts`: starting from a
    list of nodes, every interface, type alias, class or enum they refer
    to — directly, through an `import('…').X` type or through an import
    specifier — is added once, in the order first met, and searched in turn;
    declarations from the TypeScript library or from `@types/node` are
    skipped. */
module Collect {
  import opened Wrappers
  import opened JsStrings
  import opened Ast

  /** The errors the collector throws. */
  datatype CollectError =
    | Unnamed(decl: nat)                         // 'dependency must be named'
    | FileNotFound(path: string)                 // 'Could not find file …'
    | ImportNotFound(spec: ImportSpec)           // 'Could not find import var …' (the specifier's text)
    | DeclarationNotFound(name: string, file: nat) // 'Could not find interface, class, enum or type …'

  /** `isStandardType`: the declaring file's path mentions `typescript/lib`
      or `@types/node`. */
  predicate IsStandardPath(path: string) {
    Includes(path, "typescript/lib") || Includes(path, "@types/node")
  }

  predicate IsStandard(prj: Project, d: nat) {
    d < |prj.decls| && prj.decls[d].file < |prj.files| && IsStandardPath(prj.files[prj.decls[d].file])
  }

  /** Any path with `typescript/lib` or `@types/node` in it is standard. */
  lemma LibraryPathStandard(pre: string, lib: string, post: string)
    requires lib == "typescript/lib" || lib == "@types/node"
    ensures IsStandardPath(pre + lib + post)
  {
    var s := pre + lib + post;
    assert s[|pre|..|pre| + |lib|] == lib;
    assert OccursAt(s, lib, |pre|);
  }

  /* ---------------------------------------------------------------- */
  /* Looking declarations up                                          */
  /* ---------------------------------------------------------------- */

  predicate Declares(prj: Project, d: nat, file: nat, name: string, form: DeclForm) {
    && d < |prj.decls|
    && prj.decls[d].file == file
    && prj.decls[d].topLevel
    && prj.decls[d].name == Some(name)
    && prj.decls[d].form == form
  }

  /** The first declaration from index `from` on of the given form and name
      in `file` (`getInterface(name)` and its siblings). */
  function FirstDeclared(prj: Project, file: nat, name: string, form: DeclForm, from: nat): (r: Option<nat>)
    ensures r.Some? ==> from <= r.value && Declares(prj, r.value, file, name, form)
    ensures r.Some? ==> forall j :: from <= j < r.value ==> !Declares(prj, j, file, name, form)
    ensures r.None? ==> forall j :: from <= j ==> !Declares(prj, j, file, name, form)
    decreases |prj.decls| - from
  {
    if from >= |prj.decls| then None
    else if Declares(prj, from, file, name, form) then Some(from)
    else FirstDeclared(prj, file, name, form, from + 1)
  }

  function FormRank(f: DeclForm): nat {
    match f
    case InterfaceForm => 0
    case TypeAliasForm => 1
    case ClassForm => 2
    case EnumForm => 3
  }

  /** Declaration `d` is a top-level statement of `file` named `name`, of
      any of the four forms. */
  predicate Named(prj: Project, d: nat, file: nat, name: string) {
    d < |prj.decls| && prj.decls[d].file == file && prj.decls[d].topLevel && prj.decls[d].name == Some(name)
  }

  /** `getInterface(n) ?? getTypeAlias(n) ?? getClass(n) ?? getEnum(n)`. */
  function Lookup(prj: Project, file: nat, name: string): (r: Option<nat>)
    ensures r.Some? ==> Named(prj, r.value, file, name)
    ensures r.Some? ==>
              forall j: nat :: Named(prj, j, file, name) ==>
                || FormRank(prj.decls[r.value].form) < FormRank(prj.decls[j].form)
                || (prj.decls[j].form == prj.decls[r.value].form && r.value <= j)
    ensures r.None? <==> forall j: nat :: !Named(prj, j, file, name)
  {
    var i := FirstDeclared(prj, file, name, InterfaceForm, 0);
    var a := FirstDeclared(prj, file, name, TypeAliasForm, 0);
    var c := FirstDeclared(prj, file, name, ClassForm, 0);
    var e := FirstDeclared(prj, file, name, EnumForm, 0);
    assert forall j: nat :: Named(prj, j, file, name) ==> Declares(prj, j, file, name, prj.decls[j].form);
    if i.Some? then i
    else if a.Some? then a
    else if c.Some? then c
    else e
  }

  /** `prj.getSourceFile(sf => sf.getFilePath().includes(path))`: the first
      file, in project order, whose path contains `path`. */
  function FileIncluding(files: seq<string>, path: string, from: nat): (r: Option<nat>)
    ensures r.Some? ==> from <= r.value < |files| && Includes(files[r.value], path)
    ensures r.Some? ==> forall j :: from <= j < r.value ==> !Includes(files[j], path)
    ensures r.None? ==> forall j :: from <= j < |files| ==> !Includes(files[j], path)
    decreases |files| - from
  {
    if from >= |files| then None
    else if Includes(files[from], path) then Some(from)
    else FileIncluding(files, path, from + 1)
  }

  /** What each error says about the project: the declaration is unnamed
      and not standard; no file's path contains the path; the specifier's
      module does not resolve; the file declares nothing of that name. */
  predicate ErrorGenuine(prj: Project, e: CollectError) {
    match e
    case Unnamed(d) => d < |prj.decls| && prj.decls[d].name.None? && !IsStandard(prj, d)
    case FileNotFound(path) => FileIncluding(prj.files, path, 0).None?
    case ImportNotFound(spec) => spec.source.None?
    case DeclarationNotFound(name, f) => Lookup(prj, f, name).None?
  }

  /** What `findIT4Import` resolves an `import('…').X` type to: the file
      is the first one whose path contains the quoted argument with its quotes
      cut off, the name is the qualifier (empty without one). */
  function ResolveImportType(prj: Project, argument: string, qualifier: Option<string>): (r: Result<nat, CollectError>)
    ensures r.Success? <==>
              && FileIncluding(prj.files, SliceInner(argument), 0).Some?
              && Lookup(prj, FileIncluding(prj.files, SliceInner(argument), 0).value,
                        if qualifier.Some? then qualifier.value else "").Some?
    ensures r.Success? ==>
              r.value == Lookup(prj, FileIncluding(prj.files, SliceInner(argument), 0).value,
                                if qualifier.Some? then qualifier.value else "").value
    ensures FileIncluding(prj.files, SliceInner(argument), 0).None? ==> r == Failure(FileNotFound(SliceInner(argument)))
    ensures FileIncluding(prj.files, SliceInner(argument), 0).Some? ==>
              var f := FileIncluding(prj.files, SliceInner(argument), 0).value;
              var name := if qualifier.Some? then qualifier.value else "";
              Lookup(prj, f, name).None? ==> r == Failure(DeclarationNotFound(name, f))
    ensures r.Failure? ==> ErrorGenuine(prj, r.error)
  {
    var path := SliceInner(argument);
    match FileIncluding(prj.files, path, 0)
    case None => Failure(FileNotFound(path))
    case Some(f) =>
      var name := if qualifier.Some? then qualifier.value else "";
      match Lookup(prj, f, name)
      case None => Failure(DeclarationNotFound(name, f))
      case Some(d) => Success(d)
  }

  /** What `findIT4ImportSpecifier` resolves an import specifier to: the
      declaration named by the specifier's text in the module it imports
      from. */
  function ResolveSpec(prj: Project, spec: ImportSpec): (r: Result<nat, CollectError>)
    ensures spec.source.None? ==> r == Failure(ImportNotFound(spec))
    ensures spec.source.Some? ==>
              (r.Success? <==> Lookup(prj, spec.source.value, spec.text).Some?)
    ensures r.Success? ==> spec.source.Some? && r.value == Lookup(prj, spec.source.value, spec.text).value
    ensures spec.source.Some? && Lookup(prj, spec.source.value, spec.text).None? ==>
              r == Failure(DeclarationNotFound(spec.text, spec.source.value))
    ensures r.Failure? ==> ErrorGenuine(prj, r.error)
  {
    match spec.source
    case None => Failure(ImportNotFound(spec))
    case Some(f) =>
      match Lookup(prj, f, spec.text)
      case None => Failure(DeclarationNotFound(spec.text, f))
      case Some(d) => Success(d)
  }

  /* ---------------------------------------------------------------- */
  /* What a finished collection covers                                 */
  /* ---------------------------------------------------------------- */

  /** The symbol declarations of the identifiers among `ns`
      (`getChildrenOfKind(Identifier)` then `getSymbol()?.getDeclarations()`,
      flattened). */
  function IdentifierTargets(ns: seq<Node>): (r: seq<Target>)
    ensures forall t :: t in r ==> exists i :: 0 <= i < |ns| && ns[i].kind.IdentifierNode? && t in ns[i].kind.targets
    ensures forall i, t :: 0 <= i < |ns| && ns[i].kind.IdentifierNode? && t in ns[i].kind.targets ==> t in r
  {
    if ns == [] then []
    else (if ns[0].kind.IdentifierNode? then ns[0].kind.targets else []) + IdentifierTargets(ns[1..])
  }

  /** The targets of consecutive nodes come in the order of the nodes. */
  lemma {:induction false} IdentifierTargetsAppend(a: seq<Node>, b: seq<Node>)
    ensures IdentifierTargets(a + b) == IdentifierTargets(a) + IdentifierTargets(b)
  {
    if a == [] {
      assert a + b == b;
    } else {
      assert (a + b)[1..] == a[1..] + b;
      IdentifierTargetsAppend(a[1..], b);
    }
  }

  predicate Handled(prj: Project, deps: seq<nat>, d: nat) {
    d in deps || IsStandard(prj, d)
  }

  /** A symbol declaration resolves without error, and the declaration it
      resolves to is collected or standard. */
  predicate TargetCovered(prj: Project, deps: seq<nat>, t: Target) {
    match t
    case DeclTarget(d) => Handled(prj, deps, d)
    case ImportTarget(spec) => ResolveSpec(prj, spec).Success? && Handled(prj, deps, ResolveSpec(prj, spec).value)
    case OtherTarget => true
  }

  predicate TargetsCovered(prj: Project, deps: seq<nat>, ts: seq<Target>) {
    forall i :: 0 <= i < |ts| ==> TargetCovered(prj, deps, ts[i])
  }

  /** An `import('…').X` type resolves, to a declaration collected or
      standard. */
  predicate ImportTypeCovered(prj: Project, deps: seq<nat>, argument: string, qualifier: Option<string>) {
    ResolveImportType(prj, argument, qualifier).Success? && Handled(prj, deps, ResolveImportType(prj, argument, qualifier).value)
  }

  /** What `queryInTree` does with a node itself, done. */
  predicate OwnCovered(prj: Project, deps: seq<nat>, n: Node) {
    match n.kind
    case TypeReferenceNode => TargetsCovered(prj, deps, IdentifierTargets(n.children))
    case QualifiedNameNode => TargetsCovered(prj, deps, IdentifierTargets(n.children))
    case ImportTypeNode(a, q) => ImportTypeCovered(prj, deps, a, q)
    case IdentifierNode(ts) => TargetsCovered(prj, deps, ts)
    case _ => true
  }

  /** Every node of the tree is covered. */
  predicate NodeCovered(prj: Project, deps: seq<nat>, n: Node) {
    OwnCovered(prj, deps, n) && forall i :: 0 <= i < |n.children| ==> NodeCovered(prj, deps, n.children[i])
  }

  predicate ForestCovered(prj: Project, deps: seq<nat>, ns: seq<Node>) {
    forall i :: 0 <= i < |ns| ==> NodeCovered(prj, deps, ns[i])
  }

  /** A root of `collectTypeDeps` is covered: a type reference by its own
      identifiers and its subtree, a declaration by being collected, any
      other node by its subtree. */
  predicate RootCovered(prj: Project, deps: seq<nat>, n: Node) {
    match n.kind
    case TypeReferenceNode =>
      TargetsCovered(prj, deps, IdentifierTargets(n.children)) && ForestCovered(prj, deps, n.children)
    case DeclarationNode(d) => Handled(prj, deps, d)
    case _ => ForestCovered(prj, deps, n.children)
  }

  /** The entries of `b` from index `lo` on have every reference in their
      bodies covered by `b`. */
  predicate CoveredFrom(prj: Project, b: seq<nat>, lo: nat) {
    forall i :: lo <= i < |b| ==> b[i] < |prj.decls| && ForestCovered(prj, b, prj.decls[b[i]].body)
  }

  /** A collection closed under references: every reference in the body of
      a collected declaration is itself collected or standard. */
  predicate Closed(prj: Project, deps: seq<nat>) {
    CoveredFrom(prj, deps, 0)
  }

  /** What the collector keeps true of its set: declarations that exist, each
      once, none standard, each named. */
  predicate WellCollected(prj: Project, deps: seq<nat>) {
    && (forall i :: 0 <= i < |deps| ==> deps[i] < |prj.decls| && !IsStandard(prj, deps[i]) && prj.decls[deps[i]].name.Some?)
    && (forall i, j :: 0 <= i < j < |deps| ==> deps[i] != deps[j])
  }

  /** A collection that could be the outcome of a successful run: each of
      its declarations exists and is named or standard, and every reference
      in their bodies resolves and lands in it (or on a standard one). */
  predicate Resolvable(prj: Project, s: seq<nat>) {
    && (forall i :: 0 <= i < |s| ==> s[i] < |prj.decls| && (prj.decls[s[i]].name.Some? || IsStandard(prj, s[i])))
    && Closed(prj, s)
  }

  /** The outcome of a successful run is such a collection. */
  lemma CollectedIsResolvable(prj: Project, deps: seq<nat>)
    requires WellCollected(prj, deps) && Closed(prj, deps)
    ensures Resolvable(prj, deps)
  {
  }

  /** An unnamed, non-standard declaration lies in no resolvable
      collection. */
  lemma UnnamedUnresolvable(prj: Project, d: nat)
    requires d < |prj.decls| && prj.decls[d].name.None? && !IsStandard(prj, d)
    ensures forall s :: Resolvable(prj, s) ==> !Handled(prj, s, d)
  {
  }

  /** A named declaration in a resolvable collection has its body covered
      by it. */
  lemma ResolvableBody(prj: Project, s: seq<nat>, d: nat)
    requires Resolvable(prj, s) && d in s
    ensures d < |prj.decls| && ForestCovered(prj, s, prj.decls[d].body)
  {
    var k :| 0 <= k < |s| && s[k] == d;
  }

  predicate Grows(a: seq<nat>, b: seq<nat>) {
    |a| <= |b| && b[..|a|] == a
  }

  lemma GrowsTrans(a: seq<nat>, b: seq<nat>, c: seq<nat>)
    requires Grows(a, b) && Grows(b, c)
    ensures Grows(a, c)
  {
    assert c[..|a|] == c[..|b|][..|a|];
  }

  lemma GrowsMembers(a: seq<nat>, b: seq<nat>)
    requires Grows(a, b)
    ensures forall d :: d in a ==> d in b
  {
    forall d | d in a ensures d in b {
      var k :| 0 <= k < |a| && a[k] == d;
      assert b[k] == d;
    }
  }

  lemma NodeCoveredGrows(prj: Project, a: seq<nat>, b: seq<nat>, n: Node)
    requires Grows(a, b) && NodeCovered(prj, a, n)
    ensures NodeCovered(prj, b, n)
    decreases n
  {
    GrowsMembers(a, b);
    forall i | 0 <= i < |n.children| ensures NodeCovered(prj, b, n.children[i]) {
      NodeCoveredGrows(prj, a, b, n.children[i]);
    }
  }

  lemma ForestCoveredGrows(prj: Project, a: seq<nat>, b: seq<nat>, ns: seq<Node>)
    requires Grows(a, b) && ForestCovered(prj, a, ns)
    ensures ForestCovered(prj, b, ns)
  {
    forall i | 0 <= i < |ns| ensures NodeCovered(prj, b, ns[i]) {
      NodeCoveredGrows(prj, a, b, ns[i]);
    }
  }

  lemma TargetsCoveredGrows(prj: Project, a: seq<nat>, b: seq<nat>, ts: seq<Target>)
    requires Grows(a, b) && TargetsCovered(prj, a, ts)
    ensures TargetsCovered(prj, b, ts)
  {
    GrowsMembers(a, b);
  }

  /** Entries covered by the collection they were covered by stay covered
      as it grows. */
  lemma CoveredFromGrows(prj: Project, a: seq<nat>, b: seq<nat>, c: seq<nat>)
    requires Grows(a, b) && Grows(b, c)
    requires CoveredFrom(prj, b, |a|) && CoveredFrom(prj, c, |b|)
    ensures Grows(a, c) && CoveredFrom(prj, c, |a|)
  {
    assert c[..|a|] == c[..|b|][..|a|];
    forall i | |a| <= i < |c| ensures c[i] < |prj.decls| && ForestCovered(prj, c, prj.decls[c[i]].body) {
      if i < |b| {
        assert c[i] == b[i];
        ForestCoveredGrows(prj, b, c, prj.decls[b[i]].body);
      }
    }
  }

  lemma IdentifierTargetsOk(prj: Project, ns: seq<Node>)
    requires ForestOk(prj, ns)
    ensures forall i :: 0 <= i < |IdentifierTargets(ns)| ==> TargetOk(prj, IdentifierTargets(ns)[i])
  {
    var ts := IdentifierTargets(ns);
    forall i | 0 <= i < |ts| ensures TargetOk(prj, ts[i]) {
      assert ts[i] in ts;
      var k :| 0 <= k < |ns| && ns[k].kind.IdentifierNode? && ts[i] in ns[k].kind.targets;
      assert NodeOk(prj, ns[k]);
    }
  }

  /** An outcome that every resolvable collection covering one node of a
      forest forces, every resolvable collection covering the forest forces
      too. */
  lemma ForestBlocked(prj: Project, ns: seq<Node>, i: nat, err: Option<CollectError>)
    requires i < |ns|
    requires forall s :: Resolvable(prj, s) && NodeCovered(prj, s, ns[i]) ==> err.None?
    ensures forall s :: Resolvable(prj, s) && ForestCovered(prj, s, ns) ==> err.None?
  {
    forall s | Resolvable(prj, s) && ForestCovered(prj, s, ns) ensures err.None? {
      assert NodeCovered(prj, s, ns[i]);
    }
  }

  /** The same for one target of a list of targets. */
  lemma TargetsBlocked(prj: Project, ts: seq<Target>, i: nat, err: Option<CollectError>)
    requires i < |ts|
    requires forall s :: Resolvable(prj, s) && TargetCovered(prj, s, ts[i]) ==> err.None?
    ensures forall s :: Resolvable(prj, s) && TargetsCovered(prj, s, ts) ==> err.None?
  {
  }

  function NodeSize(n: Node): nat {
    1 + ForestSize(n.children)
  }

  function ForestSize(ns: seq<Node>): nat {
    if ns == [] then 0 else NodeSize(ns[0]) + ForestSize(ns[1..])
  }

  lemma {:induction false} ChildSmaller(ns: seq<Node>, i: nat)
    requires i < |ns|
    ensures ForestSize(ns[i].children) < ForestSize(ns)
  {
    assert ForestSize(ns) == NodeSize(ns[0]) + ForestSize(ns[1..]);
    if i > 0 {
      assert ns[1..][i - 1] == ns[i];
      ChildSmaller(ns[1..], i - 1);
    }
  }

  /* ---------------------------------------------------------------- */
  /* The collector                                                     */
  /* ---------------------------------------------------------------- */

  /** One run of `collectTypeDeps`: the project and the `depsMap` set, kept
      as a sequence in insertion order. */
  class Collector {
    const prj: Project
    var deps: seq<nat>

    ghost predicate Valid()
      reads this
    {
      ProjectOk(prj) && WellCollected(prj, deps)
    }

    /** The declarations not collected yet: shrinks with every addition. */
    ghost function Unvisited(): set<nat>
      reads this
    {
      set d | 0 <= d < |prj.decls| && d !in deps
    }

    constructor (p: Project)
      requires ProjectOk(p)
      ensures prj == p && deps == [] && Valid()
    {
      prj := p;
      deps := [];
    }

    /** `addDep`: a declaration already collected or standard is left alone;
        an unnamed one is an error; otherwise it is appended and its body
        searched. */
    method AddDep(d: nat) returns (err: Option<CollectError>)
      requires Valid() && d < |prj.decls|
      modifies this
      ensures Valid() && Grows(old(deps), deps)
      ensures err.None? ==> Handled(prj, deps, d) && CoveredFrom(prj, deps, |old(deps)|)
      ensures err.Some? ==> ErrorGenuine(prj, err.value)
      ensures d in old(deps) || IsStandard(prj, d) ==> err.None? && deps == old(deps)
      ensures d !in old(deps) && !IsStandard(prj, d) && prj.decls[d].name.None? ==>
                err == Some(Unnamed(d)) && deps == old(deps)
      ensures d !in old(deps) && !IsStandard(prj, d) && prj.decls[d].name.Some? ==>
                |deps| > |old(deps)| && deps[|old(deps)|] == d
      ensures forall s :: Resolvable(prj, s) && Handled(prj, s, d) ==> err.None?
      decreases Unvisited(), 0, 0
    {
      if d in deps || IsStandard(prj, d) {
        return None;
      }
      if prj.decls[d].name.None? {
        UnnamedUnresolvable(prj, d);
        return Some(Unnamed(d));
      }
      ghost var before := deps;
      ghost var u := Unvisited();
      deps := deps + [d];
      assert Unvisited() == u - {d};
      assert Grows(before, deps);
      ghost var added := deps;
      err := QueryInTree(prj.decls[d].body);
      assert Grows(before, deps) by {
        assert deps[..|before|] == deps[..|added|][..|before|];
      }
      assert deps[|before|] == d by {
        assert deps[..|added|][|before|] == d;
      }
      forall s | Resolvable(prj, s) && Handled(prj, s, d) ensures err.None? {
        ResolvableBody(prj, s, d);
      }
      if err.None? {
        assert d in deps;
        assert CoveredFrom(prj, deps, |before|) by {
          forall i | |before| <= i < |deps| ensures deps[i] < |prj.decls| && ForestCovered(prj, deps, prj.decls[deps[i]].body) {
            if i == |before| {
              assert deps[i] == d;
            }
          }
        }
      }
    }

    /** `queryInTree`: every child in order is handled by its kind, then
        searched in turn; the first error stops the search. */
    method QueryInTree(ns: seq<Node>) returns (err: Option<CollectError>)
      requires Valid() && ForestOk(prj, ns)
      modifies this
      ensures Valid() && Grows(old(deps), deps)
      ensures err.None? ==> ForestCovered(prj, deps, ns) && CoveredFrom(prj, deps, |old(deps)|)
      ensures err.Some? ==> ErrorGenuine(prj, err.value)
      ensures forall s :: Resolvable(prj, s) && ForestCovered(prj, s, ns) ==> err.None?
      decreases Unvisited(), 3, ForestSize(ns), 1
    {
      var i := 0;
      while i < |ns|
        invariant 0 <= i <= |ns|
        invariant Valid() && Grows(old(deps), deps)
        invariant ForestCovered(prj, deps, ns[..i]) && CoveredFrom(prj, deps, |old(deps)|)
        invariant Unvisited() <= old(Unvisited())
      {
        ghost var before := deps;
        assert NodeOk(prj, ns[i]);
        ChildSmaller(ns, i);
        err := SearchNode(ns[i]);
        if err.Some? {
          ForestBlocked(prj, ns, i, err);
          GrowsTrans(old(deps), before, deps);
          return;
        }
        CoveredFromGrows(prj, old(deps), before, deps);
        ForestCoveredGrows(prj, before, deps, ns[..i]);
        assert ns[..i + 1] == ns[..i] + [ns[i]];
        i := i + 1;
      }
      assert ns[..i] == ns;
      err := None;
    }

    /** One child in `queryInTree`'s walk: handled by its kind, then its own
        children searched. */
    method SearchNode(c: Node) returns (err: Option<CollectError>)
      requires Valid() && NodeOk(prj, c)
      modifies this
      ensures Valid() && Grows(old(deps), deps)
      ensures err.None? ==> NodeCovered(prj, deps, c) && CoveredFrom(prj, deps, |old(deps)|)
      ensures err.Some? ==> ErrorGenuine(prj, err.value)
      ensures forall s :: Resolvable(prj, s) && NodeCovered(prj, s, c) ==> err.None?
      decreases Unvisited(), 3, NodeSize(c), 0
    {
      err := HandleNode(c);
      if err.Some? {
        return;
      }
      ghost var mid := deps;
      err := QueryInTree(c.children);
      if err.Some? {
        GrowsTrans(old(deps), mid, deps);
        return;
      }
      CoveredFromGrows(prj, old(deps), mid, deps);
      NodeCoveredGrows(prj, mid, deps, Node(c.kind, []));
    }

    /** The kind dispatch of `queryInTree` for one child. */
    method HandleNode(c: Node) returns (err: Option<CollectError>)
      requires Valid() && NodeOk(prj, c)
      modifies this
      ensures Valid() && Grows(old(deps), deps)
      ensures err.None? ==> OwnCovered(prj, deps, c) && CoveredFrom(prj, deps, |old(deps)|)
      ensures err.Some? ==> ErrorGenuine(prj, err.value)
      ensures forall s :: Resolvable(prj, s) && OwnCovered(prj, s, c) ==> err.None?
      ensures c.kind.DeclarationNode? || c.kind.OtherNode? ==> err.None? && deps == old(deps)
      decreases Unvisited(), 3, 0, 0
    {
      match c.kind
      case TypeReferenceNode =>
        IdentifierTargetsOk(prj, c.children);
        err := FindIdentifier(IdentifierTargets(c.children));
      case QualifiedNameNode =>
        IdentifierTargetsOk(prj, c.children);
        err := FindIdentifier(IdentifierTargets(c.children));
      case ImportTypeNode(a, q) =>
        err := FindIT4Import(a, q);
      case IdentifierNode(ts) =>
        err := FindIdentifier(ts);
      case DeclarationNode(_) =>
        err := None;
      case OtherNode =>
        err := None;
    }

    /** `findIdentifier`: each symbol declaration in order; a declaration of
        one of the four kinds is added, an import specifier followed, any
        other skipped. */
    method FindIdentifier(ts: seq<Target>) returns (err: Option<CollectError>)
      requires Valid() && forall i :: 0 <= i < |ts| ==> TargetOk(prj, ts[i])
      modifies this
      ensures Valid() && Grows(old(deps), deps)
      ensures err.None? ==> TargetsCovered(prj, deps, ts) && CoveredFrom(prj, deps, |old(deps)|)
      ensures err.Some? ==> ErrorGenuine(prj, err.value)
      ensures forall s :: Resolvable(prj, s) && TargetsCovered(prj, s, ts) ==> err.None?
      decreases Unvisited(), 2, 1
    {
      var i := 0;
      while i < |ts|
        invariant 0 <= i <= |ts|
        invariant Valid() && Grows(old(deps), deps)
        invariant TargetsCovered(prj, deps, ts[..i]) && CoveredFrom(prj, deps, |old(deps)|)
        invariant Unvisited() <= old(Unvisited())
      {
        ghost var before := deps;
        err := FindTarget(ts[i]);
        if err.Some? {
          TargetsBlocked(prj, ts, i, err);
          GrowsTrans(old(deps), before, deps);
          return;
        }
        CoveredFromGrows(prj, old(deps), before, deps);
        TargetsCoveredGrows(prj, before, deps, ts[..i]);
        assert ts[..i + 1] == ts[..i] + [ts[i]];
        i := i + 1;
      }
      assert ts[..i] == ts;
      err := None;
    }

    /** One symbol declaration in `findIdentifier`'s loop. */
    method FindTarget(t: Target) returns (err: Option<CollectError>)
      requires Valid() && TargetOk(prj, t)
      modifies this
      ensures Valid() && Grows(old(deps), deps)
      ensures err.None? ==> TargetCovered(prj, deps, t) && CoveredFrom(prj, deps, |old(deps)|)
      ensures err.Some? ==> ErrorGenuine(prj, err.value)
      ensures forall s :: Resolvable(prj, s) && TargetCovered(prj, s, t) ==> err.None?
      ensures t.OtherTarget? ==> err.None? && deps == old(deps)
      decreases Unvisited(), 2, 0
    {
      match t {
        case DeclTarget(d) =>
          err := AddDep(d);
        case ImportTarget(spec) =>
          err := FindIT4ImportSpecifier(spec);
        case OtherTarget =>
          err := None;
      }
    }

    /** `findIT4Import`: an `import('…').X` type resolved by file path and
        qualifier, then added. */
    method FindIT4Import(argument: string, qualifier: Option<string>) returns (err: Option<CollectError>)
      requires Valid()
      modifies this
      ensures Valid() && Grows(old(deps), deps)
      ensures ResolveImportType(prj, argument, qualifier).Failure? ==>
                err == Some(ResolveImportType(prj, argument, qualifier).error) && deps == old(deps)
      ensures err.None? ==>
                && ResolveImportType(prj, argument, qualifier).Success?
                && Handled(prj, deps, ResolveImportType(prj, argument, qualifier).value)
                && CoveredFrom(prj, deps, |old(deps)|)
      ensures err.Some? ==> ErrorGenuine(prj, err.value)
      ensures forall s :: Resolvable(prj, s) && ImportTypeCovered(prj, s, argument, qualifier) ==> err.None?
      decreases Unvisited(), 1, 0
    {
      var path := SliceInner(argument);
      var sf := FileIncluding(prj.files, path, 0);
      if sf.None? {
        return Some(FileNotFound(path));
      }
      var name := if qualifier.Some? then qualifier.value else "";
      var decl := Lookup(prj, sf.value, name);
      if decl.None? {
        return Some(DeclarationNotFound(name, sf.value));
      }
      err := AddDep(decl.value);
    }

    /** `findIT4ImportSpecifier`: an import specifier resolved in the module
        it imports from, then added. */
    method FindIT4ImportSpecifier(spec: ImportSpec) returns (err: Option<CollectError>)
      requires Valid()
      modifies this
      ensures Valid() && Grows(old(deps), deps)
      ensures ResolveSpec(prj, spec).Failure? ==>
                err == Some(ResolveSpec(prj, spec).error) && deps == old(deps)
      ensures err.None? ==>
                && ResolveSpec(prj, spec).Success?
                && Handled(prj, deps, ResolveSpec(prj, spec).value)
                && CoveredFrom(prj, deps, |old(deps)|)
      ensures err.Some? ==> ErrorGenuine(prj, err.value)
      ensures forall s :: Resolvable(prj, s) && TargetCovered(prj, s, ImportTarget(spec)) ==> err.None?
      decreases Unvisited(), 1, 0
    {
      if spec.source.None? {
        return Some(ImportNotFound(spec));
      }
      var decl := Lookup(prj, spec.source.value, spec.text);
      if decl.None? {
        return Some(DeclarationNotFound(spec.text, spec.source.value));
      }
      err := AddDep(decl.value);
    }
  }

  /** `collectTypeDeps`: the roots in order (absent ones skipped); the
      collected declarations in first-insertion order, or the first error. */
  method CollectTypeDeps(prj: Project, roots: seq<Option<Node>>) returns (r: Result<seq<nat>, CollectError>)
    requires ProjectOk(prj)
    requires forall i :: 0 <= i < |roots| && roots[i].Some? ==> NodeOk(prj, roots[i].value)
    ensures r.Success? ==> WellCollected(prj, r.value) && Closed(prj, r.value)
    ensures r.Failure? ==> ErrorGenuine(prj, r.error)
    ensures r.Success? ==>
              forall i :: 0 <= i < |roots| && roots[i].Some? ==> RootCovered(prj, r.value, roots[i].value)
    ensures r.Success? ==> Resolvable(prj, r.value) && RootsCovered(prj, r.value, roots)
    ensures (forall s :: Resolvable(prj, s) && RootsCovered(prj, s, roots) ==> r.Success?)
  {
    var c := new Collector(prj);
    var i := 0;
    while i < |roots|
      invariant 0 <= i <= |roots|
      invariant c.prj == prj && c.Valid() && Closed(prj, c.deps)
      invariant forall k :: 0 <= k < i && roots[k].Some? ==> RootCovered(prj, c.deps, roots[k].value)
    {
      ghost var before := c.deps;
      if roots[i].Some? {
        var node := roots[i].value;
        var err: Option<CollectError>;
        match node.kind {
          case TypeReferenceNode =>
            IdentifierTargetsOk(prj, node.children);
            err := c.FindIdentifier(IdentifierTargets(node.children));
            if err.None? {
              ghost var mid := c.deps;
              err := c.QueryInTree(node.children);
              if err.None? {
                CoveredFromGrows(prj, before, mid, c.deps);
                TargetsCoveredGrows(prj, mid, c.deps, IdentifierTargets(node.children));
              }
            }
          case DeclarationNode(d) =>
            err := c.AddDep(d);
          case _ =>
            err := c.QueryInTree(node.children);
        }
        if err.Some? {
          return Failure(err.value);
        }
        CoveredFromGrows(prj, [], before, c.deps);
        forall k | 0 <= k < i && roots[k].Some? ensures RootCovered(prj, c.deps, roots[k].value) {
          RootCoveredGrows(prj, before, c.deps, roots[k].value);
        }
      }
      i := i + 1;
    }
    CollectedIsResolvable(prj, c.deps);
    r := Success(c.deps);
  }

  /** Every present root is covered by `s`. */
  predicate RootsCovered(prj: Project, s: seq<nat>, roots: seq<Option<Node>>) {
    forall i :: 0 <= i < |roots| && roots[i].Some? ==> RootCovered(prj, s, roots[i].value)
  }

  lemma RootCoveredGrows(prj: Project, a: seq<nat>, b: seq<nat>, n: Node)
    requires Grows(a, b) && RootCovered(prj, a, n)
    ensures RootCovered(prj, b, n)
  {
    GrowsMembers(a, b);
    match n.kind {
      case TypeReferenceNode =>
        ForestCoveredGrows(prj, a, b, n.children);
        TargetsCoveredGrows(prj, a, b, IdentifierTargets(n.children));
      case DeclarationNode(_) =>
      case _ =>
        ForestCoveredGrows(prj, a, b, n.children);
    }
  }

  /** `addNode`: a declaration of one of the four kinds is copied into the
      namespace and the copy's position returned; any other node gives
      nothing and changes nothing. */
  method AddNode(ns: Namespace, prj: Project, n: Node) returns (r: Option<nat>)
    requires NodeOk(prj, n)
    modifies ns
    ensures n.kind.DeclarationNode? ==>
              r == Some(|old(ns.members)|)
              && ns.members == old(ns.members) + [CopiedMember(prj.decls[n.kind.decl])]
    ensures !n.kind.DeclarationNode? ==> r.None? && ns.members == old(ns.members)
  {
    match n.kind
    case DeclarationNode(d) =>
      var i := ns.AddCopy(prj.decls[d]);
      r := Some(i);
    case _ =>
      r := None;
  }
}
