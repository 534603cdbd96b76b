/** The part of a ts-morph project the dependency collector and `genNode`
    look at, as plain values: source files by path, the interface, type
    alias, class and enum declarations (named by their index), and the node
    trees inside them. Symbol resolution is given, as the declarations an
    identifier's symbol points to. */
module Ast {
  import opened Wrappers

  /** The four declaration kinds the collector follows (`ITCDeclaration`). */
  datatype DeclForm = InterfaceForm | TypeAliasForm | ClassForm | EnumForm

  /** A property signature: name, type annotation text (absent when the
      property has none) and the texts of its leading comments. */
  datatype PropertySig = PropertySig(name: string, typeText: Option<string>, leadingComments: seq<string>)

  /** A declaration. `name` is absent for an unnamed one (`export default
      class {}`); `properties` are the property signatures of an interface,
      or of the type literal a type alias stands for; `typeIsLiteral` says
      whether a type alias's type node is a type literal; `body` holds the
      declaration's child nodes; `topLevel` says whether it is a statement
      of its source file itself rather than one nested in a namespace or
      `declare module` block. */
  datatype Declaration = Declaration(
    form: DeclForm,
    name: Option<string>,
    file: nat,
    topLevel: bool,
    typeParams: seq<string>,
    typeIsLiteral: bool,
    properties: seq<PropertySig>,
    body: seq<Node>)

  /** An import specifier: its text, and the source file its module
      specifier resolves to, if any. */
  datatype ImportSpec = ImportSpec(text: string, source: Option<nat>)

  /** One declaration of an identifier's symbol. */
  datatype Target = DeclTarget(decl: nat) | ImportTarget(spec: ImportSpec) | OtherTarget

  datatype NodeKind =
    | TypeReferenceNode
    | QualifiedNameNode
    | ImportTypeNode(argument: string, qualifier: Option<string>)
      /** An identifier and the declarations of its symbol (none without one). */
    | IdentifierNode(targets: seq<Target>)
      /** A node that is itself declaration `decl`. */
    | DeclarationNode(decl: nat)
    | OtherNode

  datatype Node = Node(kind: NodeKind, children: seq<Node>)

  datatype Project = Project(files: seq<string>, decls: seq<Declaration>)

  predicate TargetOk(prj: Project, t: Target) {
    match t {
      case DeclTarget(d) => d < |prj.decls|
      case ImportTarget(spec) => spec.source.Some? ==> spec.source.value < |prj.files|
      case OtherTarget => true
    }
  }

  /** Every declaration and file a node tree mentions exists, and a node
      that is a declaration has that declaration's body as its children. */
  predicate NodeOk(prj: Project, n: Node) {
    && (match n.kind
        case IdentifierNode(ts) => forall i :: 0 <= i < |ts| ==> TargetOk(prj, ts[i])
        case DeclarationNode(d) => d < |prj.decls| && n.children == prj.decls[d].body
        case _ => true)
    && forall i :: 0 <= i < |n.children| ==> NodeOk(prj, n.children[i])
  }

  predicate ForestOk(prj: Project, ns: seq<Node>) {
    forall i :: 0 <= i < |ns| ==> NodeOk(prj, ns[i])
  }

  predicate ProjectOk(prj: Project) {
    forall d :: 0 <= d < |prj.decls| ==> prj.decls[d].file < |prj.files| && ForestOk(prj, prj.decls[d].body)
  }

  /** A property of an emitted interface. */
  datatype EmittedProperty = EmittedProperty(name: string, typeText: Option<string>, leadingTrivia: string)

  /** A statement of the output namespace: an interface built by `genNode`,
      or a declaration copied from its structure. */
  datatype Member =
    | InterfaceMember(name: string, properties: seq<EmittedProperty>, typeParams: seq<string>, exported: bool)
    | CopiedMember(decl: Declaration)

  /** The `ModuleDeclaration` declarations are written into. */
  class Namespace {
    var members: seq<Member>

    constructor ()
      ensures members == []
    {
      members := [];
    }

    /** `addInterface({name, properties, typeParameters})`: appended, not
        exported. */
    method AddInterface(name: string, props: seq<EmittedProperty>, typeParams: seq<string>) returns (i: nat)
      modifies this
      ensures i == |old(members)|
      ensures members == old(members) + [InterfaceMember(name, props, typeParams, false)]
    {
      i := |members|;
      members := members + [InterfaceMember(name, props, typeParams, false)];
    }

    /** `setIsExported(true)` on the interface at `i`. */
    method SetIsExported(i: nat)
      requires i < |members| && members[i].InterfaceMember?
      modifies this
      ensures members == old(members)[i := old(members)[i].(exported := true)]
    {
      members := members[i := members[i].(exported := true)];
    }

    /** `addInterface`/`addTypeAlias`/`addEnum`/`addClass` of a declaration's
        structure: the declaration appended as it is. */
    method AddCopy(d: Declaration) returns (i: nat)
      modifies this
      ensures i == |old(members)|
      ensures members == old(members) + [CopiedMember(d)]
    {
      i := |members|;
      members := members + [CopiedMember(d)];
    }
  }
}
