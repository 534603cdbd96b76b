# ts-doc2 core, modelled in Dafny

ts-doc2 reads the request and response types of annotated service methods
and produces documentation metadata for them: the type declarations the
types depend on, their comments, and an example value for each schema.
This project models the parts of that pipeline that hold the logic:

- **The dependency collector** (`src/gen/collect.ts`), in `collect.dfy`
  over the abstract project of `ast.dfy`. It starts from a list of root
  nodes. It collects every interface, type alias, class and enum they refer
  to. A reference can be direct, through an `import('…').X` type, or
  through an import specifier. Each declaration is added once, in the order
  first met, and then searched in turn. Declarations from `typescript/lib`
  and `@types/node` are skipped. The collector is a class whose `deps`
  field is the `depsMap` set, kept as a sequence in insertion order.
- **The example generator** (`gen`/`jsonSchema2json` of
  `src/genSchema/jsonSchema2json.ts` and of `src/gen/jsonSchema2json.ts`),
  in `generator.dfy`. It walks a JSON schema and writes an example value
  into the ts-morph output tree. That tree is modelled in
  `example_output.dfy` as an arena of object and array literals that
  refer to each other by index. `Synth` states, as a value tree, what one
  `gen` call adds. `Gen` is proved to add exactly that and change nothing
  else. The two copies differ only in the camelCase rewrite of keys, so
  the `Variant` parameter selects the copy. `generator_facts.dfy` proves
  what the generated value looks like. `output_queries.dfy` models
  `extractSchema`.
- **The schema helpers** of both copies (`descriptionHandler`,
  `getDefaulValue`, `getOriginValue`, `snakeToCamel`, `paramsHandler`),
  in `schema.dfy`. The two copies of each helper are identical.
- **The declaration-rewriting helpers** of `src/genSchema/utils.ts`, in
  `schema_utils.dfy`:
  - `commentHandler` and `multyLine2MultyComments`;
  - `deletejsDocByName`;
  - the `//` comment rewrite of property types;
  - `genNode`, which writes a declaration into a namespace class.

  `isTypeLiteral` is the predicate `SchemaUtils.IsTypeLiteral`. A
  declaration records whether its type node is a type literal.
- **The view helpers** of `src/view/src/utils/index.ts`, in
  `view_utils.dfy`.

`js_strings.dfy` models the JavaScript string operations the code uses:
`trim`, `split`, `join`, `slice(1, -1)`, `includes`, `replace` and
`replaceAll`.

`ts-morph` is given as data. A project is a sequence of file paths and of
declarations, named by their index. Each declaration holds its name,
form, file, type parameters, property signatures and child nodes. An
identifier carries the declarations its symbol resolves to. An import
specifier carries the file its module resolves to.

The origin mode of `gen` writes `${getOriginValue(type)}` into a template,
so property initializers are the bare words `string`, `number` and
`boolean`. Only tuple elements, which go through `JSON.stringify`, are
quoted. The model follows the code here, including where a description
of the tool says otherwise.

`src/gen/jsonSchema2json.ts` also returns the object stored under the
root's first property, as the genSchema copy does. `Generator.JsonSchemaToJson`
models both.

## Model

| member | source | states |
|---|---|---|
| ViewUtils.BooleanHandler | src/view/src/utils/index.ts:1-3 | the result is `是` exactly when the flag is true, `否` otherwise |
| ViewUtils.ParamsCommentsHandler | src/view/src/utils/index.ts:5-10 | undefined stays undefined; a text not starting with `//` is returned unchanged; a `//` text becomes the text after the slashes with the whitespace around it removed |
| ViewUtils.RevertEscapeCharacter | src/view/src/utils/index.ts:12-16 | undefined stays undefined; otherwise the result contains no newline and no space |
| ViewUtils.RevertEscapeIsCharwise | src/view/src/utils/index.ts:15 | the result is the trimmed text with each newline replaced by `<br>` and each space by `&nbsp;`, all other characters kept |
| ViewUtils.EscapeTwoPasses | src/view/src/utils/index.ts:15 | the two `replaceAll` passes, run one after the other, equal one character-by-character escape |
| ViewUtils.ParamsTypeHandler | src/view/src/utils/index.ts:18-20 | undefined stays undefined; otherwise the result contains no `"` |
| ViewUtils.ParamsTypeHandlerIdempotent | src/view/src/utils/index.ts:18-20 | applying the handler twice gives what applying it once gives |
| ViewUtils.ParamsTypeHandlerLength | src/view/src/utils/index.ts:18-20 | the result is shorter than the input by exactly the number of `"` in it |
| Schema.DefaultValue | src/genSchema/jsonSchema2json.ts:28-32 | a value exists exactly for boolean, number and string |
| Schema.OriginValue | src/genSchema/jsonSchema2json.ts:34-38 | a value exists exactly for the primitive types, and it is the type's own name |
| Schema.Format | src/genSchema/jsonSchema2json.ts:82 | `format`: the origin value in origin mode, the default value otherwise (definition) |
| Schema.TemplateText | src/genSchema/jsonSchema2json.ts:93 | the text of `${format(type)}`: `undefined`, `false`, `0` or the string itself (definition) |
| Schema.JsonText | src/genSchema/jsonSchema2json.ts:135 | the text of `JSON.stringify` of a formatted value: `false`, `0`, or the quoted string (definition) |
| Schema.FormatMatchesType | src/genSchema/jsonSchema2json.ts:28-38 | the default value has the JavaScript type the schema names; the origin text is the type name; `pureString` only changes the string default |
| Schema.TupleAndPropertyTextsAgree | src/genSchema/jsonSchema2json.ts:91-135 | in default mode a tuple element (`JSON.stringify(format(t, true))`) and a property initializer (`${format(t)}`) have the same text; in origin mode the tuple element is the quoted type name and the initializer is the bare name |
| Schema.NoQuotesNoEscape | src/genSchema/jsonSchema2json.ts:135 | `JSON.stringify` leaves a string without quotes or backslashes unchanged inside its quotes |
| Schema.DescriptionHandler | src/genSchema/jsonSchema2json.ts:21-26 | the result is empty exactly when the description is absent or all whitespace; otherwise it starts with `//` and ends with a newline |
| Schema.DescriptionLines | src/genSchema/jsonSchema2json.ts:21-26 | the result's lines are the description's lines, in order, each prefixed with `//`, followed by an empty last piece |
| Schema.SnakeToCamel | src/genSchema/jsonSchema2json.ts:41-48 | the result is never longer than the input, and shorter when `_(\w)` matches at the start |
| Schema.SnakeToCamelUnchanged | src/genSchema/jsonSchema2json.ts:41-48 | a name is unchanged exactly when no `_` in it is followed by a word character |
| Schema.SnakeToCamelNoMatch | src/genSchema/jsonSchema2json.ts:41-48 | a name in which no `_` is followed by a word character is unchanged (`user_` and `a_$b` among them) |
| Schema.SnakeToCamelAtUnderscore | src/genSchema/jsonSchema2json.ts:45-47 | up to the first `_` followed by a word character the name is copied, even past a `_` followed by anything else; that `_` is dropped and the character upper-cased; the rest is rewritten in turn |
| Schema.SnakeToCamelExample | src/genSchema/jsonSchema2json.ts:41-48 | `user_id` becomes `userId`, and `a_$b_c` becomes `a_$bC` |
| Schema.ParamsHandler | src/genSchema/jsonSchema2json.ts:212-215 | empty or absent input gives `[]`; otherwise one piece more than the commas between the first and last character of the trimmed text, none containing a comma, and the pieces joined with `,` give that text back |
| ExampleOutput.Output.constructor | src/genSchema/jsonSchema2json.ts:55-62 | the output holds just the empty root object `{}` |
| ExampleOutput.Output.NewObject | src/genSchema/jsonSchema2json.ts:100 | a fresh empty object literal is appended; nothing else changes |
| ExampleOutput.Output.NewArray | src/genSchema/jsonSchema2json.ts:119-189 | a fresh array literal with the given elements is appended; nothing else changes |
| ExampleOutput.Output.AddPropertyAssignment | src/genSchema/jsonSchema2json.ts:91-95 | the property is appended to the one object literal named; nothing else changes |
| ExampleOutput.Output.AddElement | src/genSchema/jsonSchema2json.ts:135-140 | the element is appended to the one array literal named; nothing else changes |
| ExampleOutput.PropsEmittedThen | src/genSchema/jsonSchema2json.ts:112-114 | two calls that each add entries to one container add, together, the first call's entries followed by the second's |
| ExampleOutput.FirstPropertyObject | src/genSchema/jsonSchema2json.ts:65-67 | there is a result exactly when the first property holds an object literal, and the result reads back as that property's value |
| Generator.Synth | src/genSchema/jsonSchema2json.ts:87-191 | the reference for one `gen` call, as a value tree: a primitive or object gives one entry under the camel-aware name, a tuple, object array or primitive array one entry under the raw key, an array without usable items nothing (definition) |
| Generator.Gen | src/genSchema/jsonSchema2json.ts:74-192 | an undefined container leaves the output unchanged; otherwise the container gains the entries `Synth` describes, and no other literal that existed before changes |
| Generator.GenPrimitive | src/genSchema/jsonSchema2json.ts:88-96 | a primitive schema adds one property holding the formatted value |
| Generator.GenObject | src/genSchema/jsonSchema2json.ts:97-115 | an object schema adds `key: {}` and generates its properties into that new object |
| Generator.GenTupleProperty | src/genSchema/jsonSchema2json.ts:118-147 | a tuple adds `key: []` under the raw key and fills the array with the items' elements |
| Generator.GenObjectArray | src/genSchema/jsonSchema2json.ts:148-175 | an array of objects adds `key: [{}]` and generates the item's properties into that one element |
| Generator.GenPrimitiveArray | src/genSchema/jsonSchema2json.ts:176-190 | an array of primitives adds `key: [value]` |
| Generator.GenProps | src/genSchema/jsonSchema2json.ts:112-114 | one `gen` per property, in insertion order, into the same object |
| Generator.GenTuple | src/genSchema/jsonSchema2json.ts:129-147 | the tuple's items add their elements to the array in order |
| Generator.GenItem | src/genSchema/jsonSchema2json.ts:130-146 | a primitive item adds its JSON text; an object item adds one fresh object per property, each generated into; any other item adds nothing |
| Generator.JsonSchemaToJson | src/gen/jsonSchema2json.ts:50-68 | the root holds what `gen` of the schema under `value` adds; the returned object exists exactly when the schema is an object, and it reads back as its properties' entries |
| Generator.RootHolds | src/genSchema/jsonSchema2json.ts:64-67 | after `gen` on the empty root, the root reads back as the generated entries, and its first property holds an object exactly for an object schema |
| Generator.ObjectIsFirst | src/genSchema/jsonSchema2json.ts:97-115 | the first generated entry holds an object exactly when the schema is an object |
| GeneratorFacts.SynthShape | src/genSchema/jsonSchema2json.ts:87-191 | one entry when the schema produces one, none otherwise; array entries are named by the raw key and other entries by the camel-mode name; the comment is the rendered description |
| GeneratorFacts.PrimitiveValue | src/genSchema/jsonSchema2json.ts:88-96 | a primitive's value is `false`, `0` or `""` in default mode and the type name in origin mode |
| GeneratorFacts.PlainPropertyOrder | src/gen/jsonSchema2json.ts:106-108 | the entries' names are the keys of the properties that produce an entry, in insertion order |
| GeneratorFacts.TupleLength | src/gen/jsonSchema2json.ts:112-140 | a tuple has one element per primitive item, plus one per property of each object item |
| GeneratorFacts.PerPropertyLength | src/gen/jsonSchema2json.ts:130-138 | an object tuple item adds exactly one object per property |
| GeneratorFacts.CamelRenames | src/genSchema/jsonSchema2json.ts:84-99 | with camel mode on, the output is the plain output with every non-array key passed through `snakeToCamel` at every depth, and array keys kept |
| GeneratorFacts.CamelRenamesProps | src/genSchema/jsonSchema2json.ts:112-114 | the same renaming for a property list |
| GeneratorFacts.CamelRenamesTuple | src/genSchema/jsonSchema2json.ts:129-147 | the same renaming inside tuple elements |
| GeneratorFacts.CamelRenamesItem | src/genSchema/jsonSchema2json.ts:130-146 | the same renaming for one tuple item |
| GeneratorFacts.CamelRenamesPerProperty | src/genSchema/jsonSchema2json.ts:137-145 | the same renaming for the per-property objects of an object item |
| GeneratorFacts.TagSwitchesCamelOn | src/genSchema/jsonSchema2json.ts:84-86 | a schema tagged `toCamelCase` is generated in camel mode, with the whole subtree renamed |
| GeneratorFacts.UntaggedIsPlain | src/gen/jsonSchema2json.ts:71-177 | without the tag anywhere in the schema, the genSchema copy writes exactly what the src/gen copy writes |
| GeneratorFacts.UntaggedIsPlainProps | src/gen/jsonSchema2json.ts:106-108 | the same for a property list |
| GeneratorFacts.UntaggedIsPlainTuple | src/gen/jsonSchema2json.ts:123-139 | the same for tuple elements |
| GeneratorFacts.UntaggedIsPlainPerProperty | src/gen/jsonSchema2json.ts:131-138 | the same for the per-property objects of an object item |
| GeneratorFacts.CamelExample | src/genSchema/jsonSchema2json.ts:84-96 | a number tagged `toCamelCase` under `user_id` is written as `userId: 0`; untagged it is written as `user_id: 0` |
| OutputQueries.FindAssignment | src/gen/jsonSchema2json.ts:186-188 | the pre-order search itself: a property it finds has the name asked for and lies in the tree under the starting literal (first-ness and absence in FindAssignmentIsFirst) |
| OutputQueries.FindAgrees | src/gen/jsonSchema2json.ts:186-188 | the search in the output tree finds the first property of that name in pre-order of the value the literal reads back as |
| OutputQueries.FirstNamed | src/gen/jsonSchema2json.ts:186-188 | over a flat list of entries: none exactly when no entry has the name; otherwise an entry of the list with that name |
| OutputQueries.FirstNamedAt | src/gen/jsonSchema2json.ts:186-188 | the entry found is the one at the least index holding the name |
| OutputQueries.FindIsFirstInListing | src/gen/jsonSchema2json.ts:186-188 | the search on a value tree gives the first entry of that name in its pre-order listing (each property before the properties under it, siblings in order) |
| OutputQueries.FindAssignmentIsFirst | src/gen/jsonSchema2json.ts:186-188 | the search on the output, read back, gives the first property of that name in pre-order, and finds nothing exactly when no property under the literal has that name |
| OutputQueries.PickChild | src/gen/jsonSchema2json.ts:189-195 | the child returned is the one of best rank (object, array, numeric, string, `false`), the name node winning a tie; none when neither child is of those kinds |
| OutputQueries.ExtractSchema | src/gen/jsonSchema2json.ts:182-197 | no object gives nothing; no property of that name anywhere under the object (in its pre-order listing) gives nothing; otherwise the child `PickChild` chooses of the first such property in pre-order |
| OutputQueries.ExtractNested | src/gen/jsonSchema2json.ts:189-191 | a property holding an object or array literal yields that literal |
| Ast.Namespace.AddInterface | src/genSchema/utils.ts:117-121 | one interface with the given name, properties and type parameters is appended, not yet exported |
| Ast.Namespace.SetIsExported | src/genSchema/utils.ts:123 | only that interface changes, and it becomes exported |
| Ast.Namespace.AddCopy | src/gen/collect.ts:146-154 | the declaration's structure is appended as it is |
| Collect.IsStandardPath | src/gen/collect.ts:138-140 | `isStandardType`'s test: the path contains `typescript/lib` or `@types/node` (definition) |
| Collect.IsStandard | src/gen/collect.ts:138-140 | a declaration is standard when the path of its file is (definition) |
| Collect.LibraryPathStandard | src/gen/collect.ts:138-140 | any path containing `typescript/lib` or `@types/node` is standard |
| Collect.FirstDeclared | src/gen/collect.ts:103-106 | the first top-level declaration of that form and name in the file (one nested in a namespace or `declare module` block is not seen), or none if there is none |
| Collect.Lookup | src/gen/collect.ts:102-106 | the result is a top-level statement of the file named as asked; no top-level declaration of that name in the file has an earlier form (interface, type alias, class, enum), or the same form and a lower index; none exactly when no top-level declaration of the file has the name |
| Collect.FileIncluding | src/gen/collect.ts:98 | the first file whose path contains the text, or none if no file does |
| Collect.ResolveImportType | src/gen/collect.ts:96-111 | a missing file gives `FileNotFound`; a file without a declaration of the qualifier (or `''`) gives `DeclarationNotFound`; otherwise the result is `Lookup`'s pick, interface before type alias before class before enum; every error is genuine |
| Collect.ResolveSpec | src/gen/collect.ts:117-132 | an unresolved module gives `ImportNotFound`; a module without a declaration of the specifier's text gives `DeclarationNotFound`; otherwise the result is `Lookup`'s pick in that module; every error is genuine |
| Collect.IdentifierTargets | src/gen/collect.ts:84-87 | the targets are exactly those of the identifiers among the nodes: every target comes from one, and every target of one is there |
| Collect.IdentifierTargetsAppend | src/gen/collect.ts:84-87 | the targets come in the order of the nodes (flattening keeps order) |
| Collect.ErrorGenuine | src/gen/collect.ts:49-135 | what each error means: `Unnamed` names an unnamed, non-standard declaration; `FileNotFound` a path no file contains; `ImportNotFound` a specifier whose module does not resolve; `DeclarationNotFound` a name the file does not declare (definition) |
| Collect.Collector.constructor | src/gen/collect.ts:32 | the set starts empty |
| Collect.Collector.AddDep | src/gen/collect.ts:49-57 | a collected or standard declaration changes nothing; an unnamed one gives `Unnamed` and changes nothing; otherwise it is appended next and its body searched; on success everything added is closed under references; no duplicates, no standard entries; an error returned is genuine; no error can arise when some resolvable collection (each entry named or standard, closed under references) holds the declaration |
| Collect.Collector.QueryInTree | src/gen/collect.ts:59-71 | on success every node of the trees has its references collected or standard, and so do the bodies of everything added; an error returned is genuine; no error can arise when some resolvable collection (each entry named or standard, closed under references) covers the trees |
| Collect.Collector.SearchNode | src/gen/collect.ts:60-70 | one child of the walk: on success the child and its subtree are covered and so is everything added; an error returned is genuine; no error can arise when some resolvable collection (each entry named or standard, closed under references) covers the child's tree |
| Collect.Collector.HandleNode | src/gen/collect.ts:61-67 | the kind dispatch for one child: a declaration or any other kind of node changes nothing and gives no error; on success that node's own references are collected or standard; an error returned is genuine; no error can arise when some resolvable collection (each entry named or standard, closed under references) covers the node's own references |
| Collect.Collector.FindIdentifier | src/gen/collect.ts:83-93 | on success every symbol declaration was collected, standard, resolved through its import, or of another kind; an error returned is genuine; no error can arise when some resolvable collection (each entry named or standard, closed under references) covers the symbol declarations |
| Collect.Collector.FindTarget | src/gen/collect.ts:88-92 | one symbol declaration: one of another kind changes nothing; on success it is covered; an error returned is genuine; no error can arise when some resolvable collection (each entry named or standard, closed under references) covers it |
| Collect.Collector.FindIT4Import | src/gen/collect.ts:96-114 | a resolution error is returned with nothing changed; on success the resolved declaration is collected or standard; an error returned is genuine; no error can arise when some resolvable collection (each entry named or standard, closed under references) holds the declaration the type resolves to |
| Collect.Collector.FindIT4ImportSpecifier | src/gen/collect.ts:117-135 | a resolution error is returned with nothing changed; on success the resolved declaration is collected or standard; an error returned is genuine; no error can arise when some resolvable collection (each entry named or standard, closed under references) holds the declaration the specifier resolves to |
| Collect.CollectTypeDeps | src/gen/collect.ts:28-47 | on success the list has no duplicates, no standard and no unnamed declarations; it is closed under references; every root is covered (a type reference by its identifiers and subtree, a declaration by itself, any other node by its subtree); on failure the error is genuine; and the run succeeds exactly when some resolvable collection covers every root: the result is one, and any one forces success |
| Collect.AddNode | src/gen/collect.ts:142-156 | a declaration is copied into the namespace and its position returned; any other node gives nothing and changes nothing |
| SchemaUtils.CommentHandler | src/genSchema/utils.ts:36-57 | empty or absent gives `''`; a `//x` comment becomes the one-line doc comment whose text is `x`; any other comment is returned followed by a newline |
| SchemaUtils.MultiLineToBlockComment | src/genSchema/utils.ts:58-63 | `/**`, each line of the text as a `* ` line, then `*/` (definition; its lines are stated by BlockCommentLines) |
| SchemaUtils.BlockCommentLines | src/genSchema/utils.ts:58-63 | the doc comment's lines are `/**`, then ` * ` and each input line in order, then ` */` |
| SchemaUtils.DeleteJsDocByName | src/genSchema/utils.ts:158-161 | empty gives `''`; without `@name` and a newline the text is unchanged; otherwise only the first occurrence is removed, and the text around it is kept |
| SchemaUtils.RewriteLineComments | src/genSchema/utils.ts:103-106 | a text with no line terminator is unchanged; every other text is covered line by line by RewriteCommentLine and RewriteOtherLine |
| SchemaUtils.RewriteWithoutComments | src/genSchema/utils.ts:103-106 | a text without `//` is unchanged |
| SchemaUtils.RewriteCommentLine | src/genSchema/utils.ts:103-106 | a `\n`-ended line `pre//text`, the `//` being the line's first, becomes `pre`, then the doc comment holding `text`, then the rewritten rest |
| SchemaUtils.RewriteOtherLine | src/genSchema/utils.ts:103-106 | a line ended by `\r`, U+2028 or U+2029, or a `\n`-ended line without `//`, is kept with its terminator, then the rewritten rest |
| SchemaUtils.RewriteCommentThenLast | src/genSchema/utils.ts:103-106 | a commented `\n`-ended line followed by a last line: the comment becomes a doc comment and the last line is kept |
| SchemaUtils.RewriteThreeLines | src/genSchema/utils.ts:103-106 | a three-line type text with a comment only on the middle line (`{`, `a: number // x`, `}`): the first and last lines are kept, only the comment changes |
| SchemaUtils.PropertyType | src/genSchema/utils.ts:101-107 | a type text exists exactly when the property has one; it is the trimmed text with its line comments rewritten as RewriteLineComments states; without `//` it is the trimmed text |
| SchemaUtils.IsTypeLiteral | src/genSchema/utils.ts:65-71 | a type alias whose type node is a type literal (definition) |
| SchemaUtils.EmitProperties | src/genSchema/utils.ts:100-115 | one emitted property per source property, in order |
| SchemaUtils.EmittedPropertiesFaithful | src/genSchema/utils.ts:100-115 | each emitted property keeps its name and whether it has a type; a `//` leading comment becomes a doc comment with the same text; no comment gives an empty comment |
| SchemaUtils.GenNode | src/genSchema/utils.ts:76-127 | an interface, or a type alias of a type literal, adds one exported interface under the given name with the same type parameters and the emitted properties; any other declaration is copied as it is |

## Left out

- The command line, configuration loading, project setup and writing of
  files (`src/index.ts`) are I/O and are not part of this model.
- `types2JsonSchema` and `prettierFile` call typescript-json-schema and
  prettier, whose behaviour is not visible; they are not part of this model.
- The `log`/`console.dir` calls only print, so they are left out.
- ts-morph itself is not modelled. Symbol resolution, source files, the
  order of `forEachChild`, `getStructure` and `getText` are taken as given
  data.
- Generator.Gen: to reach the container it has just written, `gen` asks
  ts-morph for a node, and the model uses the literal just appended
  instead. For a tuple the source takes the array under the container's
  first property, so the two agree only when the tuple is that first
  property; `{id: number, pair: [string, number]}` gives `pair: []` in the
  source. For an object, or an array of objects, the source takes the
  first object literal in pre-order under the container whose nearest
  enclosing property is named by the raw key, so the two agree only when
  no object literal written earlier under the container sits directly
  under a property of that name; `{a: {b: {}}, b: {c: number}}` gives
  `{a: {b: {c: 0}}, b: {}}` in the source. In both cases the key must also
  not be rewritten to camelCase, as the search uses the raw key. Inputs
  outside these conditions are not modelled.
- `for...in` over schema properties visits integer-like keys first in
  ascending order. The model keeps the properties in the order given.
- `required` in a schema is never read by the code, so it is not modelled.
- OutputQueries.PickChild: numeric literals are taken to be decimal
  digit strings, and string literals quoted texts; the rest of the
  TypeScript literal grammar is not modelled.
- Collect.CollectTypeDeps: the result is proved closed under references,
  with every root covered, so it contains every declaration reachable from
  the roots. That every collected declaration is reachable (minimality) is
  not stated.
- Collect.CollectTypeDeps: the result is kept in first-insertion order,
  depth first, as the source's set is, but the contract does not state the
  order: doing so needs a second, functional copy of the whole traversal.
- Collect.ErrorGenuine: an error is not tied to the node that raised it;
  for example an `ImportNotFound` error is only said to come from a
  specifier whose module does not resolve. What ties failure to the
  search instead is the converse on each collector method: a failure
  means that no resolvable collection covers what was searched.
- Schema.JsonEscape: control characters are not escaped as
  `JSON.stringify` escapes them; only type names and the empty string
  reach it.
- Collect.Collector.AddDep: an exception thrown deep in the search leaves
  the declarations added before it in the set. The model keeps them too,
  and on an error states only that the set grew and stayed well formed.
- The view's router, build configuration and generated data files hold no
  logic and are not part of this model.
