/** The helpers of `src/genSchema/utils.ts` that prepare declarations for
    the JSON-schema generator: `//` comments become `/** */` doc comments
    (which the generator reads), a `@tag` line is deleted from a doc
    text, and `genNode` writes a declaration into a namespace, as an
    exported interface when it is an interface or a type literal alias. */
module SchemaUtils {
  import opened Wrappers
  import opened JsStrings
  import opened Ast
  import opened Collect

  /* ---------------------------------------------------------------- */
  /* Comments                                                          */
  /* ---------------------------------------------------------------- */

  /** `isSingleComment`: the first two characters are `//`. */
  predicate IsLineComment(c: string) {
    |c| >= 2 && c[0] == '/' && c[1] == '/'
  }

  const DocOpen: string := "/**\n* "
  const DocClose: string := "\n */\n"

  /** The text of a one-line doc comment `/**\n* text\n */\n`, if `r` is one. */
  function DocText(r: string): (t: Option<string>)
    ensures t.Some? ==> r == DocOpen + t.value + DocClose
  {
    if |r| >= |DocOpen| + |DocClose| && r[..|DocOpen|] == DocOpen && r[|r| - |DocClose|..] == DocClose
    then
      var t := r[|DocOpen|..|r| - |DocClose|];
      assert r == r[..|DocOpen|] + t + r[|r| - |DocClose|..];
      Some(t)
    else None
  }

  /** `commentHandler`: nothing for an absent or empty comment; a `//`
      comment becomes a one-line doc comment holding the text after the
      slashes; any other comment is kept and ended with a newline. */
  function CommentHandler(c: Option<string>): (r: string)
    ensures c.None? || c == Some("") ==> r == ""
    ensures c.Some? && IsLineComment(c.value) ==> DocText(r) == Some(c.value[2..])
    ensures c.Some? && c.value != "" && !IsLineComment(c.value) ==>
              |r| == |c.value| + 1 && r[..|c.value|] == c.value && r[|c.value|] == '\n'
  {
    match c
    case None => ""
    case Some(s) =>
      if s == "" then ""
      else if IsLineComment(s) then
        var r := DocOpen + s[2..] + DocClose;
        assert r[..|DocOpen|] == DocOpen && r[|r| - |DocClose|..] == DocClose;
        assert r[|DocOpen|..|r| - |DocClose|] == s[2..];
        r
      else s + "\n"
  }

  /** The body of `multyLine2MultyComments`: `* line\n ` per line. */
  function StarLines(lines: seq<string>): string {
    if lines == [] then "" else "* " + lines[0] + "\n " + StarLines(lines[1..])
  }

  /** `multyLine2MultyComments`: every line of `s` as a ` * ` line of one
      doc comment. */
  function MultiLineToBlockComment(s: string): string {
    "/**\n " + StarLines(Split(s, '\n')) + "*/\n"
  }

  function Starred(lines: seq<string>): (r: seq<string>)
    ensures |r| == |lines| && forall i :: 0 <= i < |r| ==> r[i] == " * " + lines[i]
  {
    seq(|lines|, i requires 0 <= i < |lines| => " * " + lines[i])
  }

  lemma {:induction false} StarLinesTerminated(lines: seq<string>)
    ensures " " + StarLines(lines) + "*/\n" == Terminated(Starred(lines) + [" */"], '\n')
  {
    if lines == [] {
      assert Starred(lines) + [" */"] == [" */"];
      assert Terminated([" */"], '\n') == " */" + "\n" + Terminated([], '\n');
    } else {
      var l := lines[0];
      var xs := Starred(lines) + [" */"];
      assert Starred(lines[1..]) == Starred(lines)[1..];
      assert xs[1..] == Starred(lines[1..]) + [" */"];
      StarLinesTerminated(lines[1..]);
      calc {
        " " + StarLines(lines) + "*/\n";
        " " + ("* " + l + "\n " + StarLines(lines[1..])) + "*/\n";
        { assert " " + ("* " + l + "\n " + StarLines(lines[1..])) + "*/\n"
                 == (" * " + l) + ['\n'] + (" " + StarLines(lines[1..]) + "*/\n"); }
        (" * " + l) + ['\n'] + (" " + StarLines(lines[1..]) + "*/\n");
        xs[0] + ['\n'] + Terminated(xs[1..], '\n');
      }
    }
  }

  /** The doc comment's lines are `/**`, then ` * ` and each line of `s` in
      order, then ` */`: splitting it at newlines gives them back. */
  lemma BlockCommentLines(s: string)
    ensures Split(MultiLineToBlockComment(s), '\n') == ["/**"] + Starred(Split(s, '\n')) + [" */", ""]
  {
    var lines := Split(s, '\n');
    var xs := ["/**"] + Starred(lines) + [" */"];
    StarLinesTerminated(lines);
    assert xs[1..] == Starred(lines) + [" */"];
    assert MultiLineToBlockComment(s) == "/**" + ['\n'] + (" " + StarLines(lines) + "*/\n");
    assert MultiLineToBlockComment(s) == Terminated(xs, '\n') + "";
    forall i | 0 <= i < |xs| ensures '\n' !in xs[i] {
      if 0 < i < |xs| - 1 {
        assert xs[i] == " * " + lines[i - 1];
        assert '\n' !in lines[i - 1];
      }
    }
    SplitTerminated(xs, "", '\n');
    assert Split("", '\n') == [""];
  }

  /** `deletejsDocByName`: the first `@name` line of a doc text deleted;
      empty stays empty. */
  function DeleteJsDocByName(str: string, docName: string): (r: string)
    ensures str == "" ==> r == ""
    ensures IndexOf(str, "@" + docName + "\n").None? ==> r == str
    ensures IndexOf(str, "@" + docName + "\n").Some? ==>
              var i := IndexOf(str, "@" + docName + "\n").value;
              |r| == |str| - |docName| - 2 && r == str[..i] + str[i + |docName| + 2..]
  {
    if str == "" then "" else RemoveFirst(str, "@" + docName + "\n")
  }

  /* ---------------------------------------------------------------- */
  /* Line comments inside type texts                                   */
  /* ---------------------------------------------------------------- */

  /** The characters `.` does not match in a JavaScript regular expression. */
  predicate IsLineTerminator(c: char) {
    c == '\n' || c == '\r' || c == '\U{2028}' || c == '\U{2029}'
  }

  predicate NoTerminator(s: string) {
    forall i :: 0 <= i < |s| ==> !IsLineTerminator(s[i])
  }

  /** The index of the first line terminator at or after `i`, or `|s|`. */
  function LineEnd(s: string, i: nat): (k: nat)
    requires i <= |s|
    ensures i <= k <= |s| && NoTerminator(s[i..k])
    ensures k < |s| ==> IsLineTerminator(s[k])
    decreases |s| - i
  {
    if i == |s| || IsLineTerminator(s[i]) then i
    else
      var k := LineEnd(s, i + 1);
      assert s[i..k] == [s[i]] + s[i + 1..k];
      k
  }

  const DocStart: string := "\n/**\n * "
  const DocEnd: string := "\n*/\n"

  /** `text.replace(/\/\/((.)*)\n/g, '\n/**\n * $1\n*/\n')`: on every line
      ended by `\n` that holds `//`, the text from the first `//` to the end
      of the line becomes a doc comment; lines ended by another terminator,
      or by the end of the text, are kept. */
  function RewriteLineComments(s: string): (r: string)
    ensures NoTerminator(s) ==> r == s
    decreases |s|
  {
    var k := LineEnd(s, 0);
    if k == |s| then
      assert s[0..k] == s;
      s
    else
      var line := s[..k];
      if s[k] == '\n' && IndexOf(line, "//").Some? then
        var i := IndexOf(line, "//").value;
        line[..i] + DocStart + line[i + 2..] + DocEnd + RewriteLineComments(s[k + 1..])
      else
        line + [s[k]] + RewriteLineComments(s[k + 1..])
  }

  /** A text without `//` is left as it is. */
  lemma {:induction false} RewriteWithoutComments(s: string)
    requires !Includes(s, "//")
    ensures RewriteLineComments(s) == s
    decreases |s|
  {
    var k := LineEnd(s, 0);
    if k < |s| {
      var line := s[..k];
      var rest := s[k + 1..];
      NoOccurrenceInPart(s, "//", 0, k);
      NoOccurrenceInPart(s, "//", k + 1, |s|);
      assert s[0..k] == line && s[k + 1..|s|] == rest;
      RewriteWithoutComments(rest);
      assert RewriteLineComments(s) == line + [s[k]] + RewriteLineComments(rest);
      assert s == line + [s[k]] + rest;
    }
  }

  /** A pattern that does not occur in `s` does not occur in any part of it. */
  lemma NoOccurrenceInPart(s: string, pat: string, lo: nat, hi: nat)
    requires lo <= hi <= |s| && !Includes(s, pat)
    ensures !Includes(s[lo..hi], pat)
  {
    var t := s[lo..hi];
    if Includes(t, pat) {
      var j := IndexOf(t, pat).value;
      assert t[j..j + |pat|] == s[lo + j..lo + j + |pat|];
      assert OccursAt(s, pat, lo + j);
    }
  }

  /** A `\n`-ended line `pre // text`, where the `//` is the first one of
      the line, becomes `pre`, then the doc comment holding `text`; what
      follows the line is rewritten in turn. */
  lemma RewriteCommentLine(pre: string, text: string, rest: string)
    requires NoTerminator(pre) && NoTerminator(text)
    requires !Includes(pre + "/", "//")
    ensures RewriteLineComments(pre + "//" + text + "\n" + rest)
            == pre + DocStart + text + DocEnd + RewriteLineComments(rest)
  {
    var s := pre + "//" + text + "\n" + rest;
    var line := pre + "//" + text;
    var n := |line|;
    assert s[..n] == line && s[n] == '\n' && s[n + 1..] == rest;
    assert LineEnd(s, 0) == n by {
      LineEndAt(s, n);
    }
    assert OccursAt(line, "//", |pre|) by {
      assert line[|pre|..|pre| + 2] == "//";
    }
    forall j | 0 <= j < |pre| ensures !OccursAt(line, "//", j) {
      assert !OccursAt(pre + "/", "//", j);
      assert line[j..j + 2] == (pre + "/")[j..j + 2];
    }
    assert IndexOf(line, "//") == Some(|pre|);
    assert line[..|pre|] == pre && line[|pre| + 2..] == text;
  }

  /** Any other line (one ended by `\r`, U+2028 or U+2029, or a
      `\n`-ended line without `//`) is kept with its terminator; what
      follows it is rewritten in turn. */
  lemma RewriteOtherLine(line: string, t: char, rest: string)
    requires NoTerminator(line) && IsLineTerminator(t)
    requires t != '\n' || !Includes(line, "//")
    ensures RewriteLineComments(line + [t] + rest) == line + [t] + RewriteLineComments(rest)
  {
    var s := line + [t] + rest;
    var n := |line|;
    assert s[..n] == line && s[n] == t && s[n + 1..] == rest;
    LineEndAt(s, n);
  }

  /** A text without `/` holds no `//`, even with one `/` appended. */
  lemma SlashFree(p: string)
    requires forall i :: 0 <= i < |p| ==> p[i] != '/'
    ensures !Includes(p, "//") && !Includes(p + "/", "//")
  {
    var q := p + "/";
    forall j | 0 <= j ensures !OccursAt(q, "//", j) {
      if j + 2 <= |q| {
        assert q[j..j + 2][0] == q[j];
      }
    }
    forall j | 0 <= j ensures !OccursAt(p, "//", j) {
      if j + 2 <= |p| {
        assert p[j..j + 2][0] == p[j];
      }
    }
  }

  /** A `\n`-ended line with a comment, then a last line without
      terminator: the comment changes and the last line is kept. */
  lemma RewriteCommentThenLast(pre: string, text: string, last: string)
    requires NoTerminator(pre) && NoTerminator(text) && NoTerminator(last)
    requires forall i :: 0 <= i < |pre| ==> pre[i] != '/'
    ensures RewriteLineComments(pre + "//" + text + "\n" + last) == pre + DocStart + text + DocEnd + last
  {
    SlashFree(pre);
    RewriteCommentLine(pre, text, last);
  }

  /** A type text of three lines, a comment on the middle one only (as in
      `{`, `a: number // x`, `}`): the first and last lines are kept and
      only the comment changes. */
  lemma RewriteThreeLines(first: string, pre: string, text: string, last: string)
    requires NoTerminator(first) && NoTerminator(pre) && NoTerminator(text) && NoTerminator(last)
    requires forall i :: 0 <= i < |first| ==> first[i] != '/'
    requires forall i :: 0 <= i < |pre| ==> pre[i] != '/'
    ensures RewriteLineComments(first + "\n" + (pre + "//" + text + "\n" + last))
            == first + "\n" + (pre + DocStart + text + DocEnd + last)
  {
    SlashFree(first);
    RewriteCommentThenLast(pre, text, last);
    RewriteOtherLine(first, '\n', pre + "//" + text + "\n" + last);
  }

  lemma LineEndAt(s: string, n: nat)
    requires n < |s| && IsLineTerminator(s[n]) && NoTerminator(s[..n])
    ensures LineEnd(s, 0) == n
  {
  }

  /* ---------------------------------------------------------------- */
  /* genNode                                                           */
  /* ---------------------------------------------------------------- */

  /** `isTypeLiteral`: a type alias whose type node is a type literal. */
  predicate IsTypeLiteral(d: Declaration) {
    d.form == TypeAliasForm && d.typeIsLiteral
  }

  /** The declarations `genNode` rebuilds as an interface. */
  predicate BecomesInterface(d: Declaration) {
    IsTypeLiteral(d) || d.form == InterfaceForm
  }

  /** The property's type text, trimmed, with its line comments rewritten. */
  function PropertyType(typeText: Option<string>): (r: Option<string>)
    ensures r.Some? <==> typeText.Some?
    ensures typeText.Some? ==> r == Some(RewriteLineComments(Trim(typeText.value)))
    ensures typeText.Some? && !Includes(Trim(typeText.value), "//") ==> r == Some(Trim(typeText.value))
  {
    match typeText
    case None => None
    case Some(t) =>
      if !Includes(Trim(t), "//") then
        RewriteWithoutComments(Trim(t));
        Some(RewriteLineComments(Trim(t)))
      else
        Some(RewriteLineComments(Trim(t)))
  }

  /** One property as `genNode` writes it: name, type text and the first
      leading comment through `commentHandler`. */
  function EmitProperty(p: PropertySig): EmittedProperty {
    EmittedProperty(p.name, PropertyType(p.typeText),
                    CommentHandler(if p.leadingComments == [] then None else Some(p.leadingComments[0])))
  }

  function EmitProperties(ps: seq<PropertySig>): (r: seq<EmittedProperty>)
    ensures |r| == |ps|
    ensures forall i :: 0 <= i < |ps| ==> r[i] == EmitProperty(ps[i])
  {
    seq(|ps|, i requires 0 <= i < |ps| => EmitProperty(ps[i]))
  }

  /** The emitted properties keep the source's names and order; a property
      whose first leading comment is a `//` comment carries it as a doc
      comment with the same text. */
  lemma EmittedPropertiesFaithful(ps: seq<PropertySig>, i: nat)
    requires i < |ps|
    ensures EmitProperties(ps)[i].name == ps[i].name
    ensures ps[i].typeText.None? <==> EmitProperties(ps)[i].typeText.None?
    ensures ps[i].leadingComments != [] && IsLineComment(ps[i].leadingComments[0]) ==>
              DocText(EmitProperties(ps)[i].leadingTrivia) == Some(ps[i].leadingComments[0][2..])
    ensures ps[i].leadingComments == [] ==> EmitProperties(ps)[i].leadingTrivia == ""
  {
  }

  /** `genNode`: an interface, or a type alias of a type literal, is
      written as an exported interface called `name` with the same type
      parameters and its properties re-emitted; any other declaration is
      copied as it is. */
  method GenNode(ns: Namespace, prj: Project, name: string, d: nat)
    requires ProjectOk(prj) && d < |prj.decls|
    modifies ns
    ensures BecomesInterface(prj.decls[d]) ==>
              ns.members == old(ns.members)
                            + [InterfaceMember(name, EmitProperties(prj.decls[d].properties), prj.decls[d].typeParams, true)]
    ensures !BecomesInterface(prj.decls[d]) ==> ns.members == old(ns.members) + [CopiedMember(prj.decls[d])]
  {
    var decl := prj.decls[d];
    if (decl.form == TypeAliasForm && IsTypeLiteral(decl)) || decl.form == InterfaceForm {
      var props := EmitProperties(decl.properties);
      var i := ns.AddInterface(name, props, decl.typeParams);
      ns.SetIsExported(i);
    } else {
      var node := Node(DeclarationNode(d), decl.body);
      assert NodeOk(prj, node);
      var _ := AddNode(ns, prj, node);
    }
  }
}
