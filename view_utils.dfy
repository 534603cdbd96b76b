/** The documentation viewer's display helpers (src/view/src/utils/index.ts):
    single-expression string and boolean conversions. `undefined` is `None`. */
module ViewUtils {
  import opened Wrappers
  import opened JsStrings

  const Yes: string := "是"
  const No: string := "否"

  /** Renders a required flag as the viewer's yes/no word. */
  function BooleanHandler(b: bool): (r: string)
    ensures r == Yes || r == No
    ensures r == Yes <==> b
  {
    if b then Yes else No
  }

  /** The text starts with the two characters of a line comment. */
  predicate IsLineComment(s: string) {
    |s| >= 2 && s[0] == '/' && s[1] == '/'
  }

  /** `t` is `body` with its leading and trailing whitespace cut off, and
      nothing else. */
  predicate TrimmedOf(body: string, t: string) {
    var k := TrimOffset(body);
    && k + |t| <= |body|
    && t == body[k..k + |t|]
    && AllWhitespace(body[..k]) && AllWhitespace(body[k + |t|..])
    && (t == [] || (!IsWhitespace(t[0]) && !IsWhitespace(t[|t| - 1])))
  }

  lemma TrimmedOfTrim(body: string)
    ensures TrimmedOf(body, Trim(body))
  {
  }

  /** Strips a leading `//` and the whitespace around the remaining comment
      text; anything else, `undefined` included, comes back unchanged. */
  function ParamsCommentsHandler(s: Option<string>): (r: Option<string>)
    ensures r.Some? <==> s.Some?
    ensures s.Some? && !IsLineComment(s.value) ==> r == s
    ensures s.Some? && IsLineComment(s.value) ==> TrimmedOf(s.value[2..], r.value)
  {
    match s
    case None => None
    case Some(str) =>
      if str != "" && str[0] == '/' && |str| > 1 && str[1] == '/' then
        TrimmedOfTrim(str[2..]);
        Some(Trim(str[2..]))
      else s
  }

  /** The HTML rendering of one character: a newline becomes `<br>`, a space
      `&nbsp;`, anything else stays. */
  function EscapeChar(c: char): string {
    if c == '\n' then "<br>" else if c == ' ' then "&nbsp;" else [c]
  }

  /** Escapes every character of `s`, one at a time. */
  function EscapeEach(s: string): string {
    if s == [] then "" else EscapeChar(s[0]) + EscapeEach(s[1..])
  }

  /** Trims, then renders newlines as `<br>` and spaces as `&nbsp;`, so that
      the result holds neither. */
  function RevertEscapeCharacter(s: Option<string>): (r: Option<string>)
    ensures r.Some? <==> s.Some?
    ensures r.Some? ==> '\n' !in r.value && ' ' !in r.value
  {
    match s
    case None => None
    case Some(str) =>
      var t := Trim(str);
      NoBreakNoSpace(t);
      Some(ReplaceChar(ReplaceChar(t, '\n', "<br>"), ' ', "&nbsp;"))
  }

  lemma NoBreakNoSpace(x: string)
    ensures var u := ReplaceChar(ReplaceChar(x, '\n', "<br>"), ' ', "&nbsp;");
            '\n' !in u && ' ' !in u
  {
    var t := ReplaceChar(x, '\n', "<br>");
    assert '\n' !in "<br>";
    assert '\n' !in t;
    assert ' ' !in "&nbsp;" && '\n' !in "&nbsp;";
    ReplaceCharKeepsAbsent(t, ' ', "&nbsp;", '\n');
  }

  /** The two `replaceAll` passes amount to escaping each character of the
      trimmed text independently. */
  lemma {:induction false} RevertEscapeIsCharwise(s: string)
    ensures RevertEscapeCharacter(Some(s)) == Some(EscapeEach(Trim(s)))
  {
    EscapeTwoPasses(Trim(s));
  }

  lemma {:induction false} EscapeTwoPasses(t: string)
    ensures ReplaceChar(ReplaceChar(t, '\n', "<br>"), ' ', "&nbsp;") == EscapeEach(t)
  {
    if t != [] {
      EscapeTwoPasses(t[1..]);
      var head := if t[0] == '\n' then "<br>" else [t[0]];
      assert ReplaceChar(t, '\n', "<br>") == head + ReplaceChar(t[1..], '\n', "<br>");
      ReplaceCharAppend(head, ReplaceChar(t[1..], '\n', "<br>"), ' ', "&nbsp;");
      if t[0] == '\n' {
        assert ReplaceChar("<br>", ' ', "&nbsp;") == "<br>" by {
          ReplaceCharAbsent("<br>", ' ', "&nbsp;");
        }
      } else {
        assert ReplaceChar([t[0]], ' ', "&nbsp;") == EscapeChar(t[0]);
      }
    }
  }

  /** Removes every double quote. */
  function ParamsTypeHandler(s: Option<string>): (r: Option<string>)
    ensures r.Some? <==> s.Some?
    ensures r.Some? ==> '"' !in r.value
  {
    match s
    case None => None
    case Some(str) => Some(ReplaceChar(str, '"', ""))
  }

  /** Removing the quotes twice is removing them once. */
  lemma ParamsTypeHandlerIdempotent(s: Option<string>)
    ensures ParamsTypeHandler(ParamsTypeHandler(s)) == ParamsTypeHandler(s)
  {
    if s.Some? {
      ReplaceCharAbsent(ParamsTypeHandler(s).value, '"', "");
    }
  }

  /** Exactly the quotes are dropped: the result is shorter by their number. */
  lemma {:induction false} ParamsTypeHandlerLength(s: string)
    ensures |ParamsTypeHandler(Some(s)).value| == |s| - CountChar(s, '"')
  {
    if s != [] {
      ParamsTypeHandlerLength(s[1..]);
    }
  }
}
