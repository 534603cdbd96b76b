/** The JavaScript string primitives the core relies on (`trim`, `split` on one
    character, `join`, `slice(1, -1)`, `replace` of the first occurrence,
    `replaceAll` of one character, `includes`), each stated on `seq<char>`. */
module JsStrings {
  import opened Wrappers

  /** The characters `String.prototype.trim` removes: ECMAScript WhiteSpace and
      LineTerminator code points. */
  predicate IsWhitespace(c: char) {
    c == ' ' || c == '\t' || c == '\n' || c == '\r' || c == '\U{000B}' || c == '\U{000C}'
    || c == '\U{00A0}' || c == '\U{1680}' || ('\U{2000}' <= c <= '\U{200A}')
    || c == '\U{2028}' || c == '\U{2029}' || c == '\U{202F}' || c == '\U{205F}'
    || c == '\U{3000}' || c == '\U{FEFF}'
  }

  predicate AllWhitespace(s: string) {
    forall i :: 0 <= i < |s| ==> IsWhitespace(s[i])
  }

  /** `s.trimStart()`: the longest suffix of `s` not starting with whitespace. */
  function TrimStart(s: string): (r: string)
    ensures |r| <= |s| && r == s[|s| - |r|..]
    ensures r == [] || !IsWhitespace(r[0])
    ensures AllWhitespace(s[..|s| - |r|])
  {
    if s != [] && IsWhitespace(s[0]) then
      var r := TrimStart(s[1..]);
      assert s[1..][..|s[1..]| - |r|] == s[1..|s| - |r|];
      r
    else s
  }

  /** `s.trimEnd()`: the longest prefix of `s` not ending with whitespace. */
  function TrimEnd(s: string): (r: string)
    ensures |r| <= |s| && r == s[..|r|]
    ensures r == [] || !IsWhitespace(r[|r| - 1])
    ensures AllWhitespace(s[|r|..])
  {
    if s != [] && IsWhitespace(s[|s| - 1]) then
      var r := TrimEnd(s[..|s| - 1]);
      assert s[..|s| - 1][|r|..] + [s[|s| - 1]] == s[|r|..];
      r
    else s
  }

  /** How many leading characters `trim` drops. */
  function TrimOffset(s: string): nat {
    |s| - |TrimStart(s)|
  }

  /** `s.trim()`: `s` without its leading and trailing whitespace, and nothing
      else removed. */
  function Trim(s: string): (r: string)
    ensures TrimOffset(s) + |r| <= |s| && r == s[TrimOffset(s)..TrimOffset(s) + |r|]
    ensures r == [] || (!IsWhitespace(r[0]) && !IsWhitespace(r[|r| - 1]))
    ensures AllWhitespace(s[..TrimOffset(s)]) && AllWhitespace(s[TrimOffset(s) + |r|..])
    ensures r == [] <==> AllWhitespace(s)
  {
    var t := TrimStart(s);
    var r := TrimEnd(t);
    TrimSlices(s, t, r, TrimOffset(s));
    r
  }

  /** The facts `Trim` draws from `TrimStart` and `TrimEnd`. */
  lemma TrimSlices(s: string, t: string, r: string, k: nat)
    requires |t| <= |s| && t == s[|s| - |t|..] && k == |s| - |t|
    requires t == [] || !IsWhitespace(t[0])
    requires AllWhitespace(s[..k])
    requires |r| <= |t| && r == t[..|r|]
    requires AllWhitespace(t[|r|..])
    requires r == [] || !IsWhitespace(r[|r| - 1])
    ensures k + |r| <= |s| && r == s[k..k + |r|]
    ensures AllWhitespace(s[k + |r|..])
    ensures r == [] <==> AllWhitespace(s)
  {
    assert s[k..k + |r|] == t[..|r|];
    assert s[k + |r|..] == t[|r|..];
    if r == [] {
      assert t[|r|..] == t;
      AllWhitespaceAppend(s[..k], t);
      assert s == s[..k] + t;
    } else {
      assert r[0] == s[k];
    }
  }

  lemma AllWhitespaceAppend(a: string, b: string)
    requires AllWhitespace(a) && AllWhitespace(b)
    ensures AllWhitespace(a + b)
  {
    forall i | 0 <= i < |a + b| ensures IsWhitespace((a + b)[i]) {
      if i < |a| { assert (a + b)[i] == a[i]; } else { assert (a + b)[i] == b[i - |a|]; }
    }
  }

  function CountChar(s: string, c: char): nat {
    if s == [] then 0 else (if s[0] == c then 1 else 0) + CountChar(s[1..], c)
  }

  /** `s.split(c)` for a one-character separator: the maximal pieces between
      occurrences of `c`; an empty string gives one empty piece. */
  function Split(s: string, c: char): (r: seq<string>)
    ensures |r| == CountChar(s, c) + 1
    ensures forall i :: 0 <= i < |r| ==> c !in r[i]
  {
    if s == [] then [""]
    else
      var rest := Split(s[1..], c);
      if s[0] == c then [""] + rest
      else [[s[0]] + rest[0]] + rest[1..]
  }

  /** `parts.join(sep)`. */
  function Join(parts: seq<string>, sep: string): string {
    if |parts| == 0 then ""
    else if |parts| == 1 then parts[0]
    else parts[0] + sep + Join(parts[1..], sep)
  }

  /** Splitting on `c` and joining with `c` gives the string back. */
  lemma {:induction false} JoinSplit(s: string, c: char)
    ensures Join(Split(s, c), [c]) == s
  {
    if s != [] {
      var rest := Split(s[1..], c);
      JoinSplit(s[1..], c);
      if s[0] == c {
        assert Split(s, c) == [""] + rest;
        assert ([""] + rest)[1..] == rest;
      } else {
        var r := Split(s, c);
        assert r == [[s[0]] + rest[0]] + rest[1..];
        if |rest| == 1 {
          assert s == [s[0]] + s[1..];
        } else {
          assert r[1..] == rest[1..];
          assert Join(r, [c]) == [s[0]] + rest[0] + [c] + Join(rest[1..], [c]);
          assert s == [s[0]] + s[1..];
        }
      }
    }
  }

  /** Each piece followed by `c`, all concatenated: the text of
      newline-terminated lines. */
  function Terminated(parts: seq<string>, c: char): string {
    if parts == [] then "" else parts[0] + [c] + Terminated(parts[1..], c)
  }

  lemma {:induction false} SplitAfterPiece(x: string, tail: string, c: char)
    requires c !in x
    ensures Split(x + [c] + tail, c) == [x] + Split(tail, c)
  {
    var s := x + [c] + tail;
    if x != [] {
      assert s[0] == x[0] && s[1..] == x[1..] + [c] + tail;
      SplitAfterPiece(x[1..], tail, c);
      assert x == [x[0]] + x[1..];
    } else {
      assert (x + [c] + tail)[1..] == tail;
    }
  }

  /** Splitting a run of terminated lines on their terminator recovers the
      lines, followed by the pieces of whatever comes after them. */
  lemma {:induction false} SplitTerminated(xs: seq<string>, tail: string, c: char)
    requires forall i :: 0 <= i < |xs| ==> c !in xs[i]
    ensures Split(Terminated(xs, c) + tail, c) == xs + Split(tail, c)
  {
    if xs != [] {
      var rest := Terminated(xs[1..], c) + tail;
      TerminatedCons(xs, tail, c);
      assert c !in xs[0];
      SplitAfterPiece(xs[0], rest, c);
      SplitTerminated(xs[1..], tail, c);
      assert [xs[0]] + (xs[1..] + Split(tail, c)) == xs + Split(tail, c);
    } else {
      assert Terminated(xs, c) + tail == tail;
    }
  }

  lemma TerminatedCons(xs: seq<string>, tail: string, c: char)
    requires xs != []
    ensures Terminated(xs, c) + tail == xs[0] + [c] + (Terminated(xs[1..], c) + tail)
  {
  }

  /** `s.slice(1, -1)`: `s` without its first and last character, empty when
      `s` has fewer than two characters. */
  function SliceInner(s: string): (r: string)
    ensures |s| >= 2 ==> |r| == |s| - 2 && forall i :: 0 <= i < |r| ==> r[i] == s[i + 1]
    ensures |s| < 2 ==> r == []
  {
    if |s| >= 2 then s[1..|s| - 1] else ""
  }

  /** `s.replaceAll(c, rep)` for a one-character pattern. */
  function ReplaceChar(s: string, c: char, rep: string): (r: string)
    ensures c !in rep ==> c !in r
    ensures forall d :: d in r ==> d in s || d in rep
  {
    if s == [] then ""
    else (if s[0] == c then rep else [s[0]]) + ReplaceChar(s[1..], c, rep)
  }

  lemma {:induction false} ReplaceCharAppend(s: string, t: string, c: char, rep: string)
    ensures ReplaceChar(s + t, c, rep) == ReplaceChar(s, c, rep) + ReplaceChar(t, c, rep)
  {
    if s != [] {
      assert (s + t)[1..] == s[1..] + t;
      ReplaceCharAppend(s[1..], t, c, rep);
    } else {
      assert s + t == t;
    }
  }

  /** `s.replaceAll(c, rep)` leaves a string without `c` unchanged. */
  /** A character in neither the text nor the replacement is not in the
      result. */
  lemma ReplaceCharKeepsAbsent(s: string, c: char, rep: string, d: char)
    requires d !in s && d !in rep
    ensures d !in ReplaceChar(s, c, rep)
  {
  }

  lemma {:induction false} ReplaceCharAbsent(s: string, c: char, rep: string)
    requires c !in s
    ensures ReplaceChar(s, c, rep) == s
  {
    if s != [] {
      assert c !in s[1..];
      ReplaceCharAbsent(s[1..], c, rep);
    }
  }

  /** `pat` occurs in `s` starting at index `i`. */
  predicate OccursAt(s: string, pat: string, i: nat) {
    i + |pat| <= |s| && s[i..i + |pat|] == pat
  }

  function IndexFrom(s: string, pat: string, i: nat): (r: Option<nat>)
    requires i <= |s|
    ensures r.Some? ==> i <= r.value && OccursAt(s, pat, r.value)
    ensures r.Some? ==> forall j :: i <= j < r.value ==> !OccursAt(s, pat, j)
    ensures r.None? ==> forall j :: i <= j ==> !OccursAt(s, pat, j)
    decreases |s| - i
  {
    if i + |pat| > |s| then None
    else if OccursAt(s, pat, i) then Some(i)
    else IndexFrom(s, pat, i + 1)
  }

  /** `s.indexOf(pat)`: the first index where `pat` occurs, if any. */
  function IndexOf(s: string, pat: string): (r: Option<nat>)
    ensures r.Some? ==> OccursAt(s, pat, r.value)
    ensures r.Some? ==> forall j :: 0 <= j < r.value ==> !OccursAt(s, pat, j)
    ensures r.None? ==> forall j :: !OccursAt(s, pat, j)
  {
    IndexFrom(s, pat, 0)
  }

  /** `s.includes(pat)`. */
  predicate Includes(s: string, pat: string) {
    IndexOf(s, pat).Some?
  }

  /** `s.replace(pat, '')`: the first occurrence of `pat` deleted. */
  function RemoveFirst(s: string, pat: string): (r: string)
    ensures IndexOf(s, pat).None? ==> r == s
    ensures IndexOf(s, pat).Some? ==>
      var i := IndexOf(s, pat).value; r == s[..i] + s[i + |pat|..]
  {
    match IndexOf(s, pat)
    case None => s
    case Some(i) => s[..i] + s[i + |pat|..]
  }
}
