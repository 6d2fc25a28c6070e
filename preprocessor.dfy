// Comment stripping before lexing (src/scrapelang/preprocessor.rs): every match of the
// multi-line pattern `^\s*#.*(\r?\n)?` is removed. A match starts at the start of a line,
// runs over whitespace (line breaks included) to a '#', then to the end of that line and
// through its line break if there is one.

module Preprocessor {
  import opened Wrappers

  /** `\s` of the regex crate: Unicode White_Space. */
  predicate IsSpace(c: char) {
    c == ' ' || c == '\t' || c == '\n' || c == '\U{000B}' || c == '\U{000C}' || c == '\r'
    || c == '\U{0085}' || c == '\U{00A0}' || c == '\U{1680}' || '\U{2000}' <= c <= '\U{200A}'
    || c == '\U{2028}' || c == '\U{2029}' || c == '\U{202F}' || c == '\U{205F}' || c == '\U{3000}'
  }

  /** `^` in multi-line mode: the start of the text or just after a '\n'. */
  predicate LineStart(t: string, p: nat)
    requires p <= |t|
  {
    p == 0 || t[p - 1] == '\n'
  }

  /** Where the greedy `\s*` from `i` stops. */
  function SpanSpaces(t: string, i: nat): (r: nat)
    requires i <= |t|
    ensures i <= r <= |t|
    decreases |t| - i
  {
    if i == |t| || !IsSpace(t[i]) then i else SpanSpaces(t, i + 1)
  }

  /** Where the greedy `.*` from `i` stops: the next '\n', or the end of the text. */
  function LineEnd(t: string, i: nat): (r: nat)
    requires i <= |t|
    ensures i <= r <= |t|
    decreases |t| - i
  {
    if i == |t| || t[i] == '\n' then i else LineEnd(t, i + 1)
  }

  /** The end of the match starting at `p`, if one does. */
  function CommentEnd(t: string, p: nat): (r: Option<nat>)
    requires p <= |t|
    ensures r.Some? ==> p < r.value <= |t|
  {
    if !LineStart(t, p) then None
    else
      var j := SpanSpaces(t, p);
      if j < |t| && t[j] == '#' then
        var k := LineEnd(t, j + 1);
        Some(if k < |t| then k + 1 else k)
      else None
  }

  /** `replace_all(text, "")` from position `p` on: matches are leftmost and do not
      overlap; the text between them is kept. */
  function StripFrom(t: string, p: nat): (r: string)
    requires p <= |t|
    ensures |r| <= |t| - p
    decreases |t| - p
  {
    if p == |t| then []
    else
      var e := CommentEnd(t, p);
      if e.Some? then StripFrom(t, e.value) else [t[p]] + StripFrom(t, p + 1)
  }

  /** `strip_comments` */
  function StripComments(text: string): (r: string)
    ensures |r| <= |text|
  {
    StripFrom(text, 0)
  }

  // ----- properties -----

  /** No line of `t` has '#' as its first non-whitespace character: every '#' has a
      non-whitespace character before it on its own line. */
  predicate NoCommentLine(t: string) {
    forall i :: 0 <= i < |t| && t[i] == '#' ==>
      exists j :: 0 <= j < i && !IsSpace(t[j]) && NoNewlineBetween(t, j, i)
  }

  predicate NoNewlineBetween(t: string, j: nat, i: nat)
    requires j <= i <= |t|
  {
    forall k :: j <= k < i ==> t[k] != '\n'
  }

  lemma NoMatchWithoutCommentLine(t: string, p: nat)
    requires p <= |t| && NoCommentLine(t)
    ensures CommentEnd(t, p).None?
  {
    if LineStart(t, p) {
      var j := SpanSpaces(t, p);
      SpacesBeforeSpan(t, p);
      if j < |t| && t[j] == '#' {
        assert false;
      }
    }
  }

  lemma {:induction false} SpacesBeforeSpan(t: string, i: nat)
    requires i <= |t|
    ensures forall k :: i <= k < SpanSpaces(t, i) ==> IsSpace(t[k])
    decreases |t| - i
  {
    if i < |t| && IsSpace(t[i]) {
      SpacesBeforeSpan(t, i + 1);
    }
  }

  lemma {:induction false} StripFromUnchanged(t: string, p: nat)
    requires p <= |t| && NoCommentLine(t)
    ensures StripFrom(t, p) == t[p..]
    decreases |t| - p
  {
    if p < |t| {
      NoMatchWithoutCommentLine(t, p);
      StripFromUnchanged(t, p + 1);
      assert t[p..] == [t[p]] + t[p + 1..];
    }
  }

  /** Text in which no line starts (after whitespace) with '#' is returned unchanged; in
      particular text without any '#', and a '#' after other text on its line. */
  lemma NoCommentLineUnchanged(t: string)
    requires NoCommentLine(t)
    ensures StripComments(t) == t
  {
    StripFromUnchanged(t, 0);
  }

  lemma NoHashUnchanged(t: string)
    requires '#' !in t
    ensures StripComments(t) == t
  {
    NoCommentLineUnchanged(t);
  }

  // Positions in `b` behave the same after a prefix `a` that ends a line.

  predicate EndsLine(a: string) {
    a == [] || a[|a| - 1] == '\n'
  }

  lemma {:induction false} SpanSpacesShift(a: string, b: string, i: nat)
    requires i <= |b|
    ensures SpanSpaces(a + b, |a| + i) == |a| + SpanSpaces(b, i)
    decreases |b| - i
  {
    if i < |b| {
      assert (a + b)[|a| + i] == b[i];
      if IsSpace(b[i]) {
        SpanSpacesShift(a, b, i + 1);
      }
    }
  }

  lemma {:induction false} LineEndShift(a: string, b: string, i: nat)
    requires i <= |b|
    ensures LineEnd(a + b, |a| + i) == |a| + LineEnd(b, i)
    decreases |b| - i
  {
    if i < |b| {
      assert (a + b)[|a| + i] == b[i];
      if b[i] != '\n' {
        LineEndShift(a, b, i + 1);
      }
    }
  }

  lemma CommentEndShift(a: string, b: string, i: nat)
    requires i <= |b| && EndsLine(a)
    ensures CommentEnd(a + b, |a| + i).Some? <==> CommentEnd(b, i).Some?
    ensures CommentEnd(b, i).Some? ==> CommentEnd(a + b, |a| + i).value == |a| + CommentEnd(b, i).value
  {
    var t := a + b;
    assert LineStart(t, |a| + i) <==> LineStart(b, i) by {
      if i > 0 {
        assert t[|a| + i - 1] == b[i - 1];
      }
    }
    SpanSpacesShift(a, b, i);
    var j := SpanSpaces(b, i);
    if j < |b| {
      assert t[|a| + j] == b[j];
      LineEndShift(a, b, j + 1);
    }
  }

  lemma {:induction false} StripFromShift(a: string, b: string, i: nat)
    requires i <= |b| && EndsLine(a)
    ensures StripFrom(a + b, |a| + i) == StripFrom(b, i)
    decreases |b| - i
  {
    if i < |b| {
      forall j | i < j <= |b|
        ensures StripFrom(a + b, |a| + j) == StripFrom(b, j)
      {
        StripFromShift(a, b, j);
      }
      ShiftStep(a, b, i);
    } else {
      StripFromEnd(a + b, |a| + i);
      StripFromEnd(b, i);
    }
  }

  /** One step of the shift: whether a match starts at `i` or not, the rest follows from
      the positions after `i`. */
  lemma ShiftStep(a: string, b: string, i: nat)
    requires i < |b| && EndsLine(a)
    requires forall j :: i < j <= |b| ==> StripFrom(a + b, |a| + j) == StripFrom(b, j)
    ensures StripFrom(a + b, |a| + i) == StripFrom(b, i)
  {
    if CommentEnd(b, i).Some? {
      ShiftSkip(a, b, i);
    } else {
      ShiftCopy(a, b, i);
    }
  }

  lemma ShiftSkip(a: string, b: string, i: nat)
    requires i < |b| && CommentEnd(b, i).Some? && EndsLine(a)
    requires StripFrom(a + b, |a| + CommentEnd(b, i).value) == StripFrom(b, CommentEnd(b, i).value)
    ensures StripFrom(a + b, |a| + i) == StripFrom(b, i)
  {
    var e := CommentEnd(b, i).value;
    CommentEndShift(a, b, i);
    assert CommentEnd(a + b, |a| + i) == Some(|a| + e);
    StripFromSkips(a + b, |a| + i);
    StripFromSkips(b, i);
  }

  lemma ShiftCopy(a: string, b: string, i: nat)
    requires i < |b| && CommentEnd(b, i).None? && EndsLine(a)
    requires StripFrom(a + b, |a| + i + 1) == StripFrom(b, i + 1)
    ensures StripFrom(a + b, |a| + i) == StripFrom(b, i)
  {
    CommentEndShift(a, b, i);
    StripFromCopies(a + b, |a| + i);
    StripFromCopies(b, i);
    assert (a + b)[|a| + i] == b[i];
  }

  lemma StripFromEnd(t: string, p: nat)
    requires p == |t|
    ensures StripFrom(t, p) == []
  {
  }

  lemma StripFromSkips(t: string, p: nat)
    requires p < |t| && CommentEnd(t, p).Some?
    ensures StripFrom(t, p) == StripFrom(t, CommentEnd(t, p).value)
  {
  }

  lemma StripFromCopies(t: string, p: nat)
    requires p < |t| && CommentEnd(t, p).None?
    ensures StripFrom(t, p) == [t[p]] + StripFrom(t, p + 1)
  {
  }

  /** A line made of whitespace, a '#', and anything up to and including its line break,
      is removed, and what follows is stripped on its own. The whitespace may hold line
      breaks: blank lines directly before a comment line go with it. */
  lemma CommentLineRemoved(ws: string, body: string, rest: string)
    requires forall k :: 0 <= k < |ws| ==> IsSpace(ws[k])
    requires '\n' !in body
    ensures StripComments(ws + "#" + body + "\n" + rest) == StripComments(rest)
  {
    var line := ws + "#" + body + "\n";
    var t := line + rest;
    assert t == ws + "#" + body + "\n" + rest;
    SpanSpacesAt(t, ws);
    LineEndAt(t, |ws| + 1, body);
    assert CommentEnd(t, 0) == Some(|line|);
    StripFromShift(line, rest, 0);
  }

  /** The same line without a line break at the very end of the text is removed too. */
  lemma FinalCommentLineRemoved(ws: string, body: string)
    requires forall k :: 0 <= k < |ws| ==> IsSpace(ws[k])
    requires '\n' !in body
    ensures StripComments(ws + "#" + body) == ""
  {
    var t := ws + "#" + body;
    SpanSpacesAt(t, ws);
    LineEndAt(t, |ws| + 1, body);
    assert CommentEnd(t, 0) == Some(|t|);
  }

  /** A line whose first non-whitespace character is not '#' is kept whole, and what
      follows it is stripped on its own. */
  lemma CodeLineKept(line: string, rest: string, j: nat)
    requires '\n' !in line && j < |line|
    requires forall k :: 0 <= k < j ==> IsSpace(line[k])
    requires !IsSpace(line[j]) && line[j] != '#'
    ensures StripComments(line + "\n" + rest) == line + "\n" + StripComments(rest)
  {
    var l := line + "\n";
    var t := l + rest;
    assert t == line + "\n" + rest;
    NoMatchOnCodeLine(line, rest, j);
    LinePrefix(line, rest);
    CopiedUpTo(t, |l|);
    StripFromShift(l, rest, 0);
  }

  lemma NoMatchOnCodeLine(line: string, rest: string, j: nat)
    requires j < |line|
    requires forall k :: 0 <= k < j ==> IsSpace(line[k])
    requires !IsSpace(line[j]) && line[j] != '#'
    ensures CommentEnd(line + "\n" + rest, 0).None?
  {
    var t := line + "\n" + rest;
    assert t[j] == line[j];
    SpanSpacesStops(t, 0, j);
  }

  lemma LinePrefix(line: string, rest: string)
    requires '\n' !in line
    ensures var t := line + "\n" + rest;
            (forall k :: 0 <= k < |line| ==> t[k] != '\n') && t[..|line| + 1] == line + "\n"
  {
    var t := line + "\n" + rest;
    forall k | 0 <= k < |line|
      ensures t[k] != '\n'
    {
      assert t[k] == line[k];
    }
  }

  lemma {:induction false} SpanSpacesStops(t: string, i: nat, j: nat)
    requires i <= j < |t|
    requires forall k :: i <= k < j ==> IsSpace(t[k])
    requires !IsSpace(t[j])
    ensures SpanSpaces(t, i) == j
    decreases j - i
  {
    if i < j {
      SpanSpacesStops(t, i + 1, j);
    }
  }

  /** Inside a line no match can start, so the first `n` characters are copied, when no
      match starts at 0 and `n - 1` is the first line break. */
  lemma CopiedUpTo(t: string, n: nat)
    requires 0 < n <= |t| && CommentEnd(t, 0).None?
    requires forall k :: 0 <= k < n - 1 ==> t[k] != '\n'
    ensures StripFrom(t, 0) == t[..n] + StripFrom(t, n)
  {
    CopiedFrom(t, 0, n);
  }

  lemma {:induction false} CopiedFrom(t: string, p: nat, n: nat)
    requires p < n <= |t|
    requires p == 0 ==> CommentEnd(t, 0).None?
    requires forall k :: 0 <= k < n - 1 ==> t[k] != '\n'
    ensures StripFrom(t, p) == t[p..n] + StripFrom(t, n)
    decreases n - p
  {
    if p > 0 {
      assert t[p - 1] != '\n';
      assert !LineStart(t, p);
    }
    StripFromCopies(t, p);
    if p + 1 < n {
      CopiedFrom(t, p + 1, n);
      calc {
        StripFrom(t, p);
        [t[p]] + (t[p + 1..n] + StripFrom(t, n));
        ([t[p]] + t[p + 1..n]) + StripFrom(t, n);
        { assert t[p..n] == [t[p]] + t[p + 1..n]; }
        t[p..n] + StripFrom(t, n);
      }
    } else {
      assert t[p..n] == [t[p]];
    }
  }

  lemma {:induction false} SpanSpacesAt(t: string, ws: string)
    requires |ws| < |t| && ws == t[..|ws|] && t[|ws|] == '#'
    requires forall k :: 0 <= k < |ws| ==> IsSpace(ws[k])
    ensures SpanSpaces(t, 0) == |ws|
  {
    SpanSpacesStops(t, 0, |ws|);
  }

  lemma {:induction false} LineEndAt(t: string, i: nat, body: string)
    requires i + |body| <= |t| && t[i..i + |body|] == body && '\n' !in body
    requires i + |body| < |t| ==> t[i + |body|] == '\n'
    ensures LineEnd(t, i) == i + |body|
    decreases |body|
  {
    if body != [] {
      assert t[i] == body[0];
      assert t[i + 1..i + 1 + |body[1..]|] == body[1..];
      LineEndAt(t, i + 1, body[1..]);
    }
  }

  /** The cases of `test_strip_comments`. */
  lemma StripCommentsEmptyAndPlain()
    ensures StripComments("") == ""
    ensures StripComments("foo") == "foo"
  {
    NoHashUnchanged("foo");
  }

  lemma StripCommentsWholeText()
    ensures StripComments("#foo") == ""
    ensures StripComments("   #foo") == ""
  {
    FinalCommentLineRemoved("", "foo");
    assert "   " + "#" + "foo" == "   #foo";
    FinalCommentLineRemoved("   ", "foo");
  }

  lemma StripCommentsMiddleLine()
    ensures StripComments("foo\n# bar\nbaz") == "foo\nbaz"
  {
    var rest := "baz";
    NoHashUnchanged(rest);
    assert !IsSpace('f');
    assert "foo\n# bar\nbaz" == "foo" + "\n" + "" + "#" + " bar" + "\n" + rest;
    CodeThenComment("foo", 0, "", " bar", rest);
  }

  lemma StripCommentsFirstAndLastLine()
    ensures StripComments("# foo\n bar\n # baz") == " bar\n"
  {
    var last := " # baz";
    assert last == " " + "#" + " baz";
    FinalCommentLineRemoved(" ", " baz");
    assert IsSpace(' ') && !IsSpace('b');
    assert "# foo\n bar\n # baz" == "" + "#" + " foo" + "\n" + " bar" + "\n" + last;
    CommentThenCode("", " foo", " bar", 1, last);
  }

  lemma CodeThenComment(code: string, j: nat, ws: string, body: string, rest: string)
    requires '\n' !in code && j < |code|
    requires forall k :: 0 <= k < j ==> IsSpace(code[k])
    requires !IsSpace(code[j]) && code[j] != '#'
    requires forall k :: 0 <= k < |ws| ==> IsSpace(ws[k])
    requires '\n' !in body
    ensures StripComments(code + "\n" + ws + "#" + body + "\n" + rest) == code + "\n" + StripComments(rest)
  {
    var c := ws + "#" + body + "\n" + rest;
    assert code + "\n" + ws + "#" + body + "\n" + rest == code + "\n" + c;
    CodeLineKept(code, c, j);
    CommentLineRemoved(ws, body, rest);
  }

  lemma CommentThenCode(ws: string, body: string, code: string, j: nat, rest: string)
    requires '\n' !in code && j < |code|
    requires forall k :: 0 <= k < j ==> IsSpace(code[k])
    requires !IsSpace(code[j]) && code[j] != '#'
    requires forall k :: 0 <= k < |ws| ==> IsSpace(ws[k])
    requires '\n' !in body
    ensures StripComments(ws + "#" + body + "\n" + code + "\n" + rest) == code + "\n" + StripComments(rest)
  {
    var c := code + "\n" + rest;
    assert ws + "#" + body + "\n" + code + "\n" + rest == ws + "#" + body + "\n" + c;
    CommentLineRemoved(ws, body, c);
    CodeLineKept(code, rest, j);
  }
}
