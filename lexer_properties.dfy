// What the lexer promises about the tokens it produces: they cover the text exactly and
// each carries the position it starts at; keywords beat identifiers of the same length
// and lose to longer ones; string literals keep their escapes; the error cases.

module LexerProperties {
  import opened Wrappers
  import opened Errors
  import Strings
  import opened Lexer

  lemma {:induction false} PositionAfterConcat(p: TextPosition, a: string, b: string)
    ensures PositionAfter(p, a + b) == PositionAfter(PositionAfter(p, a), b)
  {
    if b == [] {
      assert a + b == a;
    } else {
      assert (a + b)[..|a + b| - 1] == a + b[..|b| - 1];
      PositionAfterConcat(p, a, b[..|b| - 1]);
    }
  }

  function Pieces(ms: seq<MatchResult>): (ps: seq<string>)
    ensures |ps| == |ms| && forall i :: 0 <= i < |ms| ==> ps[i] == ms[i].matched
  {
    seq(|ms|, i requires 0 <= i < |ms| => ms[i].matched)
  }

  /** Tokens `ms` laid out from `pos` as `LexChain` describes. */
  predicate LaidOut(ms: seq<MatchResult>, pos: TextPosition) {
    forall i :: 0 <= i < |ms| ==>
      ms[i].token.pos == PositionAfter(pos, Strings.Concat(Pieces(ms[..i])))
      && ms[i].token.posAfter == PositionAfter(ms[i].token.pos, ms[i].matched)
  }

  /**
   * The matched pieces spell out the text, and each token starts at the position
   * reached by reading the text before it and ends where its own text leads.
   */
  lemma {:induction false} LexChain(rest: string, pos: TextPosition)
    requires LexFrom(rest, pos).Ok?
    ensures Strings.Concat(Pieces(LexFrom(rest, pos).value)) == rest
    ensures LaidOut(LexFrom(rest, pos).value, pos)
    decreases |rest|
  {
    if rest != [] {
      assert Step(rest, pos).Ok?;
      var m := Step(rest, pos).value;
      LexFromStep(rest, pos);
      LexChain(rest[|m.matched|..], m.token.posAfter);
      var ms' := LexFrom(rest[|m.matched|..], m.token.posAfter).value;
      assert LexFrom(rest, pos).value == [m] + ms';
      LexChainStep(rest, pos, m, ms');
    }
  }

  lemma LexChainStep(rest: string, pos: TextPosition, m: MatchResult, ms': seq<MatchResult>)
    requires IsMatchAt(m, rest, pos)
    requires Strings.Concat(Pieces(ms')) == rest[|m.matched|..] && LaidOut(ms', m.token.posAfter)
    ensures Strings.Concat(Pieces([m] + ms')) == rest
    ensures LaidOut([m] + ms', pos)
  {
    LaidOutCons(m, ms', pos);
    assert rest == m.matched + rest[|m.matched|..];
  }

  lemma LaidOutCons(m: MatchResult, ms: seq<MatchResult>, pos: TextPosition)
    requires m.token.pos == pos && m.token.posAfter == PositionAfter(pos, m.matched)
    requires LaidOut(ms, m.token.posAfter)
    ensures LaidOut([m] + ms, pos)
    ensures Strings.Concat(Pieces([m] + ms)) == m.matched + Strings.Concat(Pieces(ms))
  {
    var all := [m] + ms;
    PiecesCons(m, ms, |all|);
    assert all[..|all|] == all;
    assert ms[..|ms|] == ms;
    forall i | 0 <= i < |all|
      ensures all[i].token.pos == PositionAfter(pos, Strings.Concat(Pieces(all[..i])))
    {
      if i == 0 {
        assert Pieces(all[..0]) == [];
      } else {
        PiecesCons(m, ms, i);
        PositionAfterConcat(pos, m.matched, Strings.Concat(Pieces(ms[..i - 1])));
      }
    }
  }

  lemma PiecesCons(m: MatchResult, ms: seq<MatchResult>, i: nat)
    requires 0 < i <= |ms| + 1
    ensures Strings.Concat(Pieces(([m] + ms)[..i])) == m.matched + Strings.Concat(Pieces(ms[..i - 1]))
  {
    var ps := Pieces(([m] + ms)[..i]);
    assert ps[0] == m.matched;
    assert ps[1..] == Pieces(ms[..i - 1]);
  }

  lemma ConcatPiecesSnoc(ms: seq<MatchResult>, i: nat)
    requires i < |ms|
    ensures Strings.Concat(Pieces(ms[..i + 1])) == Strings.Concat(Pieces(ms[..i])) + ms[i].matched
  {
    assert Pieces(ms[..i + 1]) == Pieces(ms[..i]) + [ms[i].matched];
    Strings.ConcatAppend(Pieces(ms[..i]), [ms[i].matched]);
    assert Strings.Concat([ms[i].matched]) == ms[i].matched;
  }

  lemma LaidOutTouching(ms: seq<MatchResult>, pos: TextPosition)
    requires LaidOut(ms, pos)
    ensures |ms| > 0 ==> ms[0].token.pos == pos
    ensures forall i :: 0 <= i < |ms| - 1 ==> ms[i + 1].token.pos == ms[i].token.posAfter
    ensures |ms| > 0 ==>
              ms[|ms| - 1].token.posAfter == PositionAfter(pos, Strings.Concat(Pieces(ms)))
  {
    if |ms| > 0 {
      assert Pieces(ms[..0]) == [];
    }
    forall i | 0 <= i < |ms| - 1
      ensures ms[i + 1].token.pos == ms[i].token.posAfter
    {
      ConcatPiecesSnoc(ms, i);
      PositionAfterConcat(pos, Strings.Concat(Pieces(ms[..i])), ms[i].matched);
    }
    if |ms| > 0 {
      var n := |ms| - 1;
      ConcatPiecesSnoc(ms, n);
      assert ms[..n + 1] == ms;
      PositionAfterConcat(pos, Strings.Concat(Pieces(ms[..n])), ms[n].matched);
    }
  }

  /** Consecutive tokens touch, and the last one ends where the text ends. */
  lemma LexedTokensChain(text: string)
    requires Lexed(text).Ok?
    ensures var ts := Lexed(text).value;
            (|ts| > 0 ==> ts[0].pos == Start)
            && (forall i :: 0 <= i < |ts| - 1 ==> ts[i + 1].pos == ts[i].posAfter)
            && (|ts| > 0 ==> ts[|ts| - 1].posAfter == PositionAfter(Start, text))
  {
    LexChain(text, Start);
    var ms := LexFrom(text, Start).value;
    assert LaidOut(ms, Start);
    LaidOutTouching(ms, Start);
  }

  // ----- which matcher wins -----

  predicate IsKeywordWord(w: string) {
    |w| > 0 && forall i :: 0 <= i < |w| ==> 'a' <= w[i] <= 'z'
  }

  const KeywordWords: set<string> :=
    set j | 0 <= j < KeywordCount :: Matchers[j].word

  /** What the matcher at index `j` of the table is. */
  lemma MatcherAt(j: nat)
    requires j < |Matchers|
    ensures |Matchers| == 25
    ensures j < KeywordCount <==> Matchers[j].KeywordMatcher?
    ensures j < KeywordCount ==> IsKeywordWord(Matchers[j].word)
    ensures j == 16 ==> Matchers[j] == CharMatcher(',', Comma)
    ensures j == 17 ==> Matchers[j] == CharMatcher('=', Equals)
    ensures j == IdentifierIndex <==> Matchers[j] == IdentifierMatcher
    ensures j == 19 ==> Matchers[j] == CharMatcher('(', LeftParenthesis)
    ensures j == NumberIndex <==> Matchers[j] == NumberMatcher
    ensures j == 21 ==> Matchers[j] == CharMatcher(')', RightParenthesis)
    ensures j == StringIndex <==> Matchers[j] == StringMatcher
    ensures j == BlanksIndex <==> Matchers[j] == BlanksMatcher
    ensures j == NewlineIndex <==> Matchers[j] == NewlineMatcher
  {
    if j < KeywordCount {
      KeywordMatcherAt(j);
    } else {
      OtherMatcherAt(j);
    }
  }

  lemma KeywordMatcherAt(j: nat)
    requires j < KeywordCount
    ensures |Matchers| == 25 && Matchers[j].KeywordMatcher? && IsKeywordWord(Matchers[j].word)
  {
    if j < 8 {
      FirstKeywordsAt(j);
    } else {
      LastKeywordsAt(j);
    }
  }

  lemma FirstKeywordsAt(j: nat)
    requires 0 <= j < 8
    ensures |Matchers| == 25 && Matchers[j].KeywordMatcher? && IsKeywordWord(Matchers[j].word)
  {
    if j == 0 {
    } else if j == 1 {
    } else if j == 2 {
    } else if j == 3 {
    } else if j == 4 {
    } else if j == 5 {
    } else if j == 6 {
    } else if j == 7 {
    }
  }

  lemma LastKeywordsAt(j: nat)
    requires 8 <= j < 16
    ensures |Matchers| == 25 && Matchers[j].KeywordMatcher? && IsKeywordWord(Matchers[j].word)
  {
    if j == 8 {
    } else if j == 9 {
    } else if j == 10 {
    } else if j == 11 {
    } else if j == 12 {
    } else if j == 13 {
    } else if j == 14 {
    } else if j == 15 {
    }
  }

  lemma OtherMatcherAt(j: nat)
    requires KeywordCount <= j < |Matchers|
    ensures |Matchers| == 25 && !Matchers[j].KeywordMatcher?
    ensures j == 16 <==> Matchers[j] == CharMatcher(',', Comma)
    ensures j == 17 <==> Matchers[j] == CharMatcher('=', Equals)
    ensures j == IdentifierIndex <==> Matchers[j] == IdentifierMatcher
    ensures j == 19 <==> Matchers[j] == CharMatcher('(', LeftParenthesis)
    ensures j == NumberIndex <==> Matchers[j] == NumberMatcher
    ensures j == 21 <==> Matchers[j] == CharMatcher(')', RightParenthesis)
    ensures j == StringIndex <==> Matchers[j] == StringMatcher
    ensures j == BlanksIndex <==> Matchers[j] == BlanksMatcher
    ensures j == NewlineIndex <==> Matchers[j] == NewlineMatcher
  {
    if j == 16 {
    } else if j == 17 {
    } else if j == 18 {
    } else if j == 19 {
    } else if j == 20 {
    } else if j == 21 {
    } else if j == 22 {
    } else if j == 23 {
    } else if j == 24 {
    }
  }

  /** The characters a matcher of the table can start with. */
  lemma StartsAt(j: nat, c: char)
    requires j < |Matchers|
    ensures CanStart(Matchers[j], c) <==>
              (j < KeywordCount && Matchers[j].word[0] == c)
              || (j == 16 && c == ',') || (j == 17 && c == '=')
              || (j == IdentifierIndex && IsIdentStart(c)) || (j == 19 && c == '(')
              || (j == NumberIndex && IsNonZeroDigit(c)) || (j == 21 && c == ')')
              || (j == StringIndex && c == '"') || (j == BlanksIndex && IsBlank(c))
              || (j == NewlineIndex && (c == '\n' || c == '\r'))
    ensures j < KeywordCount ==> IsLetter(Matchers[j].word[0])
  {
    MatcherAt(j);
  }

  /** No matcher but `k` can start with `c`. */
  predicate OnlyStarter(k: nat, c: char) {
    forall j :: 0 <= j < |Matchers| && j != k ==> !CanStart(Matchers[j], c)
  }

  lemma KeywordsDistinct()
    ensures forall i, j :: 0 <= i < j < KeywordCount ==> Matchers[i].word != Matchers[j].word
  {
  }

  /** A keyword not followed by an identifier character lexes as that keyword. */
  lemma KeywordWins(k: nat, r: string, pos: TextPosition)
    requires k < KeywordCount
    requires r == [] || !IsIdentChar(r[0])
    ensures var w := Matchers[k].word;
            Step(w + r, pos) == Ok(OneLineMatch(Matchers[k].kind, w, pos))
  {
    MatcherAt(k);
    var w := Matchers[k].word;
    var rest := w + r;
    var os := Outcomes(Matchers, rest, pos);
    assert rest[..|w|] == w;
    assert IsLetter(rest[0]);
    forall j | 0 <= j < |os|
      ensures !os[j].Failed?
      ensures os[j].Matched? ==> |os[j].result.matched| <= |w|
      ensures os[j].Matched? && j < k ==> |os[j].result.matched| < |w|
    {
      StartsAt(j, rest[0]);
      if j < KeywordCount {
        KeywordAt(j, k, r, pos);
      } else if j == IdentifierIndex {
        IdentifierSpan(w, r);
      } else {
        SilentUnlessStarts(Matchers[j], rest, pos);
      }
    }
    var c := Chosen(os);
    assert os[k].Matched?;
    assert IsEarliestLongest(os, k);
    EarliestLongestUnique(os, c.value, k);
  }

  lemma KeywordAt(j: nat, k: nat, r: string, pos: TextPosition)
    requires j < KeywordCount && k < KeywordCount
    requires r == [] || !IsIdentChar(r[0])
    ensures var w := Matchers[k].word;
            var o := TryMatch(Matchers[j], w + r, pos);
            o.Matched? ==> |o.result.matched| <= |w| && (j != k ==> |o.result.matched| < |w|)
  {
    MatcherAt(j);
    MatcherAt(k);
    KeywordsDistinct();
    var w := Matchers[k].word;
    TryKeyword(Matchers[j], w + r, pos);
    KeywordPrefix(w, Matchers[j].word, r);
  }

  lemma TryKeyword(m: Matcher, rest: string, pos: TextPosition)
    requires m.KeywordMatcher? && IsKeywordWord(m.word)
    ensures TryMatch(m, rest, pos) ==
              if IsPrefix(m.word, rest) then Matched(OneLineMatch(m.kind, m.word, pos)) else NoMatch
  {
  }

  predicate IsPrefix(p: string, s: string) {
    |p| <= |s| && s[..|p|] == p
  }

  /** A keyword that starts `w + r`, where `r` does not continue an identifier, is no
      longer than the keyword `w`, and as long only if it is `w`. */
  lemma KeywordPrefix(w: string, v: string, r: string)
    requires IsKeywordWord(w) && IsKeywordWord(v)
    requires r == [] || !IsIdentChar(r[0])
    ensures IsPrefix(v, w + r) ==> |v| <= |w| && (|v| == |w| ==> v == w)
  {
    var rest := w + r;
    assert rest[..|w|] == w;
    assert forall i :: 0 <= i < |r| ==> rest[|w| + i] == r[i];
    if IsPrefix(v, rest) {
      assert forall i :: 0 <= i < |v| ==> rest[i] == v[i];
    }
  }

  lemma IdentifierSpan(w: string, r: string)
    requires IsKeywordWord(w)
    requires r == [] || !IsIdentChar(r[0])
    ensures 1 + Span((w + r)[1..], IsIdentChar) == |w|
  {
    var s := (w + r)[1..];
    assert forall i :: 0 <= i < |w| - 1 ==> s[i] == w[i + 1];
    assert |w| - 1 < |s| ==> s[|w| - 1] == r[0];
  }

  /** A longer identifier wins over any keyword it starts with. */
  lemma IdentifierWins(rest: string, pos: TextPosition)
    requires |rest| > 0 && IsIdentStart(rest[0])
    requires rest[..1 + Span(rest[1..], IsIdentChar)] !in KeywordWords
    ensures var n := 1 + Span(rest[1..], IsIdentChar);
            Step(rest, pos) == Ok(OneLineMatch(Identifier(rest[..n]), rest[..n], pos))
  {
    MatcherAt(IdentifierIndex);
    var n := 1 + Span(rest[1..], IsIdentChar);
    var os := Outcomes(Matchers, rest, pos);
    forall j | 0 <= j < |os|
      ensures !os[j].Failed?
      ensures os[j].Matched? ==> |os[j].result.matched| <= n
      ensures os[j].Matched? && j < IdentifierIndex ==> |os[j].result.matched| < n
    {
      StartsAt(j, rest[0]);
      if j < KeywordCount {
        KeywordShorter(j, rest, pos);
      } else if j != IdentifierIndex {
        SilentUnlessStarts(Matchers[j], rest, pos);
      }
    }
    var c := Chosen(os);
    assert IsEarliestLongest(os, IdentifierIndex);
    EarliestLongestUnique(os, c.value, IdentifierIndex);
  }

  lemma KeywordShorter(j: nat, rest: string, pos: TextPosition)
    requires j < KeywordCount
    requires |rest| > 0 && IsIdentStart(rest[0])
    requires rest[..1 + Span(rest[1..], IsIdentChar)] !in KeywordWords
    ensures var o := TryMatch(Matchers[j], rest, pos);
            o.Matched? ==> |o.result.matched| < 1 + Span(rest[1..], IsIdentChar)
  {
    KeywordMatcherAt(j);
    var n := 1 + Span(rest[1..], IsIdentChar);
    var w := Matchers[j].word;
    assert w in KeywordWords;
    if |w| <= |rest| && rest[..|w|] == w {
      IdentifierCoversWord(rest, w);
      assert n != |w|;
    }
  }

  /** An identifier that starts with a keyword's letters runs at least as far. */
  lemma IdentifierCoversWord(rest: string, w: string)
    requires IsKeywordWord(w) && |w| <= |rest| && rest[..|w|] == w
    ensures |w| <= 1 + Span(rest[1..], IsIdentChar)
  {
    forall i | 0 <= i < |w| - 1
      ensures IsIdentChar(rest[1..][i])
    {
      assert rest[1..][i] == rest[..|w|][i + 1] == w[i + 1];
    }
  }

  /** Whether matcher `m` can match a text that starts with `c`. */
  predicate CanStart(m: Matcher, c: char) {
    match m
    case KeywordMatcher(w, _) => |w| > 0 && w[0] == c
    case CharMatcher(ch, _) => ch == c
    case IdentifierMatcher => IsIdentStart(c)
    case NumberMatcher => IsNonZeroDigit(c)
    case StringMatcher => c == '"'
    case BlanksMatcher => IsBlank(c)
    case NewlineMatcher => c == '\n' || c == '\r'
  }

  lemma SilentUnlessStarts(m: Matcher, rest: string, pos: TextPosition)
    requires |rest| > 0 && !CanStart(m, rest[0])
    ensures TryMatch(m, rest, pos).NoMatch?
  {
    if m.KeywordMatcher? && |m.word| > 0 && |m.word| <= |rest| {
      assert rest[..|m.word|][0] == rest[0];
    }
  }

  /** When only matcher `k` can start at the head of `rest`, its match is the token. */
  lemma SoleCandidate(rest: string, pos: TextPosition, k: nat)
    requires |rest| > 0 && k < |Matchers|
    requires OnlyStarter(k, rest[0])
    requires TryMatch(Matchers[k], rest, pos).Matched?
    ensures Step(rest, pos) == Ok(TryMatch(Matchers[k], rest, pos).result)
  {
    var os := Outcomes(Matchers, rest, pos);
    forall j | 0 <= j < |os| && j != k
      ensures os[j].NoMatch?
    {
      SilentUnlessStarts(Matchers[j], rest, pos);
    }
    var c := Chosen(os);
    assert IsEarliestLongest(os, k);
    EarliestLongestUnique(os, c.value, k);
  }

  /** A run of blanks is one whitespace token on the same row. */
  lemma BlanksLex(rest: string, pos: TextPosition)
    requires |rest| > 0 && IsBlank(rest[0])
    ensures var n := Span(rest, IsBlank);
            Step(rest, pos) == Ok(OneLineMatch(Whitespace, rest[..n], pos))
  {
    BlanksOnlyStarter(rest[0]);
    BlanksMatch(rest, pos);
    SoleCandidate(rest, pos, BlanksIndex);
  }

  lemma BlanksOnlyStarter(c: char)
    requires IsBlank(c)
    ensures OnlyStarter(BlanksIndex, c)
  {
    forall j | 0 <= j < |Matchers| && j != BlanksIndex
      ensures !CanStart(Matchers[j], c)
    {
      StartsAt(j, c);
    }
  }

  lemma BlanksMatch(rest: string, pos: TextPosition)
    requires |rest| > 0 && IsBlank(rest[0])
    ensures BlanksIndex < |Matchers|
    ensures TryMatch(Matchers[BlanksIndex], rest, pos) == Matched(OneLineMatch(Whitespace, rest[..Span(rest, IsBlank)], pos))
  {
    MatcherAt(BlanksIndex);
  }

  /** A line break (`\n` or `\r\n`) is a whitespace token that moves to column 1 of the next row. */
  lemma NewlineLex(rest: string, pos: TextPosition)
    requires (|rest| > 0 && rest[0] == '\n') || (|rest| > 1 && rest[0] == '\r' && rest[1] == '\n')
    ensures var n := if rest[0] == '\n' then 1 else 2;
            Step(rest, pos) == Ok(MatchResult(rest[..n], Token(Whitespace, pos, TextPosition(pos.row + 1, 1))))
  {
    MatcherAt(NewlineIndex);
    forall j | 0 <= j < |Matchers| && j != NewlineIndex
      ensures !CanStart(Matchers[j], rest[0])
    {
      StartsAt(j, rest[0]);
    }
    SoleCandidate(rest, pos, NewlineIndex);
  }

  /** A text starts no token: no matcher can begin with its first character. */
  predicate StartsNoToken(rest: string) {
    |rest| > 0 &&
    var c := rest[0];
    !IsIdentStart(c) && !IsNonZeroDigit(c) && !IsBlank(c) && c != '"'
    && c != ',' && c != '=' && c != '(' && c != ')' && c != '\n'
    && !(c == '\r' && |rest| > 1 && rest[1] == '\n')
  }

  /** Lexing stops with "Syntax error" exactly where no token can start; a leading zero,
      a lone carriage return or a `#` are such places. */
  lemma SyntaxErrorIffNoTokenStarts(rest: string, pos: TextPosition)
    requires |rest| > 0
    ensures Step(rest, pos) == Err(ParseError(LexSyntaxError(pos.row, pos.col))) <==> StartsNoToken(rest)
  {
    var os := Outcomes(Matchers, rest, pos);
    if StartsNoToken(rest) {
      AllSilent(rest, pos);
      assert FirstFailure(os).None? && Chosen(os).None?;
    } else {
      var j := OneSpeaks(rest, pos);
      var f := FirstFailure(os);
      if f.Some? {
        var i :| 0 <= i < |os| && os[i] == Failed(f.value);
        assert os[i] == TryMatch(Matchers[i], rest, pos);
      } else {
        assert os[j].Matched?;
      }
    }
  }

  lemma AllSilent(rest: string, pos: TextPosition)
    requires StartsNoToken(rest)
    ensures var os := Outcomes(Matchers, rest, pos);
            forall j :: 0 <= j < |os| ==> os[j].NoMatch?
  {
    var os := Outcomes(Matchers, rest, pos);
    forall j | 0 <= j < |os|
      ensures os[j].NoMatch?
    {
      StartsAt(j, rest[0]);
      if j != NewlineIndex {
        SilentUnlessStarts(Matchers[j], rest, pos);
      } else {
        MatcherAt(j);
      }
    }
  }

  /** Where a token can start, some matcher does not stay silent. */
  lemma OneSpeaks(rest: string, pos: TextPosition) returns (j: nat)
    requires |rest| > 0 && !StartsNoToken(rest)
    ensures var os := Outcomes(Matchers, rest, pos);
            j < |os| && !os[j].NoMatch?
  {
    var c := rest[0];
    if IsIdentStart(c) {
      j := IdentifierIndex;
    } else if IsNonZeroDigit(c) {
      j := NumberIndex;
    } else if IsBlank(c) {
      j := BlanksIndex;
    } else if c == '"' {
      j := StringIndex;
    } else if c == ',' {
      j := 16;
    } else if c == '=' {
      j := 17;
    } else if c == '(' {
      j := 19;
    } else if c == ')' {
      j := 21;
    } else {
      j := NewlineIndex;
    }
    OtherMatcherAt(j);
  }

  // ----- string literals -----

  /** How a script writes the string `s` between quotes: every `"` and `\` gets a
      backslash in front. */
  function Escaped(s: string): (e: string)
    ensures |e| >= |s|
  {
    if s == [] then [] else EscapedChar(s[0]) + Escaped(s[1..])
  }

  lemma ScanEscaped(pre: string, s: string, r: string)
    requires |pre| > 0
    ensures ScanFrom(pre + Escaped(s) + "\"" + r, |pre|, false) == Some(|pre| + |Escaped(s)| + 1)
  {
    var t := pre + Escaped(s) + "\"" + r;
    assert WrittenAt(t, |pre|, Escaped(s));
    ScanEscapedAt(t, |pre|, s);
  }

  /** How `Escaped` writes one character. */
  function EscapedChar(c: char): string {
    if c == '"' || c == '\\' then ['\\', c] else [c]
  }

  /** The text `w` stands in `t` from index `i` on. */
  predicate WrittenAt(t: string, i: nat, w: string) {
    i + |w| <= |t| && forall k :: 0 <= k < |w| ==> t[i + k] == w[k]
  }

  /** The scan for the closing quote skips an escaped text written at `i` of `t`. */
  lemma {:induction false} ScanEscapedAt(t: string, i: nat, s: string)
    requires WrittenAt(t, i, Escaped(s)) && i + |Escaped(s)| < |t| && t[i + |Escaped(s)|] == '"'
    ensures ScanFrom(t, i, false) == Some(i + |Escaped(s)| + 1)
    decreases |s|
  {
    if s == [] {
      ScanQuote(t, i);
    } else {
      var a := EscapedChar(s[0]);
      var b := Escaped(s[1..]);
      EscapedCons(s);
      WrittenAtSplit(t, i, a, b);
      ScanEscapedAt(t, i + |a|, s[1..]);
      ScanEscapedCharAt(t, i, s[0]);
    }
  }

  lemma EscapedCons(s: string)
    requires s != []
    ensures Escaped(s) == EscapedChar(s[0]) + Escaped(s[1..])
  {
  }

  lemma WrittenAtSplit(t: string, i: nat, a: string, b: string)
    requires |a| > 0 && WrittenAt(t, i, a + b)
    ensures t[i] == a[0] && WrittenAt(t, i + |a|, b)
  {
    assert t[i + 0] == (a + b)[0];
    forall k | 0 <= k < |b|
      ensures t[i + |a| + k] == b[k]
    {
      assert t[i + (|a| + k)] == (a + b)[|a| + k];
    }
  }

  /** One escaped character at `i` is skipped by the scan. */
  lemma ScanEscapedCharAt(t: string, i: nat, c: char)
    requires i + |EscapedChar(c)| < |t| && t[i] == EscapedChar(c)[0]
    ensures ScanFrom(t, i, false) == ScanFrom(t, i + |EscapedChar(c)|, false)
  {
    if c == '"' || c == '\\' {
      assert ScanFrom(t, i, false) == ScanFrom(t, i + 1, true);
    }
  }

  lemma ScanQuote(t: string, i: nat)
    requires i < |t| && t[i] == '"'
    ensures ScanFrom(t, i, false) == Some(i + 1)
  {
  }

  /** A quoted, escaped string lexes as one String token that keeps the escapes and ends
      where the closing quote does, on whatever row that is. */
  lemma StringLiteralLexes(s: string, r: string, pos: TextPosition)
    ensures var lit := "\"" + Escaped(s) + "\"";
            Step(lit + r, pos) == Ok(MatchResult(lit, Token(String(Escaped(s)), pos, PositionAfter(pos, lit))))
  {
    var lit := "\"" + Escaped(s) + "\"";
    var rest := lit + r;
    StringLiteralMatch(s, r, pos);
    MatcherAt(StringIndex);
    QuoteOnlyStarter();
    assert rest[0] == '"';
    SoleCandidate(rest, pos, StringIndex);
  }

  /** The string matcher reads a whole literal written by `Escaped`. */
  lemma StringLiteralMatch(s: string, r: string, pos: TextPosition)
    ensures var lit := "\"" + Escaped(s) + "\"";
            TryMatch(StringMatcher, lit + r, pos)
            == Matched(MatchResult(lit, Token(String(Escaped(s)), pos, PositionAfter(pos, lit))))
  {
    var lit := "\"" + Escaped(s) + "\"";
    var rest := lit + r;
    ScanEscaped("\"", s, r);
    assert "\"" + Escaped(s) + "\"" + r == rest;
    var n := |lit|;
    assert rest[..n] == lit;
    assert rest[1..n - 1] == Escaped(s);
  }

  /** Only the string matcher can start at a double quote. */
  lemma QuoteOnlyStarter()
    ensures StringIndex < |Matchers| && OnlyStarter(StringIndex, '"')
  {
    MatcherAt(StringIndex);
    forall j | 0 <= j < |Matchers| && j != StringIndex
      ensures !CanStart(Matchers[j], '"')
    {
      StartsAt(j, '"');
    }
  }

  /** A string literal without its closing quote stops lexing; the column reported is the
      starting column plus the number of characters left in the text. */
  lemma UnterminatedString(rest: string, pos: TextPosition)
    requires |rest| > 0 && rest[0] == '"' && ScanFrom(rest, 1, false).None?
    ensures Step(rest, pos) == Err(ParseError(Unterminated("String", pos.row, pos.col + |rest|)))
  {
    MatcherAt(StringIndex);
    var os := Outcomes(Matchers, rest, pos);
    forall j | 0 <= j < StringIndex
      ensures !os[..StringIndex][j].Failed?
    {
      MatcherAt(j);
      assert os[..StringIndex][j] == os[j] == TryMatch(Matchers[j], rest, pos);
    }
    TryUnterminated(rest, pos);
    assert os[StringIndex] == TryMatch(StringMatcher, rest, pos);
    FailureInPrefix(os, StringIndex + 1);
  }

  lemma TryUnterminated(rest: string, pos: TextPosition)
    requires |rest| > 0 && rest[0] == '"' && ScanFrom(rest, 1, false).None?
    ensures TryMatch(StringMatcher, rest, pos) == Failed(ParseError(Unterminated("String", pos.row, pos.col + |rest|)))
  {
  }
}
