// The ScrapeLang lexer (src/scrapelang/lexer.rs): at every position each of 25 matchers,
// in a fixed order, tries to recognise a token; the first matcher that reports an error
// stops lexing, otherwise the longest match wins and, among equally long ones, the
// earliest matcher (keywords come first).

module Lexer {
  import opened Wrappers
  import opened Errors

  datatype TextPosition = TextPosition(row: nat, col: nat)

  const Start := TextPosition(1, 1)

  datatype TokenKind =
    | Append | Clear | ClearHeaders | Comma | Delete | Discard | Drop | Effect | Equals
    | Extract | First | Get | Header | Identifier(name: string) | LeftParenthesis | Load
    | Number(value: string) | Prepend | Retain | RightParenthesis | Run | Store
    | String(str: string) | Whitespace

  /** `ScrapeLangToken::name`. */
  function KindName(k: TokenKind): string {
    match k
    case Append => "Append"
    case Clear => "Clear"
    case ClearHeaders => "ClearHeaders"
    case Comma => "Comma"
    case Delete => "Delete"
    case Discard => "Discard"
    case Drop => "Drop"
    case Effect => "Effect"
    case Equals => "Equals"
    case Extract => "Extract"
    case First => "First"
    case Get => "Get"
    case Header => "Header"
    case Identifier(_) => "Identifier"
    case LeftParenthesis => "LeftParenthesis"
    case Load => "Load"
    case Number(_) => "Number"
    case Prepend => "Prepend"
    case Retain => "Retain"
    case RightParenthesis => "RightParenthesis"
    case Run => "Run"
    case Store => "Store"
    case String(_) => "String"
    case Whitespace => "Whitespace"
  }

  datatype Token = Token(kind: TokenKind, pos: TextPosition, posAfter: TextPosition) {
    function Name(): string { KindName(kind) }
  }

  /** One step of `text_position_after`: a line feed starts the next row at column 1. */
  function Advance(p: TextPosition, c: char): TextPosition {
    if c == '\n' then TextPosition(p.row + 1, 1) else TextPosition(p.row, p.col + 1)
  }

  /** The position reached after reading `t` from `p`. */
  function PositionAfter(p: TextPosition, t: string): TextPosition {
    if t == [] then p else Advance(PositionAfter(p, t[..|t| - 1]), t[|t| - 1])
  }

  /** `text_position_after`, the character loop. */
  method TextPositionAfter(start: TextPosition, text: string) returns (r: TextPosition)
    ensures r == PositionAfter(start, text)
  {
    r := start;
    var i := 0;
    while i < |text|
      invariant 0 <= i <= |text|
      invariant r == PositionAfter(start, text[..i])
    {
      assert text[..i + 1][..i] == text[..i];
      if text[i] == '\n' {
        r := TextPosition(r.row + 1, 1);
      } else {
        r := TextPosition(r.row, r.col + 1);
      }
      i := i + 1;
    }
    assert text[..i] == text;
  }

  /** A line break, `\n` or `\r\n`, moves to the first column of the next row. */
  lemma PositionAfterLineBreak(p: TextPosition, t: string)
    requires t == "\n" || t == "\r\n"
    ensures PositionAfter(p, t) == TextPosition(p.row + 1, 1)
  {
    if t == "\r\n" {
      assert t[..1] == "\r" && t[..1][..0] == [];
      assert PositionAfter(p, t[..1]) == TextPosition(p.row, p.col + 1);
    } else {
      assert t[..0] == [];
    }
  }

  predicate NoNewline(t: string) {
    forall i :: 0 <= i < |t| ==> t[i] != '\n'
  }

  /** On one line the position only moves right, one column per character. */
  lemma {:induction false} PositionAfterOneLine(p: TextPosition, t: string)
    requires NoNewline(t)
    ensures PositionAfter(p, t) == TextPosition(p.row, p.col + |t|)
  {
    if t != [] {
      PositionAfterOneLine(p, t[..|t| - 1]);
    }
  }

  // ----- character classes of the token regexes -----

  predicate IsLetter(c: char) { 'A' <= c <= 'Z' || 'a' <= c <= 'z' }
  predicate IsDigit(c: char) { '0' <= c <= '9' }
  predicate IsNonZeroDigit(c: char) { '1' <= c <= '9' }
  /** `[A-Za-z_$.-]` */
  predicate IsIdentStart(c: char) { IsLetter(c) || c == '_' || c == '$' || c == '.' || c == '-' }
  /** `[A-Za-z0-9_$.-]` */
  predicate IsIdentChar(c: char) { IsIdentStart(c) || IsDigit(c) }
  /** `[ \t]` */
  predicate IsBlank(c: char) { c == ' ' || c == '\t' }

  /** The length of the longest prefix of `s` whose characters all satisfy `p`. */
  function Span(s: string, p: char -> bool): (n: nat)
    ensures n <= |s|
    ensures forall i :: 0 <= i < n ==> p(s[i])
    ensures n < |s| ==> !p(s[n])
  {
    if s == [] || !p(s[0]) then 0 else 1 + Span(s[1..], p)
  }

  // ----- matchers -----

  datatype MatchResult = MatchResult(matched: string, token: Token)

  datatype MatchOutcome = NoMatch | Matched(result: MatchResult) | Failed(error: Error)

  datatype Matcher =
    | KeywordMatcher(word: string, kind: TokenKind)   // ^word
    | CharMatcher(ch: char, kind: TokenKind)           // ^, ^= ^\( ^\)
    | IdentifierMatcher                                // ^[A-Za-z_$.-][A-Za-z0-9_$.-]*
    | NumberMatcher                                    // ^[1-9][0-9]*
    | StringMatcher                                    // "..." with backslash escapes
    | BlanksMatcher                                    // ^[ \t]+
    | NewlineMatcher                                   // ^\r?\n

  /** The matchers in the order of the source; ties in length go to the earlier one. */
  const Matchers: seq<Matcher> := [
    KeywordMatcher("append", Append),
    KeywordMatcher("clear", Clear),
    KeywordMatcher("clearheaders", ClearHeaders),
    KeywordMatcher("delete", Delete),
    KeywordMatcher("discard", Discard),
    KeywordMatcher("drop", Drop),
    KeywordMatcher("effect", Effect),
    KeywordMatcher("extract", Extract),
    KeywordMatcher("first", First),
    KeywordMatcher("get", Get),
    KeywordMatcher("header", Header),
    KeywordMatcher("load", Load),
    KeywordMatcher("prepend", Prepend),
    KeywordMatcher("retain", Retain),
    KeywordMatcher("run", Run),
    KeywordMatcher("store", Store),
    CharMatcher(',', Comma),
    CharMatcher('=', Equals),
    IdentifierMatcher,
    CharMatcher('(', LeftParenthesis),
    NumberMatcher,
    CharMatcher(')', RightParenthesis),
    StringMatcher,
    BlanksMatcher,
    NewlineMatcher
  ]

  const KeywordCount := 16
  const IdentifierIndex := 18
  const NumberIndex := 20
  const StringIndex := 22
  const BlanksIndex := 23
  const NewlineIndex := 24

  /** A match of `m` at the head of `rest`, found at `pos`. */
  predicate IsMatchAt(m: MatchResult, rest: string, pos: TextPosition) {
    0 < |m.matched| <= |rest| && rest[..|m.matched|] == m.matched
    && m.token.pos == pos && m.token.posAfter == PositionAfter(pos, m.matched)
  }

  /** The token of a match on one line (`simple_matcher!`): the column moves by the
      number of characters matched. */
  function OneLineMatch(kind: TokenKind, matched: string, pos: TextPosition): MatchResult {
    MatchResult(matched, Token(kind, pos, TextPosition(pos.row, pos.col + |matched|)))
  }

  /**
   * Scan of a string literal whose opening quote is `rest[0]`: from index `i` with the
   * `escaped` flag, the number of characters up to and including the closing quote, or
   * None when the text ends first. A character after a backslash is never a close.
   */
  function ScanFrom(rest: string, i: nat, escaped: bool): (r: Option<nat>)
    decreases |rest| - i
    ensures r.Some? ==> i < r.value <= |rest| && rest[r.value - 1] == '"'
  {
    if i >= |rest| then None
    else if escaped then ScanFrom(rest, i + 1, false)
    else if rest[i] == '"' then Some(i + 1)
    else ScanFrom(rest, i + 1, rest[i] == '\\')
  }

  /** `try_match` of one matcher on the head of `rest`. */
  function TryMatch(m: Matcher, rest: string, pos: TextPosition): (o: MatchOutcome)
    ensures o.Matched? ==> IsMatchAt(o.result, rest, pos)
    ensures o.Failed? ==> m.StringMatcher? && o.error.ParseError? && o.error.msg.Unterminated?
  {
    match m
    case KeywordMatcher(w, kind) =>
      if |w| > 0 && |w| <= |rest| && rest[..|w|] == w && NoNewline(w) then
        PositionAfterOneLine(pos, w);
        Matched(OneLineMatch(kind, w, pos))
      else NoMatch
    case CharMatcher(ch, kind) =>
      if |rest| > 0 && rest[0] == ch && ch != '\n' then
        PositionAfterOneLine(pos, rest[..1]);
        Matched(OneLineMatch(kind, rest[..1], pos))
      else NoMatch
    case IdentifierMatcher =>
      if |rest| > 0 && IsIdentStart(rest[0]) then
        var n := 1 + Span(rest[1..], IsIdentChar);
        PositionAfterOneLine(pos, rest[..n]);
        Matched(OneLineMatch(Identifier(rest[..n]), rest[..n], pos))
      else NoMatch
    case NumberMatcher =>
      if |rest| > 0 && IsNonZeroDigit(rest[0]) then
        var n := 1 + Span(rest[1..], IsDigit);
        PositionAfterOneLine(pos, rest[..n]);
        Matched(OneLineMatch(Number(rest[..n]), rest[..n], pos))
      else NoMatch
    case StringMatcher =>
      if |rest| > 0 && rest[0] == '"' then
        match ScanFrom(rest, 1, false)
        case None => Failed(ParseError(Unterminated("String", pos.row, pos.col + |rest|)))
        case Some(n) =>
          Matched(MatchResult(rest[..n], Token(String(rest[1..n - 1]), pos, PositionAfter(pos, rest[..n]))))
      else NoMatch
    case BlanksMatcher =>
      var n := Span(rest, IsBlank);
      if n > 0 then
        PositionAfterOneLine(pos, rest[..n]);
        Matched(OneLineMatch(Whitespace, rest[..n], pos))
      else NoMatch
    case NewlineMatcher =>
      var n := if |rest| > 0 && rest[0] == '\n' then 1
               else if |rest| > 1 && rest[0] == '\r' && rest[1] == '\n' then 2
               else 0;
      if n > 0 then
        PositionAfterLineBreak(pos, rest[..n]);
        Matched(MatchResult(rest[..n], Token(Whitespace, pos, TextPosition(pos.row + 1, 1))))
      else NoMatch
  }

  /** `CharDelimitedRangeMatcher::try_match` for string literals, the character loop. */
  method TryMatchString(rest: string, pos: TextPosition) returns (o: MatchOutcome)
    ensures o == TryMatch(StringMatcher, rest, pos)
  {
    if !(|rest| > 0 && rest[0] == '"') {
      return NoMatch;
    }
    var done := false;
    var escaped := false;
    var numChars: nat := 1;
    var i := 1;
    ghost var scan := ScanFrom(rest, 1, false);
    while i < |rest|
      invariant 1 <= i <= |rest|
      invariant !done ==> numChars == i && scan == ScanFrom(rest, i, escaped)
      invariant done ==> scan == Some(numChars)
    {
      if escaped {
        escaped := false;
      } else if rest[i] == '"' {
        done := true;
        numChars := numChars + 1;
        break;
      } else if rest[i] == '\\' {
        escaped := true;
      }
      numChars := numChars + 1;
      i := i + 1;
    }
    if !done {
      return Failed(ParseError(Unterminated("String", pos.row, pos.col + numChars)));
    }
    var after := TextPositionAfter(pos, rest[..numChars]);
    o := Matched(MatchResult(rest[..numChars], Token(String(rest[1..numChars - 1]), pos, after)));
  }

  method TryMatchAt(m: Matcher, rest: string, pos: TextPosition) returns (o: MatchOutcome)
    ensures o == TryMatch(m, rest, pos)
  {
    if m.StringMatcher? {
      o := TryMatchString(rest, pos);
    } else {
      o := TryMatch(m, rest, pos);
    }
  }

  /** What each matcher of `ms` reports at the head of `rest`. */
  function Outcomes(ms: seq<Matcher>, rest: string, pos: TextPosition): (os: seq<MatchOutcome>)
    ensures |os| == |ms|
  {
    seq(|ms|, i requires 0 <= i < |ms| => TryMatch(ms[i], rest, pos))
  }

  /** The first error among the outcomes (`collect::<Result<Vec<_>, _>>()?`). */
  function FirstFailure(os: seq<MatchOutcome>): (r: Option<Error>)
    ensures r.None? <==> forall i :: 0 <= i < |os| ==> !os[i].Failed?
    ensures r.Some? ==> exists i :: 0 <= i < |os| && os[i] == Failed(r.value)
                                    && forall j :: 0 <= j < i ==> !os[j].Failed?
  {
    if os == [] then None
    else if os[0].Failed? then Some(os[0].error)
    else
      var r := FirstFailure(os[1..]);
      if r.Some? then
        var i :| 0 <= i < |os[1..]| && os[1..][i] == Failed(r.value)
                 && forall j :: 0 <= j < i ==> !os[1..][j].Failed?;
        assert os[i + 1] == Failed(r.value);
        r
      else r
  }

  /** Outcome `k` is a match, no match is longer, and every earlier match is shorter. */
  predicate IsEarliestLongest(os: seq<MatchOutcome>, k: nat) {
    k < |os| && os[k].Matched?
    && (forall j :: 0 <= j < |os| && os[j].Matched? ==>
          |os[j].result.matched| <= |os[k].result.matched|)
    && (forall j :: 0 <= j < k && os[j].Matched? ==>
          |os[j].result.matched| < |os[k].result.matched|)
  }

  /**
   * The match that the stable sort by decreasing length puts first: the earliest of
   * the longest matches, or None when nothing matched.
   */
  function Chosen(os: seq<MatchOutcome>): (k: Option<nat>)
    ensures k.None? <==> forall i :: 0 <= i < |os| ==> !os[i].Matched?
    ensures k.Some? ==> IsEarliestLongest(os, k.value)
  {
    if os == [] then None
    else
      var init := os[..|os| - 1];
      var k := Chosen(init);
      var last := os[|os| - 1];
      assert forall i :: 0 <= i < |init| ==> init[i] == os[i];
      if last.Matched? && (k.None? || |os[k.value].result.matched| < |last.result.matched|)
      then Some(|os| - 1)
      else k
  }

  /** Only one outcome can be the earliest of the longest. */
  lemma EarliestLongestUnique(os: seq<MatchOutcome>, a: nat, b: nat)
    requires IsEarliestLongest(os, a) && IsEarliestLongest(os, b)
    ensures a == b
  {
  }

  /** The match the matchers `ms` agree on at the head of `rest`: the first error, a
      syntax error when nothing matches, else the earliest longest match. */
  function Select(ms: seq<Matcher>, rest: string, pos: TextPosition): (r: Result<MatchResult>)
    ensures r.Ok? ==> IsMatchAt(r.value, rest, pos)
  {
    var os := Outcomes(ms, rest, pos);
    match FirstFailure(os)
    case Some(e) => Err(e)
    case None =>
      match Chosen(os)
      case None => Err(ParseError(LexSyntaxError(pos.row, pos.col)))
      case Some(k) => Ok(os[k].result)
  }

  /** One iteration of the lexing loop: the token that starts `rest`. */
  function Step(rest: string, pos: TextPosition): (r: Result<MatchResult>)
    ensures r.Ok? ==> IsMatchAt(r.value, rest, pos)
  {
    Select(Matchers, rest, pos)
  }

  /** The matches the lexer produces from `rest` on, in order. */
  function LexFrom(rest: string, pos: TextPosition): Result<seq<MatchResult>>
    decreases |rest|
  {
    if rest == [] then Ok([])
    else
      match Step(rest, pos)
      case Err(e) => Err(e)
      case Ok(m) =>
        match LexFrom(rest[|m.matched|..], m.token.posAfter)
        case Err(e) => Err(e)
        case Ok(ms) => Ok([m] + ms)
  }

  function TokensOf(ms: seq<MatchResult>): (ts: seq<Token>)
    ensures |ts| == |ms| && forall i :: 0 <= i < |ms| ==> ts[i] == ms[i].token
  {
    seq(|ms|, i requires 0 <= i < |ms| => ms[i].token)
  }

  /** The tokens of `text`, or the error that stops lexing it. */
  function Lexed(text: string): Result<seq<Token>> {
    match LexFrom(text, Start)
    case Err(e) => Err(e)
    case Ok(ms) => Ok(TokensOf(ms))
  }

  /** One iteration of the lexing loop: run every matcher, stop at the first error,
      keep the earliest longest match. */
  method SelectMatch(ms: seq<Matcher>, rest: string, pos: TextPosition) returns (r: Result<MatchResult>)
    ensures r == Select(ms, rest, pos)
  {
    ghost var os := Outcomes(ms, rest, pos);
    var best: Option<nat> := None;
    var bestMatch := MatchResult([], Token(Whitespace, pos, pos));
    var i := 0;
    while i < |ms|
      invariant 0 <= i <= |ms|
      invariant FirstFailure(os[..i]).None?
      invariant best == Chosen(os[..i])
      invariant best.Some? ==> bestMatch == os[best.value].result
    {
      var o := TryMatchAt(ms[i], rest, pos);
      assert o == os[i];
      if o.Failed? {
        FailureInPrefix(os, i + 1);
        return Err(o.error);
      }
      ChosenExtend(os, i);
      NoFailureExtend(os, i);
      if o.Matched? && (best.None? || |bestMatch.matched| < |o.result.matched|) {
        best := Some(i);
        bestMatch := o.result;
      }
      i := i + 1;
    }
    assert os[..i] == os;
    if best.None? {
      return Err(ParseError(LexSyntaxError(pos.row, pos.col)));
    }
    r := Ok(bestMatch);
  }

  lemma FailureInPrefix(os: seq<MatchOutcome>, n: nat)
    requires 0 < n <= |os| && FirstFailure(os[..n - 1]).None? && os[n - 1].Failed?
    ensures FirstFailure(os) == Some(os[n - 1].error)
  {
    assert forall j :: 0 <= j < n - 1 ==> os[..n - 1][j] == os[j];
  }

  lemma NoFailureExtend(os: seq<MatchOutcome>, i: nat)
    requires i < |os| && FirstFailure(os[..i]).None? && !os[i].Failed?
    ensures FirstFailure(os[..i + 1]).None?
  {
    assert forall j :: 0 <= j < i ==> os[..i + 1][j] == os[..i][j];
  }

  lemma ChosenExtend(os: seq<MatchOutcome>, i: nat)
    requires i < |os|
    ensures var k := Chosen(os[..i]);
            Chosen(os[..i + 1]) ==
              if os[i].Matched? && (k.None? || |os[k.value].result.matched| < |os[i].result.matched|)
              then Some(i) else k
  {
    assert os[..i + 1][..i] == os[..i];
  }

  lemma LexFromStep(rest: string, pos: TextPosition)
    requires rest != [] && Step(rest, pos).Ok?
    ensures var m := Step(rest, pos).value;
            LexFrom(rest, pos) == Prefixed([m], LexFrom(rest[|m.matched|..], m.token.posAfter))
  {
  }

  /** `lex`: the main loop, one token per iteration. */
  method Lex(text: string) returns (r: Result<seq<Token>>)
    ensures r == Lexed(text)
  {
    var result: seq<Token> := [];
    var rest := text;
    var pos := Start;
    ghost var done: seq<MatchResult> := [];
    PrefixedEmpty(LexFrom(text, Start));
    while rest != []
      invariant result == TokensOf(done)
      invariant LexFrom(text, Start) == Prefixed(done, LexFrom(rest, pos))
      decreases |rest|
    {
      var m := SelectMatch(Matchers, rest, pos);
      if m.Err? {
        return Err(m.error);
      }
      var matched := m.value;
      LexFromStep(rest, pos);
      PrefixedAppend(done, matched, LexFrom(rest[|matched.matched|..], matched.token.posAfter));
      rest := rest[|matched.matched|..];
      pos := matched.token.posAfter;
      result := result + [matched.token];
      done := done + [matched];
    }
    assert done + [] == done;
    r := Ok(result);
  }

  lemma PrefixedEmpty(r: Result<seq<MatchResult>>)
    ensures Prefixed([], r) == r
  {
    if r.Ok? {
      assert [] + r.value == r.value;
    }
  }

  lemma PrefixedAppend(done: seq<MatchResult>, m: MatchResult, r: Result<seq<MatchResult>>)
    ensures Prefixed(done, Prefixed([m], r)) == Prefixed(done + [m], r)
  {
    if r.Ok? {
      assert done + ([m] + r.value) == (done + [m]) + r.value;
    }
  }

  function Prefixed(done: seq<MatchResult>, r: Result<seq<MatchResult>>): Result<seq<MatchResult>> {
    match r
    case Err(e) => Err(e)
    case Ok(ms) => Ok(done + ms)
  }
}
