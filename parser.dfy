// The ScrapeLang parser (src/scrapelang/parser.rs): runs of whitespace tokens are
// collapsed, then each statement is read by the fixed-shape routine of its keyword;
// `effect` and `run` take an optional parenthesised argument list.

module Parser {
  import opened Wrappers
  import opened Errors
  import Strings
  import L = Lexer

  // ----- unescape -----

  /** The characters of `s` with each unescaped backslash dropped; `escaped` says that
      the character before `s` was such a backslash. */
  function UnescapeFrom(s: string, escaped: bool): string {
    if s == [] then []
    else if escaped then [s[0]] + UnescapeFrom(s[1..], false)
    else if s[0] == '\\' then UnescapeFrom(s[1..], true)
    else [s[0]] + UnescapeFrom(s[1..], false)
  }

  function Unescaped(s: string): string {
    UnescapeFrom(s, false)
  }

  lemma UnescapeStep(s: string, escaped: bool)
    requires s != []
    ensures UnescapeFrom(s, escaped) ==
            (if escaped || s[0] != '\\' then [s[0]] else []) + UnescapeFrom(s[1..], !escaped && s[0] == '\\')
  {
  }

  /** `unescape`, the character loop with the `escaped` flag. */
  method Unescape(text: string) returns (r: string)
    ensures r == Unescaped(text)
  {
    r := [];
    var escaped := false;
    var i := 0;
    while i < |text|
      invariant 0 <= i <= |text|
      invariant r + UnescapeFrom(text[i..], escaped) == Unescaped(text)
    {
      UnescapeStep(text[i..], escaped);
      assert text[i..][1..] == text[i + 1..];
      ghost var rest := UnescapeFrom(text[i + 1..], false);
      if escaped {
        escaped := false;
        assert (r + [text[i]]) + rest == r + ([text[i]] + rest);
        r := r + [text[i]];
      } else if text[i] == '\\' {
        escaped := true;
      } else {
        assert (r + [text[i]]) + rest == r + ([text[i]] + rest);
        r := r + [text[i]];
      }
      i := i + 1;
    }
  }

  // ----- instructions -----

  datatype Argument = Str(str: string) | Ident(name: string)

  /** One keyword argument; a call keeps them in first-insertion order with distinct keys. */
  datatype KwArg = KwArg(key: string, value: Argument)

  datatype Instruction =
    | Append(str: string)
    | Clear
    | ClearHeaders
    | Delete(regex: string)
    | Discard(regex: string)
    | Drop(count: nat)
    | Effect(effectName: string, args: seq<Argument>, kwargs: seq<KwArg>)
    | Extract(regex: string)
    | First
    | Get(url: string)
    | Header(key: string, value: string)
    | Load(varname: string)
    | Prepend(str: string)
    | Retain(regex: string)
    | Run(jobName: string, args: seq<Argument>, kwargs: seq<KwArg>)
    | Store(varname: string)

  /** The keyword arguments as the map the source builds. */
  function KwMap(kws: seq<KwArg>): map<string, Argument> {
    if kws == [] then map[] else KwMap(kws[1..])[kws[0].key := kws[0].value]
  }

  predicate UniqueKeys(kws: seq<KwArg>) {
    forall i, j :: 0 <= i < j < |kws| ==> kws[i].key != kws[j].key
  }

  /** `HashMap::insert`: a new key goes last, an existing key keeps its place and takes
      the new value. */
  function Insert(kws: seq<KwArg>, key: string, value: Argument): (r: seq<KwArg>)
    ensures KwMap(r) == KwMap(kws)[key := value]
    ensures |kws| <= |r| <= |kws| + 1
    ensures forall i :: 0 <= i < |kws| ==> r[i].key == kws[i].key
    ensures |r| == |kws| <==> key in KwMap(kws)
    ensures |r| == |kws| + 1 ==> r[|kws|] == KwArg(key, value)
    ensures UniqueKeys(kws) ==> UniqueKeys(r)
  {
    if kws == [] then [KwArg(key, value)]
    else if kws[0].key == key then
      InsertHere(kws, key, value);
      [KwArg(key, value)] + kws[1..]
    else
      var tail := Insert(kws[1..], key, value);
      InsertLater(kws, key, value, tail);
      [kws[0]] + tail
  }

  /** What `Insert` promises of `r`. */
  predicate Inserted(kws: seq<KwArg>, key: string, value: Argument, r: seq<KwArg>) {
    && KwMap(r) == KwMap(kws)[key := value]
    && |kws| <= |r| <= |kws| + 1
    && (forall i :: 0 <= i < |kws| ==> r[i].key == kws[i].key)
    && (|r| == |kws| <==> key in KwMap(kws))
    && (|r| == |kws| + 1 ==> r[|kws|] == KwArg(key, value))
    && (UniqueKeys(kws) ==> UniqueKeys(r))
  }

  lemma InsertHere(kws: seq<KwArg>, key: string, value: Argument)
    requires kws != [] && kws[0].key == key
    ensures Inserted(kws, key, value, [KwArg(key, value)] + kws[1..])
  {
    var r := [KwArg(key, value)] + kws[1..];
    assert r[1..] == kws[1..];
    assert KwMap(r) == KwMap(kws[1..])[key := value];
    if UniqueKeys(kws) {
      forall i, j | 0 <= i < j < |r| ensures r[i].key != r[j].key {
        assert r[i].key == kws[i].key && r[j].key == kws[j].key;
      }
    }
  }

  lemma InsertLater(kws: seq<KwArg>, key: string, value: Argument, tail: seq<KwArg>)
    requires kws != [] && kws[0].key != key
    requires Inserted(kws[1..], key, value, tail)
    ensures Inserted(kws, key, value, [kws[0]] + tail)
  {
    var r := [kws[0]] + tail;
    assert r[1..] == tail;
    assert KwMap(r) == KwMap(tail)[kws[0].key := kws[0].value];
    assert key in KwMap(kws) <==> key in KwMap(kws[1..]);
    forall i | 0 <= i < |kws| ensures r[i].key == kws[i].key {
      if i > 0 {
        assert r[i] == tail[i - 1] && kws[i] == kws[1..][i - 1];
      }
    }
    if UniqueKeys(kws) {
      assert UniqueKeys(kws[1..]);
      forall i, j | 0 <= i < j < |r| ensures r[i].key != r[j].key {
        if i == 0 {
          assert r[j] == tail[j - 1];
          if j - 1 < |kws| - 1 {
            assert tail[j - 1].key == kws[1..][j - 1].key == kws[j].key;
          } else {
            assert tail[j - 1] == KwArg(key, value);
          }
        } else {
          assert r[i] == tail[i - 1] && r[j] == tail[j - 1];
        }
      }
    }
  }

  // ----- single tokens -----

  /** `tokens.get(i)` */
  function TokenAt(tokens: seq<L.Token>, i: nat): (t: Option<L.Token>)
    ensures t.Some? <==> i < |tokens|
  {
    if i < |tokens| then Some(tokens[i]) else None
  }

  function EofError(pos: L.TextPosition): Error {
    ParseError(UnexpectedEof(pos.row))
  }

  function ExpectedError(expected: string, t: L.Token): Error {
    ParseError(ExpectedButFound(expected, t.Name(), t.pos.row, t.pos.col))
  }

  function UnexpectedError(t: L.Token): Error {
    ParseError(SyntaxErrorUnexpected(t.Name(), t.pos.row, t.pos.col))
  }

  /** `try_parse!`: the statement's own keyword must come first. */
  function Head(tokens: seq<L.Token>, pos: L.TextPosition, kind: L.TokenKind, name: string): (r: Result<L.TextPosition>)
    ensures r.Ok? <==> |tokens| > 0 && tokens[0].kind == kind
  {
    match TokenAt(tokens, 0)
    case Some(t) => if t.kind == kind then Ok(t.posAfter) else Err(ExpectedError(name, t))
    case None => Err(EofError(pos))
  }

  /** `separator`: a whitespace token. */
  function Separator(tok: Option<L.Token>, pos: L.TextPosition): (r: Result<L.TextPosition>)
    ensures r.Ok? <==> tok.Some? && tok.value.kind.Whitespace?
  {
    match tok
    case Some(t) => if t.kind.Whitespace? then Ok(t.posAfter) else Err(UnexpectedError(t))
    case None => Err(EofError(pos))
  }

  /** `statement_terminator`: the end of the tokens or a whitespace token. */
  function StatementTerminator(tok: Option<L.Token>): (r: Result<()>)
    ensures r.Ok? <==> tok.None? || tok.value.kind.Whitespace?
  {
    match tok
    case Some(t) => if t.kind.Whitespace? then Ok(()) else Err(UnexpectedError(t))
    case None => Ok(())
  }

  /** `string`: a string token's raw text. */
  function StringToken(tok: Option<L.Token>, pos: L.TextPosition): (r: Result<(string, L.TextPosition)>)
    ensures r.Ok? <==> tok.Some? && tok.value.kind.String?
    ensures r.Ok? ==> r.value.0 == tok.value.kind.str
  {
    match tok
    case Some(t) => if t.kind.String? then Ok((t.kind.str, t.posAfter)) else Err(ExpectedError("String", t))
    case None => Err(EofError(pos))
  }

  const UsizeMax: nat := 0xFFFF_FFFF_FFFF_FFFF

  /** `str::parse::<usize>`: an optional `+`, then decimal digits whose value fits. */
  function ParseUsize(s: string): (r: Result<nat>)
    ensures r.Ok? ==> r.value <= UsizeMax
  {
    var digits := if |s| > 0 && s[0] == '+' then s[1..] else s;
    if digits == [] || !Strings.AllDigits(digits) then Err(ParseIntError)
    else
      var v := Strings.DecimalValue(digits);
      if v > UsizeMax then Err(ParseIntError) else Ok(v)
  }

  /** `number`: a number token's value. */
  function NumberToken(tok: Option<L.Token>, pos: L.TextPosition): (r: Result<(nat, L.TextPosition)>)
    ensures r.Ok? ==> tok.Some? && tok.value.kind.Number? && ParseUsize(tok.value.kind.value) == Ok(r.value.0)
    ensures tok.Some? && tok.value.kind.Number? && ParseUsize(tok.value.kind.value).Ok? ==> r.Ok?
  {
    match tok
    case Some(t) =>
      if t.kind.Number? then
        var n :- ParseUsize(t.kind.value);
        Ok((n, t.posAfter))
      else Err(ExpectedError("Number", t))
    case None => Err(EofError(pos))
  }

  /** `identifier`: an identifier token's name. */
  function IdentifierToken(tok: Option<L.Token>, pos: L.TextPosition): (r: Result<(string, L.TextPosition)>)
    ensures r.Ok? <==> tok.Some? && tok.value.kind.Identifier?
    ensures r.Ok? ==> r.value == (tok.value.kind.name, tok.value.posAfter)
  {
    match tok
    case Some(t) => if t.kind.Identifier? then Ok((t.kind.name, t.posAfter)) else Err(ExpectedError("Identifier", t))
    case None => Err(EofError(pos))
  }

  predicate Terminates(tokens: seq<L.Token>, i: nat) {
    i >= |tokens| || tokens[i].kind.Whitespace?
  }

  // ----- call arguments -----

  datatype CallArgs = CallArgs(args: seq<Argument>, kwargs: seq<KwArg>, numTokens: nat, posAfter: L.TextPosition)

  /** The indices of the tokens from `i` on that are not whitespace, in order. */
  function NonWhitespaceFrom(ts: seq<L.Token>, i: nat): (idx: seq<nat>)
    requires i <= |ts|
    decreases |ts| - i
    ensures forall k :: 0 <= k < |idx| ==> i <= idx[k] < |ts| && !ts[idx[k]].kind.Whitespace?
    ensures forall k, m :: 0 <= k < m < |idx| ==> idx[k] < idx[m]
    ensures forall j :: i <= j < |ts| && !ts[j].kind.Whitespace? ==> j in idx
  {
    if i == |ts| then []
    else if ts[i].kind.Whitespace? then NonWhitespaceFrom(ts, i + 1)
    else [i] + NonWhitespaceFrom(ts, i + 1)
  }

  function Pick(ts: seq<L.Token>, idx: seq<nat>): (fs: seq<L.Token>)
    requires forall k :: 0 <= k < |idx| ==> idx[k] < |ts|
    ensures |fs| == |idx| && forall k :: 0 <= k < |idx| ==> fs[k] == ts[idx[k]]
  {
    seq(|idx|, k requires 0 <= k < |idx| => ts[idx[k]])
  }

  /**
   * The argument loop of `call_args` over the non-whitespace tokens `fs` (whose places
   * in the unfiltered tokens are `idx`), from `fs[index]` on.
   */
  function ArgsLoop(fs: seq<L.Token>, idx: seq<nat>, index: nat, needComma: bool, acc: CallArgs): (r: Result<CallArgs>)
    requires |fs| == |idx|
    decreases |fs| - index
    ensures r.Ok? ==> exists k :: index <= k < |fs| && fs[k].kind.RightParenthesis? && r.value.numTokens == idx[k] + 1
    ensures r.Ok? ==> |acc.args| <= |r.value.args| && r.value.args[..|acc.args|] == acc.args
  {
    if index >= |fs| then Err(ParseError(UnexpectedEof(acc.posAfter.row)))
    else
      var tok := fs[index];
      if tok.kind.String? && !needComma then
        ArgsLoop(fs, idx, index + 1, true, acc.(args := acc.args + [Str(Unescaped(tok.kind.str))], posAfter := tok.posAfter))
      else if tok.kind.Identifier? && !needComma then
        if index + 1 < |fs| && fs[index + 1].kind.Equals? then
          if index + 2 >= |fs| then Err(ParseError(UnexpectedEof(tok.posAfter.row)))
          else
            var v := fs[index + 2];
            if v.kind.String? then
              ArgsLoop(fs, idx, index + 3, true,
                       acc.(kwargs := Insert(acc.kwargs, tok.kind.name, Str(Unescaped(v.kind.str))), posAfter := v.posAfter))
            else if v.kind.Identifier? then
              ArgsLoop(fs, idx, index + 3, true,
                       acc.(kwargs := Insert(acc.kwargs, tok.kind.name, Ident(v.kind.name)), posAfter := v.posAfter))
            else Err(ParseError(UnexpectedToken(v.Name(), v.pos.row, v.pos.col)))
        else
          ArgsLoop(fs, idx, index + 1, true, acc.(args := acc.args + [Ident(tok.kind.name)], posAfter := tok.posAfter))
      else if tok.kind.Comma? && needComma then
        ArgsLoop(fs, idx, index + 1, false, acc.(posAfter := tok.posAfter))
      else if tok.kind.RightParenthesis? then
        Ok(acc.(numTokens := idx[index] + 1, posAfter := tok.posAfter))
      else Err(ParseError(UnexpectedToken(tok.Name(), tok.pos.row, tok.pos.col)))
  }

  /** `call_args` on the tokens after the effect or job name. */
  function CallArgsOf(ts: seq<L.Token>, pos: L.TextPosition): (r: Result<CallArgs>)
    ensures r.Ok? ==> r.value.numTokens <= |ts|
    ensures r.Ok? && r.value.numTokens > 0 ==> ts[r.value.numTokens - 1].kind.RightParenthesis?
    ensures var idx := NonWhitespaceFrom(ts, 0);
            !(|idx| > 0 && ts[idx[0]].kind.LeftParenthesis?) ==> r == Ok(CallArgs([], [], 0, pos))
  {
    var idx := NonWhitespaceFrom(ts, 0);
    if |idx| > 0 && ts[idx[0]].kind.LeftParenthesis? then
      var r := ArgsLoop(Pick(ts, idx), idx, 1, false, CallArgs([], [], 0, pos));
      ArgsLoopEnds(ts, idx, r, pos);
      r
    else Ok(CallArgs([], [], 0, pos))
  }

  /** The argument list ends at a right parenthesis among the tokens. */
  lemma ArgsLoopEnds(ts: seq<L.Token>, idx: seq<nat>, r: Result<CallArgs>, pos: L.TextPosition)
    requires idx == NonWhitespaceFrom(ts, 0)
    requires r == ArgsLoop(Pick(ts, idx), idx, 1, false, CallArgs([], [], 0, pos))
    ensures r.Ok? ==> 0 < r.value.numTokens <= |ts| && ts[r.value.numTokens - 1].kind.RightParenthesis?
  {
    if r.Ok? {
      EndsAtPicked(ts, idx, r.value.numTokens);
    }
  }

  lemma EndsAtPicked(ts: seq<L.Token>, idx: seq<nat>, n: nat)
    requires forall k :: 0 <= k < |idx| ==> idx[k] < |ts|
    requires exists k :: 1 <= k < |idx| && Pick(ts, idx)[k].kind.RightParenthesis? && n == idx[k] + 1
    ensures 0 < n <= |ts| && ts[n - 1].kind.RightParenthesis?
  {
    var fs := Pick(ts, idx);
    var k :| 1 <= k < |idx| && fs[k].kind.RightParenthesis? && n == idx[k] + 1;
    assert fs[k] == ts[idx[k]];
  }

  /** `call_args`: the loop over `index` and `need_comma`. */
  method ParseCallArgs(ts: seq<L.Token>, pos: L.TextPosition) returns (r: Result<CallArgs>)
    ensures r == CallArgsOf(ts, pos)
  {
    var result := CallArgs([], [], 0, pos);
    var idx := NonWhitespaceFrom(ts, 0);
    if !(|idx| > 0 && ts[idx[0]].kind.LeftParenthesis?) {
      return Ok(result);
    }
    var tokens := Pick(ts, idx);
    var index := 1;
    var needComma := false;
    while true
      invariant 1 <= index <= |tokens|
      invariant ArgsLoop(tokens, idx, index, needComma, result) == CallArgsOf(ts, pos)
      decreases |tokens| - index
    {
      if index >= |tokens| {
        return Err(ParseError(UnexpectedEof(result.posAfter.row)));
      }
      var tok := tokens[index];
      if tok.kind.String? && !needComma {
        result := result.(args := result.args + [Str(Unescaped(tok.kind.str))], posAfter := tok.posAfter);
        needComma := true;
        index := index + 1;
      } else if tok.kind.Identifier? && !needComma {
        if index + 1 < |tokens| && tokens[index + 1].kind.Equals? {
          if index + 2 >= |tokens| {
            return Err(ParseError(UnexpectedEof(tok.posAfter.row)));
          }
          var v := tokens[index + 2];
          if v.kind.String? {
            result := result.(kwargs := Insert(result.kwargs, tok.kind.name, Str(Unescaped(v.kind.str))), posAfter := v.posAfter);
          } else if v.kind.Identifier? {
            result := result.(kwargs := Insert(result.kwargs, tok.kind.name, Ident(v.kind.name)), posAfter := v.posAfter);
          } else {
            return Err(ParseError(UnexpectedToken(v.Name(), v.pos.row, v.pos.col)));
          }
          needComma := true;
          index := index + 3;
        } else {
          result := result.(args := result.args + [Ident(tok.kind.name)], posAfter := tok.posAfter);
          needComma := true;
          index := index + 1;
        }
      } else if tok.kind.Comma? && needComma {
        result := result.(posAfter := tok.posAfter);
        needComma := false;
        index := index + 1;
      } else if tok.kind.RightParenthesis? {
        return Ok(result.(numTokens := idx[index] + 1, posAfter := tok.posAfter));
      } else {
        return Err(ParseError(UnexpectedToken(tok.Name(), tok.pos.row, tok.pos.col)));
      }
    }
  }

  // ----- statements -----

  type Parsed = Result<(Instruction, nat)>

  /** `keyword <ws> "text" <end>`: Append, Delete, Discard, Extract, Get, Prepend, Retain. */
  predicate IsStringStatement(tokens: seq<L.Token>, kind: L.TokenKind) {
    |tokens| >= 3 && tokens[0].kind == kind && tokens[1].kind.Whitespace?
    && tokens[2].kind.String? && Terminates(tokens, 3)
  }

  function ParseStringStatement(tokens: seq<L.Token>, pos: L.TextPosition, kind: L.TokenKind, name: string,
                                build: string -> Instruction): (r: Parsed)
    ensures r.Ok? <==> IsStringStatement(tokens, kind)
    ensures r.Ok? ==> r.value == (build(Unescaped(tokens[2].kind.str)), 3)
  {
    var p :- Head(tokens, pos, kind, name);
    var p' :- Separator(TokenAt(tokens, 1), p);
    var text :- StringToken(TokenAt(tokens, 2), p');
    var u :- StatementTerminator(TokenAt(tokens, 3));
    Ok((build(Unescaped(text.0)), 3))
  }

  /** `keyword <end>`: Clear, ClearHeaders, First. */
  function ParseBareStatement(tokens: seq<L.Token>, pos: L.TextPosition, kind: L.TokenKind, name: string,
                              instruction: Instruction): (r: Parsed)
    ensures r.Ok? <==> |tokens| >= 1 && tokens[0].kind == kind && Terminates(tokens, 1)
    ensures r.Ok? ==> r.value == (instruction, 1)
  {
    var p :- Head(tokens, pos, kind, name);
    var u :- StatementTerminator(TokenAt(tokens, 1));
    Ok((instruction, 1))
  }

  /** `keyword <ws> identifier <end>`: Load, Store. */
  function ParseNameStatement(tokens: seq<L.Token>, pos: L.TextPosition, kind: L.TokenKind, name: string,
                              build: string -> Instruction): (r: Parsed)
    ensures r.Ok? <==> |tokens| >= 3 && tokens[0].kind == kind && tokens[1].kind.Whitespace?
                       && tokens[2].kind.Identifier? && Terminates(tokens, 3)
    ensures r.Ok? ==> r.value == (build(tokens[2].kind.name), 3)
  {
    var p :- Head(tokens, pos, kind, name);
    var p' :- Separator(TokenAt(tokens, 1), p);
    var id :- IdentifierToken(TokenAt(tokens, 2), p');
    var u :- StatementTerminator(TokenAt(tokens, 3));
    Ok((build(id.0), 3))
  }

  /** `drop <ws> number <end>` */
  function ParseDrop(tokens: seq<L.Token>, pos: L.TextPosition): (r: Parsed)
    ensures r.Ok? <==> |tokens| >= 3 && tokens[0].kind == L.Drop && tokens[1].kind.Whitespace?
                       && tokens[2].kind.Number? && ParseUsize(tokens[2].kind.value).Ok? && Terminates(tokens, 3)
    ensures r.Ok? ==> r.value == (Drop(ParseUsize(tokens[2].kind.value).value), 3)
  {
    var p :- Head(tokens, pos, L.Drop, "Drop");
    var p' :- Separator(TokenAt(tokens, 1), p);
    var n :- NumberToken(TokenAt(tokens, 2), p');
    var u :- StatementTerminator(TokenAt(tokens, 3));
    Ok((Drop(n.0), 3))
  }

  /** `header <ws> "key" <ws> "value" <end>` */
  function ParseHeader(tokens: seq<L.Token>, pos: L.TextPosition): (r: Parsed)
    ensures r.Ok? <==> |tokens| >= 5 && tokens[0].kind == L.Header && tokens[1].kind.Whitespace?
                       && tokens[2].kind.String? && tokens[3].kind.Whitespace?
                       && tokens[4].kind.String? && Terminates(tokens, 5)
    ensures r.Ok? ==> r.value == (Header(Unescaped(tokens[2].kind.str), Unescaped(tokens[4].kind.str)), 5)
  {
    var p :- Head(tokens, pos, L.Header, "Header");
    var p' :- Separator(TokenAt(tokens, 1), p);
    var key :- StringToken(TokenAt(tokens, 2), p');
    var p'' :- Separator(TokenAt(tokens, 3), key.1);
    var value :- StringToken(TokenAt(tokens, 4), p'');
    var u :- StatementTerminator(TokenAt(tokens, 5));
    Ok((Header(Unescaped(key.0), Unescaped(value.0)), 5))
  }

  /** The `keyword <ws> identifier` start of an Effect or Run statement. */
  function CallName(tokens: seq<L.Token>, pos: L.TextPosition, kind: L.TokenKind, name: string): (r: Result<(string, L.TextPosition)>)
    ensures r.Ok? <==> |tokens| >= 3 && tokens[0].kind == kind && tokens[1].kind.Whitespace?
                       && tokens[2].kind.Identifier?
    ensures r.Ok? ==> r.value == (tokens[2].kind.name, tokens[2].posAfter)
  {
    var p :- Head(tokens, pos, kind, name);
    var p' :- Separator(TokenAt(tokens, 1), p);
    IdentifierToken(TokenAt(tokens, 2), p')
  }

  /** `keyword <ws> identifier [( args )] <end>`: Effect, Run. */
  function ParseCall(tokens: seq<L.Token>, pos: L.TextPosition, kind: L.TokenKind, name: string,
                     build: (string, seq<Argument>, seq<KwArg>) -> Instruction): (r: Parsed)
    ensures r.Ok? ==> 3 <= r.value.1 <= |tokens|
  {
    var id := CallName(tokens, pos, kind, name);
    if id.Err? then Err(id.error)
    else
      var call := CallArgsOf(tokens[3..], id.value.1);
      if call.Err? then Err(call.error)
      else
        var u := StatementTerminator(TokenAt(tokens, 3 + call.value.numTokens));
        if u.Err? then Err(u.error)
        else Ok((build(id.value.0, call.value.args, call.value.kwargs), 3 + call.value.numTokens))
  }

  /** A call statement is read exactly when it is the keyword, whitespace, a name and an
      argument list that ends the statement; it takes the tokens through the list. */
  lemma ParseCallReads(tokens: seq<L.Token>, pos: L.TextPosition, kind: L.TokenKind, name: string,
                       build: (string, seq<Argument>, seq<KwArg>) -> Instruction)
    ensures var r := ParseCall(tokens, pos, kind, name, build);
            r.Ok? <==> |tokens| >= 3 && tokens[0].kind == kind && tokens[1].kind.Whitespace?
                       && tokens[2].kind.Identifier?
                       && var c := CallArgsOf(tokens[3..], tokens[2].posAfter);
                          c.Ok? && Terminates(tokens, 3 + c.value.numTokens)
    ensures var r := ParseCall(tokens, pos, kind, name, build);
            r.Ok? ==> var c := CallArgsOf(tokens[3..], tokens[2].posAfter);
                      r.value == (build(tokens[2].kind.name, c.value.args, c.value.kwargs), 3 + c.value.numTokens)
  {
    var id := CallName(tokens, pos, kind, name);
    if id.Ok? {
      assert id.value == (tokens[2].kind.name, tokens[2].posAfter);
    }
  }

  function EffectOf(name: string, args: seq<Argument>, kwargs: seq<KwArg>): Instruction {
    Effect(name, args, kwargs)
  }

  function RunOf(name: string, args: seq<Argument>, kwargs: seq<KwArg>): Instruction {
    Run(name, args, kwargs)
  }

  function ParseEffect(tokens: seq<L.Token>, pos: L.TextPosition): Parsed {
    ParseCall(tokens, pos, L.Effect, "Effect", EffectOf)
  }

  function ParseRun(tokens: seq<L.Token>, pos: L.TextPosition): Parsed {
    ParseCall(tokens, pos, L.Run, "Run", RunOf)
  }

  predicate IsKeyword(k: L.TokenKind) {
    k.Append? || k.Clear? || k.ClearHeaders? || k.Delete? || k.Discard? || k.Drop? || k.Effect?
    || k.Extract? || k.First? || k.Get? || k.Header? || k.Load? || k.Prepend? || k.Retain?
    || k.Run? || k.Store?
  }

  /** The dispatch of `parse` on the statement's first token. */
  function ParseStatement(tokens: seq<L.Token>): (r: Parsed)
    requires |tokens| > 0
    ensures r.Ok? ==> 1 <= r.value.1 <= |tokens| && IsKeyword(tokens[0].kind)
    ensures !IsKeyword(tokens[0].kind) ==> r == Err(UnexpectedError(tokens[0]))
  {
    var tok := tokens[0];
    var pos := tok.pos;
    match tok.kind
    case Append => ParseStringStatement(tokens, pos, L.Append, "Append", s => Append(s))
    case Clear => ParseBareStatement(tokens, pos, L.Clear, "Clear", Clear)
    case ClearHeaders => ParseBareStatement(tokens, pos, L.ClearHeaders, "ClearHeaders", ClearHeaders)
    case Delete => ParseStringStatement(tokens, pos, L.Delete, "Delete", s => Delete(s))
    case Discard => ParseStringStatement(tokens, pos, L.Discard, "Discard", s => Discard(s))
    case Drop => ParseDrop(tokens, pos)
    case Effect => ParseEffect(tokens, pos)
    case Extract => ParseStringStatement(tokens, pos, L.Extract, "Extract", s => Extract(s))
    case First => ParseBareStatement(tokens, pos, L.First, "First", First)
    case Get => ParseStringStatement(tokens, pos, L.Get, "Get", s => Get(s))
    case Header => ParseHeader(tokens, pos)
    case Load => ParseNameStatement(tokens, pos, L.Load, "Load", v => Load(v))
    case Prepend => ParseStringStatement(tokens, pos, L.Prepend, "Prepend", s => Prepend(s))
    case Retain => ParseStringStatement(tokens, pos, L.Retain, "Retain", s => Retain(s))
    case Run => ParseRun(tokens, pos)
    case Store => ParseNameStatement(tokens, pos, L.Store, "Store", v => Store(v))
    case _ => Err(UnexpectedError(tok))
  }

  // ----- the program -----

  /** `dedup_by` on whitespace: of each run of whitespace tokens only the first stays. */
  function DedupWhitespace(ts: seq<L.Token>): (r: seq<L.Token>)
    ensures |r| <= |ts|
    ensures |ts| > 0 ==> |r| > 0 && r[0] == ts[0]
    decreases |ts|
  {
    if |ts| <= 1 then ts
    else if ts[0].kind.Whitespace? && ts[1].kind.Whitespace? then DedupWhitespace([ts[0]] + ts[2..])
    else [ts[0]] + DedupWhitespace(ts[1..])
  }

  /** The instructions of the (deduplicated) tokens `rest`, whitespace between statements
      skipped. */
  function ParseFrom(rest: seq<L.Token>): Result<seq<Instruction>>
    decreases |rest|
  {
    if rest == [] then Ok([])
    else if rest[0].kind.Whitespace? then ParseFrom(rest[1..])
    else
      var stmt :- ParseStatement(rest);
      var more :- ParseFrom(rest[stmt.1..]);
      Ok([stmt.0] + more)
  }

  function ParsedProgram(tokens: seq<L.Token>): Result<seq<Instruction>> {
    ParseFrom(DedupWhitespace(tokens))
  }

  function Prefixed(done: seq<Instruction>, r: Result<seq<Instruction>>): Result<seq<Instruction>> {
    match r
    case Err(e) => Err(e)
    case Ok(ins) => Ok(done + ins)
  }

  /** `parse`: skip whitespace, read one statement, repeat. */
  method Parse(tokens: seq<L.Token>) returns (r: Result<seq<Instruction>>)
    ensures r == ParsedProgram(tokens)
  {
    var rest := DedupWhitespace(tokens);
    var result: seq<Instruction> := [];
    PrefixedNothing(ParseFrom(rest));
    while rest != []
      invariant Prefixed(result, ParseFrom(rest)) == ParsedProgram(tokens)
      decreases |rest|
    {
      while |rest| > 0 && rest[0].kind.Whitespace?
        invariant Prefixed(result, ParseFrom(rest)) == ParsedProgram(tokens)
      {
        PrefixedSkip(result, rest);
        rest := rest[1..];
      }
      if rest == [] {
        break;
      }
      var stmt := ParseStatement(rest);
      PrefixedStatement(result, rest);
      if stmt.Err? {
        return Err(stmt.error);
      }
      result := result + [stmt.value.0];
      rest := rest[stmt.value.1..];
    }
    assert result + [] == result;
    r := Ok(result);
  }

  lemma PrefixedNothing(r: Result<seq<Instruction>>)
    ensures Prefixed([], r) == r
  {
    if r.Ok? {
      assert [] + r.value == r.value;
    }
  }

  lemma PrefixedSkip(done: seq<Instruction>, rest: seq<L.Token>)
    requires rest != [] && rest[0].kind.Whitespace?
    ensures Prefixed(done, ParseFrom(rest)) == Prefixed(done, ParseFrom(rest[1..]))
  {
  }

  lemma PrefixedStatement(done: seq<Instruction>, rest: seq<L.Token>)
    requires rest != [] && !rest[0].kind.Whitespace?
    ensures var stmt := ParseStatement(rest);
            Prefixed(done, ParseFrom(rest))
            == if stmt.Err? then Err(stmt.error)
               else Prefixed(done + [stmt.value.0], ParseFrom(rest[stmt.value.1..]))
  {
    var stmt := ParseStatement(rest);
    if stmt.Ok? {
      var more := ParseFrom(rest[stmt.value.1..]);
      if more.Ok? {
        assert done + ([stmt.value.0] + more.value) == (done + [stmt.value.0]) + more.value;
      }
    }
  }
}
