// What the parser promises: unescaping undoes the escaping a string literal needs,
// whitespace runs collapse without losing any other token, numbers read back, and an
// argument list yields its positional arguments in order and its keyword arguments
// with the last value of each key.

module ParserProperties {
  import opened Wrappers
  import opened Errors
  import Strings
  import L = Lexer
  import LP = LexerProperties
  import opened Parser

  // ----- unescape -----

  /** Unescaping the escaped text of a string gives the string back. */
  lemma {:induction false} UnescapeEscaped(s: string)
    ensures Unescaped(LP.Escaped(s)) == s
  {
    if s != [] {
      var e := LP.Escaped(s);
      UnescapeEscaped(s[1..]);
      if s[0] == '"' || s[0] == '\\' {
        assert e[0] == '\\' && e[1] == s[0];
        assert e[1..][1..] == LP.Escaped(s[1..]);
        assert UnescapeFrom(e[1..], true) == [s[0]] + UnescapeFrom(e[1..][1..], false);
        assert [s[0]] + s[1..] == s;
      } else {
        assert e[1..] == LP.Escaped(s[1..]);
      }
    }
  }

  /** A string literal in a script is read as the string it was written for: the lexer's
      token holds the escaped text and the parser unescapes it. */
  lemma StringLiteralReadsBack(s: string, r: string, pos: L.TextPosition)
    ensures var lit := "\"" + LP.Escaped(s) + "\"";
            var step := L.Step(lit + r, pos);
            step.Ok? && step.value.token.kind.String? && Unescaped(step.value.token.kind.str) == s
  {
    LP.StringLiteralLexes(s, r, pos);
    UnescapeEscaped(s);
  }

  /** Text without a backslash is left as it is. */
  lemma {:induction false} UnescapePlain(s: string)
    requires forall i :: 0 <= i < |s| ==> s[i] != '\\'
    ensures Unescaped(s) == s
  {
    if s != [] {
      UnescapePlain(s[1..]);
    }
  }

  /** Whether a backslash is still waiting for the character it escapes after `s`. */
  predicate EscapePending(s: string, escaped: bool)
    decreases |s|
  {
    if s == [] then escaped else EscapePending(s[1..], !escaped && s[0] == '\\')
  }

  /** A backslash escapes the character after it, backslashes included. A trailing
      backslash that is not itself escaped disappears; an escaped one is kept. */
  lemma {:induction false} UnescapeBackslashes(s: string, c: char)
    ensures Unescaped(['\\', c] + s) == [c] + Unescaped(s)
    ensures !EscapePending(s, false) ==> Unescaped(s + ['\\']) == Unescaped(s)
    ensures EscapePending(s, false) ==> Unescaped(s + ['\\']) == Unescaped(s) + ['\\']
  {
    var e := ['\\', c] + s;
    assert e[1..][1..] == s;
    assert UnescapeFrom(e[1..], true) == [c] + UnescapeFrom(e[1..][1..], false);
    TrailingBackslash(s, false);
  }

  lemma {:induction false} TrailingBackslash(s: string, escaped: bool)
    ensures UnescapeFrom(s + ['\\'], escaped)
         == UnescapeFrom(s, escaped) + (if EscapePending(s, escaped) then ['\\'] else [])
    decreases |s|
  {
    if s == [] {
      assert UnescapeFrom(['\\'], escaped) == (if escaped then ['\\'] else UnescapeFrom([], true));
    } else {
      assert (s + ['\\'])[1..] == s[1..] + ['\\'];
      TrailingBackslash(s[1..], s[0] == '\\' && !escaped);
    }
  }

  /** The escape sequences of the regular expression in the source's `extract` test. */
  lemma UnescapeExtractTest()
    ensures Unescaped("\\\\w{3}?;") == "\\w{3}?;"
  {
    assert "\\\\w{3}?;"[1..][1..] == "w{3}?;";
    UnescapePlain("w{3}?;");
  }

  // ----- whitespace runs -----

  predicate NoAdjacentWhitespace(ts: seq<L.Token>) {
    forall i :: 0 <= i < |ts| - 1 ==> !(ts[i].kind.Whitespace? && ts[i + 1].kind.Whitespace?)
  }

  /** The tokens that are not whitespace, in order. */
  function Words(ts: seq<L.Token>): seq<L.Token> {
    if ts == [] then []
    else if ts[0].kind.Whitespace? then Words(ts[1..])
    else [ts[0]] + Words(ts[1..])
  }

  /** After `dedup_by` no two whitespace tokens are adjacent. */
  lemma {:induction false} DedupNoAdjacent(ts: seq<L.Token>)
    ensures NoAdjacentWhitespace(DedupWhitespace(ts))
    decreases |ts|
  {
    if |ts| > 1 {
      if ts[0].kind.Whitespace? && ts[1].kind.Whitespace? {
        DedupNoAdjacent([ts[0]] + ts[2..]);
      } else {
        DedupNoAdjacent(ts[1..]);
      }
    }
  }

  /** `dedup_by` keeps every other token, in order. */
  lemma {:induction false} DedupKeepsWords(ts: seq<L.Token>)
    ensures Words(DedupWhitespace(ts)) == Words(ts)
    decreases |ts|
  {
    if |ts| > 1 {
      if ts[0].kind.Whitespace? && ts[1].kind.Whitespace? {
        DedupKeepsWords([ts[0]] + ts[2..]);
        assert ([ts[0]] + ts[2..])[1..] == ts[2..] == ts[1..][1..];
      } else {
        DedupKeepsWords(ts[1..]);
        var r := DedupWhitespace(ts);
        assert r[1..] == DedupWhitespace(ts[1..]);
      }
    }
  }

  /** Tokens without a whitespace run are left as they are, so `dedup_by` is idempotent. */
  lemma {:induction false} DedupFixpoint(ts: seq<L.Token>)
    requires NoAdjacentWhitespace(ts)
    ensures DedupWhitespace(ts) == ts
    decreases |ts|
  {
    if |ts| > 1 {
      DedupFixpoint(ts[1..]);
      assert [ts[0]] + ts[1..] == ts;
    }
  }

  lemma DedupIdempotent(ts: seq<L.Token>)
    ensures DedupWhitespace(DedupWhitespace(ts)) == DedupWhitespace(ts)
  {
    DedupNoAdjacent(ts);
    DedupFixpoint(DedupWhitespace(ts));
  }

  /** Whether `dedup_by` drops `ts[i]`: it is whitespace and so is the token before it. */
  predicate DroppedAt(ts: seq<L.Token>, i: nat)
    requires 1 <= i < |ts|
  {
    ts[i - 1].kind.Whitespace? && ts[i].kind.Whitespace?
  }

  /** The tokens from index `i` on that `dedup_by` keeps, judged one index at a time
      against the original list. */
  function KeptFrom(ts: seq<L.Token>, i: nat): seq<L.Token>
    requires 1 <= i <= |ts|
    decreases |ts| - i
  {
    if i == |ts| then []
    else (if DroppedAt(ts, i) then [] else [ts[i]]) + KeptFrom(ts, i + 1)
  }

  lemma {:induction false} KeptFromSuffix(ts: seq<L.Token>, i: nat, k: nat)
    requires 1 <= k <= i <= |ts|
    ensures KeptFrom(ts, i) == KeptFrom(ts[k - 1..], i - k + 1)
    decreases |ts| - i
  {
    var t, j := ts[k - 1..], i - k + 1;
    if i < |ts| {
      KeptFromSuffix(ts, i + 1, k);
      assert t[j - 1] == ts[i - 1] && t[j] == ts[i];
      assert DroppedAt(t, j) == DroppedAt(ts, i);
    }
  }

  /** Dropping the second of two leading whitespace tokens leaves the kept tokens as
      they were. */
  lemma KeptAfterRun(ts: seq<L.Token>)
    requires |ts| > 1 && DroppedAt(ts, 1)
    ensures KeptFrom([ts[0]] + ts[2..], 1) == KeptFrom(ts, 1)
  {
    var u := [ts[0]] + ts[2..];
    assert KeptFrom(ts, 1) == KeptFrom(ts, 2);
    if |ts| > 2 {
      assert u[0] == ts[0] && u[1] == ts[2];
      assert DroppedAt(u, 1) == DroppedAt(ts, 2);
      KeptFromSuffix(u, 2, 2);
      KeptFromSuffix(ts, 3, 3);
      assert u[1..] == ts[2..];
    }
  }

  /** A second token that is not dropped heads the kept tokens. */
  lemma KeptAfterWord(ts: seq<L.Token>)
    requires |ts| > 1 && !DroppedAt(ts, 1)
    ensures KeptFrom(ts, 1) == [ts[1]] + KeptFrom(ts[1..], 1)
  {
    KeptFromSuffix(ts, 2, 2);
  }

  /** `dedup_by` keeps the first token and every later `ts[i]` except a whitespace token
      that follows another: each maximal whitespace run stays as exactly its first token. */
  lemma {:induction false} DedupKeepsRunHeads(ts: seq<L.Token>)
    requires ts != []
    ensures DedupWhitespace(ts) == [ts[0]] + KeptFrom(ts, 1)
    decreases |ts|
  {
    if |ts| > 1 {
      if DroppedAt(ts, 1) {
        DedupKeepsRunHeads([ts[0]] + ts[2..]);
        KeptAfterRun(ts);
      } else {
        DedupKeepsRunHeads(ts[1..]);
        KeptAfterWord(ts);
      }
    }
  }

  // ----- numbers -----

  /** `drop` reads back every count it can hold, with or without a `+` sign. */
  lemma ParseUsizeRoundTrip(n: nat)
    requires n <= UsizeMax
    ensures ParseUsize(Strings.NatToString(n)) == Ok(n)
    ensures ParseUsize("+" + Strings.NatToString(n)) == Ok(n)
  {
    var s := Strings.NatToString(n);
    Strings.DecimalValueOfNatToString(n);
    assert ("+" + s)[1..] == s;
  }

  /** A count beyond the platform's `usize` is a parse error. */
  lemma ParseUsizeOverflow(n: nat)
    requires n > UsizeMax
    ensures ParseUsize(Strings.NatToString(n)) == Err(ParseIntError)
  {
    Strings.DecimalValueOfNatToString(n);
  }

  // ----- argument lists -----

  /** One element of an argument list: a value, or `key = value`. */
  datatype CallItem = Positional(token: L.TokenKind) | Keyword(key: string, token: L.TokenKind)

  predicate IsValueKind(k: L.TokenKind) {
    k.String? || k.Identifier?
  }

  function ArgumentOf(k: L.TokenKind): Argument
    requires IsValueKind(k)
  {
    if k.String? then Str(Unescaped(k.str)) else Ident(k.name)
  }

  function Width(it: CallItem): nat {
    if it.Positional? then 1 else 3
  }

  predicate ItemAt(fs: seq<L.Token>, i: nat, it: CallItem) {
    i + Width(it) <= |fs|
    && match it
       case Positional(k) => fs[i].kind == k
       case Keyword(key, k) => fs[i].kind == L.Identifier(key) && fs[i + 1].kind.Equals? && fs[i + 2].kind == k
  }

  predicate ValueItems(items: seq<CallItem>) {
    forall k :: 0 <= k < |items| ==> IsValueKind(items[k].token)
  }

  /** From `fs[i]` on, the tokens are `items` separated by commas, with a comma after the
      last one if `trailing`, then `)`. */
  predicate LaysOut(fs: seq<L.Token>, i: nat, items: seq<CallItem>, trailing: bool)
    decreases |items|
  {
    ValueItems(items) &&
    if items == [] then !trailing && i < |fs| && fs[i].kind.RightParenthesis?
    else
      var j := i + Width(items[0]);
      ItemAt(fs, i, items[0]) && j < |fs|
      && if |items| == 1 && !trailing then fs[j].kind.RightParenthesis?
         else fs[j].kind.Comma? && LaysOut(fs, j + 1, items[1..], trailing && |items| > 1)
  }

  /** The place of the closing `)` of such a list. */
  function CloseAt(fs: seq<L.Token>, i: nat, items: seq<CallItem>, trailing: bool): (c: nat)
    requires LaysOut(fs, i, items, trailing)
    ensures i <= c < |fs| && fs[c].kind.RightParenthesis?
    decreases |items|
  {
    if items == [] then i
    else
      var j := i + Width(items[0]);
      if |items| == 1 && !trailing then j else CloseAt(fs, j + 1, items[1..], trailing && |items| > 1)
  }

  function Positionals(items: seq<CallItem>): seq<Argument>
    requires ValueItems(items)
  {
    if items == [] then []
    else (if items[0].Positional? then [ArgumentOf(items[0].token)] else []) + Positionals(items[1..])
  }

  /** The keyword arguments of `items` inserted one by one into `kws`. */
  function InsertAll(kws: seq<KwArg>, items: seq<CallItem>): (r: seq<KwArg>)
    requires ValueItems(items)
    ensures |kws| <= |r| && forall i :: 0 <= i < |kws| ==> r[i].key == kws[i].key
    ensures UniqueKeys(kws) ==> UniqueKeys(r)
    decreases |items|
  {
    if items == [] then kws
    else if items[0].Keyword? then InsertAll(Insert(kws, items[0].key, ArgumentOf(items[0].token)), items[1..])
    else InsertAll(kws, items[1..])
  }

  /** The map the keyword arguments of `items` build: a later value for a key wins. */
  function KeywordMap(m: map<string, Argument>, items: seq<CallItem>): map<string, Argument>
    requires ValueItems(items)
    decreases |items|
  {
    if items == [] then m
    else if items[0].Keyword? then KeywordMap(m[items[0].key := ArgumentOf(items[0].token)], items[1..])
    else KeywordMap(m, items[1..])
  }

  lemma {:induction false} InsertAllMap(kws: seq<KwArg>, items: seq<CallItem>)
    requires ValueItems(items)
    ensures KwMap(InsertAll(kws, items)) == KeywordMap(KwMap(kws), items)
    decreases |items|
  {
    if items != [] {
      if items[0].Keyword? {
        InsertAllMap(Insert(kws, items[0].key, ArgumentOf(items[0].token)), items[1..]);
      } else {
        InsertAllMap(kws, items[1..]);
      }
    }
  }

  /** The accumulated arguments after one item. */
  function AfterItem(fs: seq<L.Token>, i: nat, acc: CallArgs, it: CallItem): CallArgs
    requires ItemAt(fs, i, it) && IsValueKind(it.token)
  {
    if it.Positional? then acc.(args := acc.args + [ArgumentOf(it.token)], posAfter := fs[i].posAfter)
    else acc.(kwargs := Insert(acc.kwargs, it.key, ArgumentOf(it.token)), posAfter := fs[i + 2].posAfter)
  }

  /** One item, followed by a comma or the `)`, is read in one round of the loop. */
  lemma ArgsLoopItem(fs: seq<L.Token>, idx: seq<nat>, i: nat, acc: CallArgs, it: CallItem)
    requires |fs| == |idx|
    requires ItemAt(fs, i, it) && IsValueKind(it.token) && i + Width(it) < |fs|
    requires fs[i + Width(it)].kind.Comma? || fs[i + Width(it)].kind.RightParenthesis?
    ensures ArgsLoop(fs, idx, i, false, acc) == ArgsLoop(fs, idx, i + Width(it), true, AfterItem(fs, i, acc, it))
  {
    if it.Positional? {
      ArgsLoopPositional(fs, idx, i, acc, it);
    } else {
      ArgsLoopKeyword(fs, idx, i, acc, it);
    }
  }

  lemma ArgsLoopPositional(fs: seq<L.Token>, idx: seq<nat>, i: nat, acc: CallArgs, it: CallItem)
    requires |fs| == |idx| && it.Positional?
    requires ItemAt(fs, i, it) && IsValueKind(it.token) && i + 1 < |fs|
    requires fs[i + 1].kind.Comma? || fs[i + 1].kind.RightParenthesis?
    ensures ArgsLoop(fs, idx, i, false, acc) == ArgsLoop(fs, idx, i + 1, true, AfterItem(fs, i, acc, it))
  {
    assert !fs[i + 1].kind.Equals?;
  }

  lemma ArgsLoopKeyword(fs: seq<L.Token>, idx: seq<nat>, i: nat, acc: CallArgs, it: CallItem)
    requires |fs| == |idx| && it.Keyword?
    requires ItemAt(fs, i, it) && IsValueKind(it.token) && i + 3 < |fs|
    ensures ArgsLoop(fs, idx, i, false, acc) == ArgsLoop(fs, idx, i + 3, true, AfterItem(fs, i, acc, it))
  {
    var v := fs[i + 2];
    if v.kind.String? {
      assert ArgumentOf(it.token) == Str(Unescaped(v.kind.str));
    } else {
      assert ArgumentOf(it.token) == Ident(v.kind.name);
    }
  }

  lemma ArgsLoopComma(fs: seq<L.Token>, idx: seq<nat>, j: nat, acc: CallArgs)
    requires |fs| == |idx| && j < |fs| && fs[j].kind.Comma?
    ensures ArgsLoop(fs, idx, j, true, acc) == ArgsLoop(fs, idx, j + 1, false, acc.(posAfter := fs[j].posAfter))
  {
  }

  lemma ArgsLoopClose(fs: seq<L.Token>, idx: seq<nat>, j: nat, needComma: bool, acc: CallArgs)
    requires |fs| == |idx| && j < |fs| && fs[j].kind.RightParenthesis?
    ensures ArgsLoop(fs, idx, j, needComma, acc) == Ok(acc.(numTokens := idx[j] + 1, posAfter := fs[j].posAfter))
  {
  }

  /** The first item of a well-formed list, and what follows it. */
  lemma LaysOutFirst(fs: seq<L.Token>, i: nat, items: seq<CallItem>, trailing: bool)
    requires LaysOut(fs, i, items, trailing) && items != []
    ensures var j := i + Width(items[0]);
            ItemAt(fs, i, items[0]) && IsValueKind(items[0].token) && j < |fs|
            && (|items| == 1 && !trailing ==> fs[j].kind.RightParenthesis? && CloseAt(fs, i, items, trailing) == j)
            && (!(|items| == 1 && !trailing) ==>
                  fs[j].kind.Comma? && LaysOut(fs, j + 1, items[1..], trailing && |items| > 1)
                  && CloseAt(fs, i, items, trailing) == CloseAt(fs, j + 1, items[1..], trailing && |items| > 1))
  {
  }

  lemma ValueItemsTail(items: seq<CallItem>)
    requires items != [] && ValueItems(items)
    ensures ValueItems(items[1..])
  {
    forall k | 0 <= k < |items[1..]|
      ensures IsValueKind(items[1..][k].token)
    {
      assert items[1..][k] == items[k + 1];
    }
  }

  lemma PositionalsStep(acc: CallArgs, fs: seq<L.Token>, i: nat, items: seq<CallItem>)
    requires items != [] && ValueItems(items) && ValueItems(items[1..]) && ItemAt(fs, i, items[0])
    ensures AfterItem(fs, i, acc, items[0]).args + Positionals(items[1..]) == acc.args + Positionals(items)
  {
    var rest := Positionals(items[1..]);
    if items[0].Keyword? {
      assert AfterItem(fs, i, acc, items[0]).args == acc.args;
      assert Positionals(items) == [] + rest == rest;
    } else {
      var a := ArgumentOf(items[0].token);
      assert AfterItem(fs, i, acc, items[0]).args == acc.args + [a];
      assert Positionals(items) == [a] + rest;
      assert (acc.args + [a]) + rest == acc.args + ([a] + rest);
    }
  }

  lemma InsertAllStep(acc: CallArgs, fs: seq<L.Token>, i: nat, items: seq<CallItem>)
    requires items != [] && ValueItems(items) && ValueItems(items[1..]) && ItemAt(fs, i, items[0])
    ensures InsertAll(AfterItem(fs, i, acc, items[0]).kwargs, items[1..]) == InsertAll(acc.kwargs, items)
  {
  }

  /** What the argument loop makes of a well-formed list closed by the `)` at `c`. */
  function ReadList(fs: seq<L.Token>, idx: seq<nat>, acc: CallArgs, items: seq<CallItem>, c: nat): Result<CallArgs>
    requires c < |fs| && c < |idx| && ValueItems(items)
  {
    Ok(CallArgs(acc.args + Positionals(items), InsertAll(acc.kwargs, items), idx[c] + 1, fs[c].posAfter))
  }

  /** The argument loop reads a well-formed list: positional arguments in order, each
      keyword argument inserted, and the count of tokens through the `)`. */
  lemma {:induction false} ArgsLoopReads(fs: seq<L.Token>, idx: seq<nat>, i: nat, acc: CallArgs,
                                         items: seq<CallItem>, trailing: bool)
    requires |fs| == |idx|
    requires LaysOut(fs, i, items, trailing)
    ensures ArgsLoop(fs, idx, i, false, acc) == ReadList(fs, idx, acc, items, CloseAt(fs, i, items, trailing))
    decreases |items|, 1
  {
    if items == [] {
      assert acc.args + [] == acc.args;
      ArgsLoopClose(fs, idx, i, false, acc);
    } else if |items| == 1 && !trailing {
      var it := items[0];
      var j := i + Width(it);
      LaysOutFirst(fs, i, items, trailing);
      ArgsLoopItem(fs, idx, i, acc, it);
      ArgsLoopClose(fs, idx, j, true, AfterItem(fs, i, acc, it));
      ReadListLast(fs, idx, i, acc, items, j);
    } else {
      ArgsLoopReadsMore(fs, idx, i, acc, items, trailing);
    }
  }

  /** An item followed by a comma: one round of the loop, then the rest of the list. */
  lemma {:induction false} ArgsLoopReadsMore(fs: seq<L.Token>, idx: seq<nat>, i: nat, acc: CallArgs,
                                             items: seq<CallItem>, trailing: bool)
    requires |fs| == |idx|
    requires LaysOut(fs, i, items, trailing) && items != [] && !(|items| == 1 && !trailing)
    ensures ArgsLoop(fs, idx, i, false, acc) == ReadList(fs, idx, acc, items, CloseAt(fs, i, items, trailing))
    decreases |items|, 0
  {
    var it := items[0];
    var j := i + Width(it);
    LaysOutFirst(fs, i, items, trailing);
    ValueItemsTail(items);
    var acc' := AfterItem(fs, i, acc, it);
    var acc'' := acc'.(posAfter := fs[j].posAfter);
    var trailing' := trailing && |items| > 1;
    var c := CloseAt(fs, i, items, trailing);
    assert c == CloseAt(fs, j + 1, items[1..], trailing');
    ArgsLoopItem(fs, idx, i, acc, it);
    ArgsLoopComma(fs, idx, j, acc');
    ArgsLoopReads(fs, idx, j + 1, acc'', items[1..], trailing');
    ReadListMore(fs, idx, i, acc, items, fs[j].posAfter, c);
    calc {
      ArgsLoop(fs, idx, i, false, acc);
      ArgsLoop(fs, idx, j, true, acc');
      ArgsLoop(fs, idx, j + 1, false, acc'');
      ReadList(fs, idx, acc'', items[1..], c);
      ReadList(fs, idx, acc, items, c);
    }
  }

  lemma ReadListLast(fs: seq<L.Token>, idx: seq<nat>, i: nat, acc: CallArgs, items: seq<CallItem>, c: nat)
    requires c < |fs| == |idx| && |items| == 1 && ValueItems(items) && ItemAt(fs, i, items[0])
    ensures ReadList(fs, idx, acc, items, c)
            == Ok(AfterItem(fs, i, acc, items[0]).(numTokens := idx[c] + 1, posAfter := fs[c].posAfter))
  {
    ValueItemsTail(items);
    assert items[1..] == [];
    var acc' := AfterItem(fs, i, acc, items[0]);
    PositionalsStep(acc, fs, i, items);
    InsertAllStep(acc, fs, i, items);
    assert acc'.args + [] == acc'.args;
  }

  lemma ReadListMore(fs: seq<L.Token>, idx: seq<nat>, i: nat, acc: CallArgs, items: seq<CallItem>,
                     pos: L.TextPosition, c: nat)
    requires c < |fs| == |idx| && items != [] && ValueItems(items) && ItemAt(fs, i, items[0])
    ensures ValueItems(items[1..])
    ensures ReadList(fs, idx, acc, items, c)
            == ReadList(fs, idx, AfterItem(fs, i, acc, items[0]).(posAfter := pos), items[1..], c)
  {
    ValueItemsTail(items);
    PositionalsStep(acc, fs, i, items);
    InsertAllStep(acc, fs, i, items);
  }

  /**
   * `call_args` on tokens whose non-whitespace part starts `( items )`: whitespace
   * anywhere is ignored, positional arguments keep their order, the keyword arguments
   * form the map with the last value of each key, each key once in order of first use,
   * and the statement takes every token up to and including the `)`.
   */
  lemma CallArgsReads(ts: seq<L.Token>, pos: L.TextPosition, items: seq<CallItem>, trailing: bool)
    requires var fs := Pick(ts, NonWhitespaceFrom(ts, 0));
             |fs| > 0 && fs[0].kind.LeftParenthesis? && LaysOut(fs, 1, items, trailing)
    ensures var idx := NonWhitespaceFrom(ts, 0);
            var fs := Pick(ts, idx);
            var c := CloseAt(fs, 1, items, trailing);
            var r := CallArgsOf(ts, pos);
            r.Ok? && r.value.args == Positionals(items) && r.value.kwargs == InsertAll([], items)
            && KwMap(r.value.kwargs) == KeywordMap(map[], items) && UniqueKeys(r.value.kwargs)
            && r.value.numTokens == idx[c] + 1 && ts[idx[c]].kind.RightParenthesis?
  {
    var idx := NonWhitespaceFrom(ts, 0);
    var fs := Pick(ts, idx);
    var c := CloseAt(fs, 1, items, trailing);
    CallArgsList(ts, pos, items, trailing);
    ReadListFromStart(fs, idx, pos, items, c);
    assert ts[idx[c]] == fs[c];
  }

  /** What the loop reads from the start of a list: the positional arguments in order,
      the keyword arguments inserted one by one, and the tokens through the `)`. */
  lemma ReadListFromStart(fs: seq<L.Token>, idx: seq<nat>, pos: L.TextPosition, items: seq<CallItem>, c: nat)
    requires c < |fs| && c < |idx| && ValueItems(items)
    ensures var r := ReadList(fs, idx, CallArgs([], [], 0, pos), items, c);
            r.Ok? && r.value.args == Positionals(items) && r.value.kwargs == InsertAll([], items)
            && KwMap(r.value.kwargs) == KeywordMap(map[], items) && UniqueKeys(r.value.kwargs)
            && r.value.numTokens == idx[c] + 1
  {
    assert [] + Positionals(items) == Positionals(items);
    InsertAllMap([], items);
  }

  /** `call_args` runs the argument loop from the token after the `(`. */
  lemma CallArgsList(ts: seq<L.Token>, pos: L.TextPosition, items: seq<CallItem>, trailing: bool)
    requires var fs := Pick(ts, NonWhitespaceFrom(ts, 0));
             |fs| > 0 && fs[0].kind.LeftParenthesis? && LaysOut(fs, 1, items, trailing)
    ensures var idx := NonWhitespaceFrom(ts, 0);
            var fs := Pick(ts, idx);
            CallArgsOf(ts, pos) == ReadList(fs, idx, CallArgs([], [], 0, pos), items, CloseAt(fs, 1, items, trailing))
  {
    var idx := NonWhitespaceFrom(ts, 0);
    var fs := Pick(ts, idx);
    assert ts[idx[0]] == fs[0];
    assert CallArgsOf(ts, pos) == ArgsLoop(fs, idx, 1, false, CallArgs([], [], 0, pos));
    ArgsLoopReads(fs, idx, 1, CallArgs([], [], 0, pos), items, trailing);
  }

  /** `effect` or `run` without an argument list has no arguments and takes no tokens. */
  lemma NoArgumentList(ts: seq<L.Token>, pos: L.TextPosition)
    requires forall i :: 0 <= i < |ts| ==> !ts[i].kind.LeftParenthesis?
    ensures CallArgsOf(ts, pos) == Ok(CallArgs([], [], 0, pos))
  {
  }

  function Tok(k: L.TokenKind): L.Token {
    L.Token(k, L.Start, L.Start)
  }

  /** Without whitespace tokens the filtered tokens are the tokens themselves. */
  lemma {:induction false} NoWhitespaceIndices(ts: seq<L.Token>, i: nat)
    requires i <= |ts|
    requires forall k :: 0 <= k < |ts| ==> !ts[k].kind.Whitespace?
    ensures var idx := NonWhitespaceFrom(ts, i);
            |idx| == |ts| - i && forall k :: 0 <= k < |idx| ==> idx[k] == i + k
    decreases |ts| - i
  {
    if i < |ts| {
      NoWhitespaceIndices(ts, i + 1);
      NoWhitespaceStep(ts, i, NonWhitespaceFrom(ts, i + 1));
    }
  }

  lemma NoWhitespaceStep(ts: seq<L.Token>, i: nat, rest: seq<nat>)
    requires i < |ts| && !ts[i].kind.Whitespace? && rest == NonWhitespaceFrom(ts, i + 1)
    requires |rest| == |ts| - (i + 1) && forall k :: 0 <= k < |rest| ==> rest[k] == i + 1 + k
    ensures var idx := NonWhitespaceFrom(ts, i);
            |idx| == |ts| - i && forall k :: 0 <= k < |idx| ==> idx[k] == i + k
  {
    var idx := [i] + rest;
    assert NonWhitespaceFrom(ts, i) == idx;
    forall k | 0 <= k < |idx|
      ensures idx[k] == i + k
    {
      if k > 0 {
        assert idx[k] == rest[k - 1];
      }
    }
  }

  lemma NoWhitespacePick(ts: seq<L.Token>)
    requires forall k :: 0 <= k < |ts| ==> !ts[k].kind.Whitespace?
    ensures var idx := NonWhitespaceFrom(ts, 0);
            Pick(ts, idx) == ts && forall k :: 0 <= k < |idx| ==> idx[k] == k
  {
    NoWhitespaceIndices(ts, 0);
  }

  /** `CallArgsReads` for tokens without whitespace. */
  lemma CallArgsWithoutWhitespace(ts: seq<L.Token>, pos: L.TextPosition, items: seq<CallItem>, trailing: bool)
    requires forall k :: 0 <= k < |ts| ==> !ts[k].kind.Whitespace?
    requires |ts| > 0 && ts[0].kind.LeftParenthesis? && LaysOut(ts, 1, items, trailing)
    ensures var r := CallArgsOf(ts, pos);
            r.Ok? && r.value.args == Positionals(items) && r.value.kwargs == InsertAll([], items)
            && r.value.numTokens == CloseAt(ts, 1, items, trailing) + 1
  {
    NoWhitespacePick(ts);
    CallArgsReads(ts, pos, items, trailing);
  }

  lemma EffectTestLayout(ts: seq<L.Token>, items: seq<CallItem>)
    requires ts == [Tok(L.LeftParenthesis), Tok(L.Identifier("$x")), Tok(L.Comma), Tok(L.Identifier("foo")), Tok(L.Equals),
                    Tok(L.String("bar")), Tok(L.Comma), Tok(L.Identifier("$y")), Tok(L.RightParenthesis)]
    requires items == [Positional(L.Identifier("$x")), Keyword("foo", L.String("bar")), Positional(L.Identifier("$y"))]
    ensures LaysOut(ts, 1, items, false) && CloseAt(ts, 1, items, false) == 8
  {
    assert LaysOut(ts, 7, items[2..], false) && CloseAt(ts, 7, items[2..], false) == 8;
    assert LaysOut(ts, 3, items[1..], false) && CloseAt(ts, 3, items[1..], false) == 8 by {
      assert items[1..][1..] == items[2..];
    }
  }

  lemma EffectTestItems(items: seq<CallItem>)
    requires items == [Positional(L.Identifier("$x")), Keyword("foo", L.String("bar")), Positional(L.Identifier("$y"))]
    ensures ValueItems(items)
    ensures Positionals(items) == [Ident("$x"), Ident("$y")]
    ensures InsertAll([], items) == [KwArg("foo", Str("bar"))]
  {
    UnescapePlain("bar");
    assert items[1..][1..] == items[2..];
    assert items[2..][1..] == [];
    assert Positionals(items[2..]) == [Ident("$y")];
    assert Positionals(items[1..]) == [Ident("$y")];
    assert Positionals(items) == [Ident("$x")] + [Ident("$y")];
    assert InsertAll([], items) == InsertAll([], items[1..]);
    assert Insert([], "foo", Str("bar")) == [KwArg("foo", Str("bar"))];
    assert InsertAll([], items[1..]) == InsertAll([KwArg("foo", Str("bar"))], items[2..]);
    assert InsertAll([KwArg("foo", Str("bar"))], items[2..]) == InsertAll([KwArg("foo", Str("bar"))], []);
  }

  /** The argument list of the source's test `effect name($x,foo="bar",$y)`. */
  lemma EffectArgumentsTest(ts: seq<L.Token>, pos: L.TextPosition)
    requires ts == [Tok(L.LeftParenthesis), Tok(L.Identifier("$x")), Tok(L.Comma), Tok(L.Identifier("foo")), Tok(L.Equals),
                    Tok(L.String("bar")), Tok(L.Comma), Tok(L.Identifier("$y")), Tok(L.RightParenthesis)]
    ensures var r := CallArgsOf(ts, pos);
            r.Ok? && r.value.args == [Ident("$x"), Ident("$y")] && r.value.kwargs == [KwArg("foo", Str("bar"))]
            && r.value.numTokens == 9
  {
    var items := [Positional(L.Identifier("$x")), Keyword("foo", L.String("bar")), Positional(L.Identifier("$y"))];
    EffectTestLayout(ts, items);
    EffectTestItems(items);
    CallArgsWithoutWhitespace(ts, pos, items, false);
  }

  /** The source's test `effect name($x,foo="bar",$y)`. */
  lemma EffectWithArgumentsTest()
    ensures var tokens := [Tok(L.Effect), Tok(L.Whitespace), Tok(L.Identifier("name")), Tok(L.LeftParenthesis),
                           Tok(L.Identifier("$x")), Tok(L.Comma), Tok(L.Identifier("foo")), Tok(L.Equals),
                           Tok(L.String("bar")), Tok(L.Comma), Tok(L.Identifier("$y")), Tok(L.RightParenthesis)];
            ParseEffect(tokens, L.Start) == Ok((Effect("name", [Ident("$x"), Ident("$y")], [KwArg("foo", Str("bar"))]), 12))
  {
    var tokens := [Tok(L.Effect), Tok(L.Whitespace), Tok(L.Identifier("name")), Tok(L.LeftParenthesis),
                   Tok(L.Identifier("$x")), Tok(L.Comma), Tok(L.Identifier("foo")), Tok(L.Equals),
                   Tok(L.String("bar")), Tok(L.Comma), Tok(L.Identifier("$y")), Tok(L.RightParenthesis)];
    EffectArgumentsTest(tokens[3..], tokens[2].posAfter);
    EffectStatement(tokens, L.Start);
  }

  /** An `effect` statement is its name and its argument list, and ends after the list. */
  lemma EffectStatement(tokens: seq<L.Token>, pos: L.TextPosition)
    requires |tokens| >= 3 && tokens[0].kind.Effect? && tokens[1].kind.Whitespace? && tokens[2].kind.Identifier?
    requires var c := CallArgsOf(tokens[3..], tokens[2].posAfter);
             c.Ok? && Terminates(tokens, 3 + c.value.numTokens)
    ensures var c := CallArgsOf(tokens[3..], tokens[2].posAfter);
            ParseEffect(tokens, pos) == Ok((Effect(tokens[2].kind.name, c.value.args, c.value.kwargs), 3 + c.value.numTokens))
  {
    ParseCallReads(tokens, pos, L.Effect, "Effect", EffectOf);
  }

  /** Two values without a comma between them are an error at the second. */
  lemma MissingComma(fs: seq<L.Token>, idx: seq<nat>, j: nat, acc: CallArgs)
    requires |fs| == |idx| && j < |fs| && IsValueKind(fs[j].kind)
    ensures ArgsLoop(fs, idx, j, true, acc) == Err(ParseError(UnexpectedToken(fs[j].Name(), fs[j].pos.row, fs[j].pos.col)))
  {
  }

  /** A list may not start with a comma. */
  lemma LeadingComma(fs: seq<L.Token>, idx: seq<nat>, acc: CallArgs)
    requires |fs| == |idx| && 1 < |fs| && fs[1].kind.Comma?
    ensures ArgsLoop(fs, idx, 1, false, acc) == Err(ParseError(UnexpectedToken("Comma", fs[1].pos.row, fs[1].pos.col)))
  {
  }

  // ----- programs -----

  /** A statement must start with a keyword; anything else is reported where it stands. */
  lemma ParseFromNonKeyword(rest: seq<L.Token>, k: nat)
    requires k < |rest| && !rest[k].kind.Whitespace? && !IsKeyword(rest[k].kind)
    requires forall i :: 0 <= i < k ==> rest[i].kind.Whitespace?
    ensures ParseFrom(rest) == Err(ParseError(SyntaxErrorUnexpected(rest[k].Name(), rest[k].pos.row, rest[k].pos.col)))
    decreases k
  {
    if k > 0 {
      ParseFromNonKeyword(rest[1..], k - 1);
    }
  }

  /** Whitespace alone is the empty program. */
  lemma {:induction false} ParseFromWhitespace(rest: seq<L.Token>)
    requires forall i :: 0 <= i < |rest| ==> rest[i].kind.Whitespace?
    ensures ParseFrom(rest) == Ok([])
  {
    if rest != [] {
      ParseFromWhitespace(rest[1..]);
    }
  }

  /** Every instruction comes from a statement that starts with a keyword token, so a
      program has at most as many instructions as keyword tokens. */
  lemma {:induction false} ParseFromCount(rest: seq<L.Token>)
    ensures ParseFrom(rest).Ok? ==> |ParseFrom(rest).value| <= KeywordCount(rest)
    decreases |rest|
  {
    if rest != [] {
      if rest[0].kind.Whitespace? {
        ParseFromCount(rest[1..]);
        assert KeywordCount(rest) == KeywordCount(rest[1..]);
      } else {
        var stmt := ParseStatement(rest);
        if stmt.Ok? {
          ParseFromCount(rest[stmt.value.1..]);
          KeywordCountSplit(rest, stmt.value.1);
        }
      }
    }
  }

  function KeywordCount(ts: seq<L.Token>): nat {
    if ts == [] then 0 else (if IsKeyword(ts[0].kind) then 1 else 0) + KeywordCount(ts[1..])
  }

  lemma {:induction false} KeywordCountSplit(ts: seq<L.Token>, n: nat)
    requires 1 <= n <= |ts| && IsKeyword(ts[0].kind)
    ensures KeywordCount(ts) >= 1 + KeywordCount(ts[n..])
    decreases n
  {
    if n > 1 {
      KeywordCountSplit([ts[0]] + ts[2..], n - 1);
      assert ([ts[0]] + ts[2..])[1..] == ts[2..];
      assert ([ts[0]] + ts[2..])[n - 1..] == ts[n..];
      KeywordCountTail(ts);
    }
  }

  lemma KeywordCountTail(ts: seq<L.Token>)
    requires |ts| >= 2
    ensures KeywordCount(ts) >= KeywordCount([ts[0]] + ts[2..])
  {
    assert ([ts[0]] + ts[2..])[1..] == ts[2..];
    assert ts[1..][1..] == ts[2..];
  }
}
