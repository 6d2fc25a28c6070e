// `substitute_variables` of src/scrapelang/program.rs: every `{name}` placeholder of a
// text is replaced by the variable's values joined with no separator.
//
// The placeholders are the matches of the lazy pattern `\{(.+?)\}` on the ORIGINAL text,
// and each match's range is applied to the working copy as it stands after the earlier
// replacements, with no offset correction. That is what the interpreter uses
// (`SubstitutedAsWritten`). `SubstitutedCorrectly` replaces every placeholder at its own
// place; the two agree when every replacement has its placeholder's length or there is
// just one placeholder, and the examples at the end show where they part.

module Substitution {
  import opened Wrappers
  import opened Errors
  import Strings

  type Variables = map<string, seq<string>>

  /** One match of `\{(.+?)\}`: the text from `start` up to `end` (exclusive); the
      variable name lies between the braces. */
  datatype Placeholder = Placeholder(start: nat, end: nat)

  /** `.+?\}` after the first character of the name: the first '}' from `i` on, unless a
      line break comes first (`.` does not match '\n'). */
  function CloseFrom(t: string, i: nat): (r: Option<nat>)
    requires i <= |t|
    ensures r.Some? ==> i <= r.value < |t| && t[r.value] == '}'
    ensures r.Some? ==> forall k :: i <= k < r.value ==> t[k] != '}' && t[k] != '\n'
    decreases |t| - i
  {
    if i == |t| || t[i] == '\n' then None
    else if t[i] == '}' then Some(i)
    else CloseFrom(t, i + 1)
  }

  /** The end of the match starting at `p`, if one does: a '{', one character that is
      not a line break (it may be '}'), then everything up to the nearest '}'. */
  function MatchAt(t: string, p: nat): (r: Option<nat>)
    requires p < |t|
    ensures r.Some? ==> p + 3 <= r.value <= |t| && t[p] == '{' && t[r.value - 1] == '}'
  {
    if t[p] == '{' && p + 1 < |t| && t[p + 1] != '\n' then
      var close := CloseFrom(t, p + 2);
      if close.Some? then Some(close.value + 1) else None
    else None
  }

  predicate WellFormed(t: string, ph: Placeholder) {
    ph.start + 3 <= ph.end <= |t| && t[ph.start] == '{' && t[ph.end - 1] == '}'
  }

  /** Placeholders inside `t`, from `from` on, in text order and not overlapping. */
  predicate Placed(t: string, phs: seq<Placeholder>, from: nat) {
    (forall k :: 0 <= k < |phs| ==> WellFormed(t, phs[k]))
    && (|phs| > 0 ==> from <= phs[0].start)
    && (forall k :: 0 < k < |phs| ==> phs[k - 1].end <= phs[k].start)
  }

  /** `captures_iter` from `from` on: leftmost matches, the search resuming after each. */
  function PlaceholdersFrom(t: string, from: nat): (r: seq<Placeholder>)
    requires from <= |t|
    ensures Placed(t, r, from)
    decreases |t| - from
  {
    if from == |t| then []
    else
      var m := MatchAt(t, from);
      if m.Some? then [Placeholder(from, m.value)] + PlaceholdersFrom(t, m.value)
      else PlaceholdersFrom(t, from + 1)
  }

  function Placeholders(t: string): (r: seq<Placeholder>)
    ensures Placed(t, r, 0)
  {
    PlaceholdersFrom(t, 0)
  }

  function NameOf(t: string, ph: Placeholder): string
    requires WellFormed(t, ph)
  {
    t[ph.start + 1..ph.end - 1]
  }

  /** A variable's value as the interpreter uses it: its list joined with no separator,
      or `VariableNotFoundError` naming it. */
  function Lookup(vars: Variables, name: string): (r: Result<string>)
    ensures r.Ok? <==> name in vars
    ensures r.Ok? ==> r.value == Strings.Concat(vars[name])
    ensures r.Err? ==> r.error == VariableNotFoundError(name)
  {
    if name in vars then Ok(Strings.Concat(vars[name])) else Err(VariableNotFoundError(name))
  }

  /** `String::replace_range`, which panics when the range ends past the string. The
      range counts characters; the source's counts UTF-8 bytes and also panics off a
      character boundary, which this model does not capture. */
  function ReplaceRange(s: string, start: nat, end: nat, value: string): (r: Result<string>)
    requires start <= end
    ensures r.Ok? <==> end <= |s|
    ensures r.Ok? ==> r.value == s[..start] + value + s[end..] && |r.value| == |s| - (end - start) + |value|
    ensures r.Err? ==> r.error == ReplaceRangePanic(start, end, |s|)
  {
    if end > |s| then Err(ReplaceRangePanic(start, end, |s|)) else Ok(s[..start] + value + s[end..])
  }

  // ----- as written -----

  /** The loop body applied to the placeholders `phs` of `text`, the working copy being
      `result`: look the name up, then replace the original range in the working copy. */
  function ApplyAsWritten(text: string, vars: Variables, phs: seq<Placeholder>, result: string): Result<string>
    requires forall k :: 0 <= k < |phs| ==> WellFormed(text, phs[k])
  {
    if phs == [] then Ok(result)
    else
      var value :- Lookup(vars, NameOf(text, phs[0]));
      var next :- ReplaceRange(result, phs[0].start, phs[0].end, value);
      ApplyAsWritten(text, vars, phs[1..], next)
  }

  function SubstitutedAsWritten(text: string, vars: Variables): Result<string> {
    ApplyAsWritten(text, vars, Placeholders(text), text)
  }

  /** `substitute_variables` */
  method SubstituteVariables(text: string, vars: Variables) returns (r: Result<string>)
    ensures r == SubstitutedAsWritten(text, vars)
  {
    var result := text;
    var matches := Placeholders(text);
    var i := 0;
    while i < |matches|
      invariant 0 <= i <= |matches|
      invariant ApplyAsWritten(text, vars, matches[i..], result) == SubstitutedAsWritten(text, vars)
    {
      var m := matches[i];
      assert matches[i..][0] == m && matches[i..][1..] == matches[i + 1..];
      var name := text[m.start + 1..m.end - 1];
      if name !in vars {
        return Err(VariableNotFoundError(name));
      }
      var value := Strings.Concat(vars[name]);
      if m.end > |result| {
        return Err(ReplaceRangePanic(m.start, m.end, |result|));
      }
      result := result[..m.start] + value + result[m.end..];
      i := i + 1;
    }
    return Ok(result);
  }

  // ----- every placeholder at its own place -----

  function SubstitutedFrom(text: string, vars: Variables, phs: seq<Placeholder>, from: nat): (r: Result<string>)
    requires from <= |text| && Placed(text, phs, from)
    decreases |phs|
  {
    if phs == [] then Ok(text[from..])
    else
      var value :- Lookup(vars, NameOf(text, phs[0]));
      var rest :- SubstitutedFrom(text, vars, phs[1..], phs[0].end);
      Ok(text[from..phs[0].start] + value + rest)
  }

  /** The reference: the text with each placeholder replaced where it stands, or the
      error for the first placeholder whose variable is missing. */
  function SubstitutedCorrectly(text: string, vars: Variables): Result<string> {
    SubstitutedFrom(text, vars, Placeholders(text), 0)
  }

  // ----- properties -----

  /** Without a '{' there is no placeholder, and the text comes back unchanged. */
  lemma {:induction false} NoBraceNoPlaceholders(t: string, from: nat)
    requires from <= |t| && forall k :: from <= k < |t| ==> t[k] != '{'
    ensures PlaceholdersFrom(t, from) == []
    decreases |t| - from
  {
    if from < |t| {
      NoBraceNoPlaceholders(t, from + 1);
    }
  }

  lemma NoPlaceholderUnchanged(text: string, vars: Variables)
    requires '{' !in text
    ensures SubstitutedAsWritten(text, vars) == Ok(text)
    ensures SubstitutedCorrectly(text, vars) == Ok(text)
  {
    NoBraceNoPlaceholders(text, 0);
  }

  /** What a placeholder holds: the lazy group is the shortest name that is not empty and
      has no line break; only its first character may be '}'. */
  lemma {:induction false} PlaceholderShape(t: string, from: nat, k: nat)
    requires from <= |t| && k < |PlaceholdersFrom(t, from)|
    ensures var name := NameOf(t, PlaceholdersFrom(t, from)[k]);
            name != [] && '\n' !in name && '}' !in name[1..]
    decreases |t| - from
  {
    var m := MatchAt(t, from);
    if m.Some? {
      if k == 0 {
        var name := NameOf(t, Placeholder(from, m.value));
        assert forall i :: 0 <= i < |name| ==> name[i] == t[from + 1 + i];
      } else {
        PlaceholderShape(t, m.value, k - 1);
      }
    } else {
      PlaceholderShape(t, from + 1, k);
    }
  }

  /** `r` with `pre` in front of its text. */
  function After(pre: string, r: Result<string>): Result<string> {
    if r.Ok? then Ok(pre + r.value) else r
  }

  /** With the working copy equal to `pre` followed by the text from `from` on, and
      every replacement as long as its placeholder, the as-written loop builds the
      reference result after `pre`. */
  lemma {:induction false} SameLengthFrom(text: string, vars: Variables, phs: seq<Placeholder>, from: nat, pre: string)
    requires from <= |text| && Placed(text, phs, from) && |pre| == from
    requires forall k :: 0 <= k < |phs| && NameOf(text, phs[k]) in vars ==>
               |Strings.Concat(vars[NameOf(text, phs[k])])| == phs[k].end - phs[k].start
    ensures ApplyAsWritten(text, vars, phs, pre + text[from..]) == After(pre, SubstitutedFrom(text, vars, phs, from))
    decreases |phs|
  {
    if phs == [] {
      assert SubstitutedFrom(text, vars, phs, from) == Ok(text[from..]);
    } else if NameOf(text, phs[0]) in vars {
      var ph := phs[0];
      var value := Strings.Concat(vars[NameOf(text, ph)]);
      var piece := text[from..ph.start] + value;
      var next := pre + piece;
      assert Placed(text, phs[1..], ph.end);
      SameLengthFrom(text, vars, phs[1..], ph.end, next);
      AsWrittenStep(text, vars, phs, from, pre);
      SubstitutedUnfold(text, vars, phs, from);
      AfterAfter(pre, piece, SubstitutedFrom(text, vars, phs[1..], ph.end));
    }
  }

  /** The as-written loop on a working copy that still has the original text after
      `pre`, with a replacement as long as its placeholder. */
  lemma AsWrittenStep(text: string, vars: Variables, phs: seq<Placeholder>, from: nat, pre: string)
    requires from <= |text| && Placed(text, phs, from) && |pre| == from
    requires phs != [] && NameOf(text, phs[0]) in vars
    requires |Strings.Concat(vars[NameOf(text, phs[0])])| == phs[0].end - phs[0].start
    ensures var next := pre + (text[from..phs[0].start] + Strings.Concat(vars[NameOf(text, phs[0])]));
            ApplyAsWritten(text, vars, phs, pre + text[from..]) == ApplyAsWritten(text, vars, phs[1..], next + text[phs[0].end..])
  {
    var ph := phs[0];
    var value := Strings.Concat(vars[NameOf(text, ph)]);
    ReplaceInPlace(text, from, pre, ph, value);
    ApplyUnfold(text, vars, phs, pre + text[from..]);
    assert pre + text[from..ph.start] + value == pre + (text[from..ph.start] + value);
  }

  lemma ApplyUnfold(text: string, vars: Variables, phs: seq<Placeholder>, cur: string)
    requires phs != [] && (forall k :: 0 <= k < |phs| ==> WellFormed(text, phs[k]))
    requires NameOf(text, phs[0]) in vars && phs[0].end <= |cur|
    ensures ApplyAsWritten(text, vars, phs, cur) ==
            ApplyAsWritten(text, vars, phs[1..], cur[..phs[0].start] + Strings.Concat(vars[NameOf(text, phs[0])]) + cur[phs[0].end..])
  {
  }

  lemma SubstitutedUnfold(text: string, vars: Variables, phs: seq<Placeholder>, from: nat)
    requires from <= |text| && Placed(text, phs, from) && phs != [] && NameOf(text, phs[0]) in vars
    ensures SubstitutedFrom(text, vars, phs, from) ==
            After(text[from..phs[0].start] + Strings.Concat(vars[NameOf(text, phs[0])]),
                  SubstitutedFrom(text, vars, phs[1..], phs[0].end))
  {
    assert Placed(text, phs[1..], phs[0].end);
  }

  lemma AfterAfter(a: string, b: string, r: Result<string>)
    ensures After(a, After(b, r)) == After(a + b, r)
  {
    if r.Ok? {
      assert a + (b + r.value) == a + b + r.value;
    }
  }

  lemma ReplaceInPlace(text: string, from: nat, pre: string, ph: Placeholder, value: string)
    requires |pre| == from <= ph.start && ph.start + |value| == ph.end <= |text|
    ensures var cur := pre + text[from..];
            cur[..ph.start] + value + cur[ph.end..] == (pre + text[from..ph.start] + value) + text[ph.end..]
  {
    var cur := pre + text[from..];
    assert cur[..ph.start] == pre + text[from..ph.start];
    assert cur[ph.end..] == text[ph.end..];
  }

  /** Replacements as long as their placeholders: as written and correct agree. */
  lemma SameLengthAgrees(text: string, vars: Variables)
    requires var phs := Placeholders(text);
             forall k :: 0 <= k < |phs| && NameOf(text, phs[k]) in vars ==>
               |Strings.Concat(vars[NameOf(text, phs[k])])| == phs[k].end - phs[k].start
    ensures SubstitutedAsWritten(text, vars) == SubstitutedCorrectly(text, vars)
  {
    SameLengthFrom(text, vars, Placeholders(text), 0, "");
    assert "" + text[0..] == text;
    var r := SubstitutedCorrectly(text, vars);
    if r.Ok? {
      assert "" + r.value == r.value;
    }
  }

  /** A single placeholder: as written and correct agree whatever the replacement. */
  lemma SinglePlaceholderAgrees(text: string, vars: Variables)
    requires |Placeholders(text)| == 1
    ensures SubstitutedAsWritten(text, vars) == SubstitutedCorrectly(text, vars)
  {
    var phs := Placeholders(text);
    var ph := phs[0];
    assert phs[1..] == [];
    var name := NameOf(text, ph);
    if name in vars {
      var value := Strings.Concat(vars[name]);
      var next := text[..ph.start] + value + text[ph.end..];
      assert ReplaceRange(text, ph.start, ph.end, value) == Ok(next);
      assert ApplyAsWritten(text, vars, phs[1..], next) == Ok(next);
      assert SubstitutedAsWritten(text, vars) == Ok(text[..ph.start] + value + text[ph.end..]);
      assert text[0..ph.start] == text[..ph.start];
      assert SubstitutedFrom(text, vars, phs[1..], ph.end) == Ok(text[ph.end..]);
      assert SubstitutedCorrectly(text, vars) == Ok(text[0..ph.start] + value + text[ph.end..]);
    }
  }

  // ----- examples -----

  /** `"{x}"` with `x` unset fails naming `x`. */
  lemma MissingVariable(t: string, vars: Variables)
    requires t == "{x}" && "x" !in vars
    ensures SubstitutedAsWritten(t, vars) == Err(VariableNotFoundError("x"))
  {
    assert MatchAt(t, 0) == Some(3);
    assert Placeholders(t) == [Placeholder(0, 3)];
    assert NameOf(t, Placeholder(0, 3)) == "x";
  }

  /** A longer replacement pushes the second placeholder past the range the original
      text gave it: `"{x1}{x2}"` with x1 = "1" and x2 = "2345" panics in `replace_range`,
      where correct substitution gives "12345". */
  lemma LongerReplacementPanics(t: string, vars: Variables)
    requires t == "{x1}{x2}" && vars == map["x1" := ["1"], "x2" := ["2345"]]
    ensures SubstitutedAsWritten(t, vars) == Err(ReplaceRangePanic(4, 8, 5))
    ensures SubstitutedCorrectly(t, vars) == Ok("12345")
  {
    TwoPlaceholders(t);
    LongerAsWritten(t, vars);
    assert NameOf(t, Placeholder(0, 4)) == "x1";
    assert NameOf(t, Placeholder(4, 8)) == "x2";
    assert Strings.Concat(["1"]) == "1";
    assert Strings.Concat(["2345"]) == "2345";
    var phs := [Placeholder(0, 4), Placeholder(4, 8)];
    assert phs[1..] == [Placeholder(4, 8)];
    assert t[8..] == "" && t[4..4] == "";
    assert SubstitutedFrom(t, vars, [], 8) == Ok("");
    assert t[4..4] + "2345" + "" == "2345";
    assert SubstitutedFrom(t, vars, phs[1..], 4) == Ok("2345");
    assert t[0..0] + "1" + "2345" == "12345";
    assert SubstitutedFrom(t, vars, phs, 0) == Ok("12345");
  }

  lemma LongerAsWritten(t: string, vars: Variables)
    requires t == "{x1}{x2}" && vars == map["x1" := ["1"], "x2" := ["2345"]]
    requires Placeholders(t) == [Placeholder(0, 4), Placeholder(4, 8)]
    ensures SubstitutedAsWritten(t, vars) == Err(ReplaceRangePanic(4, 8, 5))
  {
    var phs := [Placeholder(0, 4), Placeholder(4, 8)];
    assert phs[1..] == [Placeholder(4, 8)];
    assert NameOf(t, Placeholder(0, 4)) == "x1";
    assert NameOf(t, Placeholder(4, 8)) == "x2";
    assert Strings.Concat(["1"]) == "1";
    assert Strings.Concat(["2345"]) == "2345";
    assert t[..0] + "1" + t[4..] == "1{x2}";
    assert ReplaceRange(t, 0, 4, "1") == Ok("1{x2}");
    assert ReplaceRange("1{x2}", 4, 8, "2345") == Err(ReplaceRangePanic(4, 8, 5));
    assert ApplyAsWritten(t, vars, phs[1..], "1{x2}") == Err(ReplaceRangePanic(4, 8, 5));
  }

  lemma TwoPlaceholders(t: string)
    requires t == "{x1}{x2}"
    ensures Placeholders(t) == [Placeholder(0, 4), Placeholder(4, 8)]
  {
    assert CloseFrom(t, 2) == Some(3);
    assert MatchAt(t, 0) == Some(4);
    assert CloseFrom(t, 6) == Some(7);
    assert MatchAt(t, 4) == Some(8);
    assert PlaceholdersFrom(t, 8) == [];
    assert PlaceholdersFrom(t, 4) == [Placeholder(4, 8)];
  }

  /** A shorter replacement makes the second range cover the wrong text: `"{a}{b}xyz"`
      with a = "" and b = "B" gives "{b}B" ... */
  lemma ShorterReplacementMisplaces(t: string, vars: Variables)
    requires t == "{a}{b}xyz" && vars == map["a" := [""], "b" := ["B"]]
    ensures SubstitutedAsWritten(t, vars) == Ok("{b}B")
  {
    PlaceholdersOfShorter(t);
    assert NameOf(t, Placeholder(0, 3)) == "a";
    assert NameOf(t, Placeholder(3, 6)) == "b";
    assert Strings.Concat([""]) == "";
    assert Strings.Concat(["B"]) == "B";
    var phs := [Placeholder(0, 3), Placeholder(3, 6)];
    assert phs[1..] == [Placeholder(3, 6)];
    assert t[..0] + "" + t[3..] == "{b}xyz";
    assert ReplaceRange(t, 0, 3, "") == Ok("{b}xyz");
    var u := "{b}xyz";
    assert u[..3] + "B" + u[6..] == "{b}B";
    assert ReplaceRange(u, 3, 6, "B") == Ok("{b}B");
    assert ApplyAsWritten(t, vars, phs[1..], u) == Ok("{b}B");
  }

  /** ... where correct substitution gives "Bxyz". */
  lemma ShorterReplacementCorrectly(t: string, vars: Variables)
    requires t == "{a}{b}xyz" && vars == map["a" := [""], "b" := ["B"]]
    ensures SubstitutedCorrectly(t, vars) == Ok("Bxyz")
  {
    PlaceholdersOfShorter(t);
    assert NameOf(t, Placeholder(0, 3)) == "a";
    assert NameOf(t, Placeholder(3, 6)) == "b";
    assert Strings.Concat([""]) == "";
    assert Strings.Concat(["B"]) == "B";
    var phs := [Placeholder(0, 3), Placeholder(3, 6)];
    assert phs[1..] == [Placeholder(3, 6)];
    assert t[6..] == "xyz";
    assert SubstitutedFrom(t, vars, [], 6) == Ok("xyz");
    assert t[3..3] + "B" + "xyz" == "Bxyz";
    assert SubstitutedFrom(t, vars, phs[1..], 3) == Ok("Bxyz");
    assert t[0..0] + "" + "Bxyz" == "Bxyz";
    assert SubstitutedFrom(t, vars, phs, 0) == Ok("Bxyz");
  }

  lemma PlaceholdersOfShorter(t: string)
    requires t == "{a}{b}xyz"
    ensures Placeholders(t) == [Placeholder(0, 3), Placeholder(3, 6)]
  {
    assert CloseFrom(t, 2) == Some(2);
    assert MatchAt(t, 0) == Some(3);
    assert CloseFrom(t, 5) == Some(5);
    assert MatchAt(t, 3) == Some(6);
    assert PlaceholdersFrom(t, 8) == [];
    assert PlaceholdersFrom(t, 7) == [];
    assert PlaceholdersFrom(t, 6) == [];
    assert PlaceholdersFrom(t, 3) == [Placeholder(3, 6)];
  }
}
