// Decimal rendering of numbers and joining of string lists, as the interpreter uses them
// (`format!("{}", i + 1)` for positional variable names, `join("")` for variable values).

module Strings {

  predicate IsDigit(c: char) {
    '0' <= c <= '9'
  }

  predicate AllDigits(s: string) {
    forall i :: 0 <= i < |s| ==> IsDigit(s[i])
  }

  function DigitChar(d: nat): (c: char)
    requires d < 10
    ensures IsDigit(c)
  {
    ['0', '1', '2', '3', '4', '5', '6', '7', '8', '9'][d]
  }

  function DigitValue(c: char): (d: nat)
    requires IsDigit(c)
    ensures d < 10 && DigitChar(d) == c
  {
    (c as int - '0' as int) as nat
  }

  /** The value of a string of decimal digits, read left to right. */
  function DecimalValue(s: string): nat
    requires AllDigits(s)
  {
    if s == [] then 0 else DecimalValue(s[..|s| - 1]) * 10 + DigitValue(s[|s| - 1])
  }

  /** `format!("{}", n)`: decimal digits, no leading zero. */
  function NatToString(n: nat): (s: string)
    ensures s != [] && AllDigits(s)
    ensures |s| > 1 ==> s[0] != '0'
  {
    if n < 10 then [DigitChar(n)] else NatToString(n / 10) + [DigitChar(n % 10)]
  }

  /** Reading back a rendered number gives the number. */
  lemma {:induction false} DecimalValueOfNatToString(n: nat)
    ensures DecimalValue(NatToString(n)) == n
  {
    var s := NatToString(n);
    if n >= 10 {
      assert s[..|s| - 1] == NatToString(n / 10);
      DecimalValueOfNatToString(n / 10);
    }
  }

  /** Different numbers render to different strings, so `format!("{}", i + 1)` names
      a distinct variable for every positional argument. */
  lemma NatToStringInjective(m: nat, n: nat)
    ensures NatToString(m) == NatToString(n) ==> m == n
  {
    DecimalValueOfNatToString(m);
    DecimalValueOfNatToString(n);
  }

  /** `slice.join("")`. */
  function Concat(ss: seq<string>): (r: string)
    ensures |r| == SumOfLengths(ss)
  {
    if ss == [] then [] else ss[0] + Concat(ss[1..])
  }

  function SumOfLengths(ss: seq<string>): nat {
    if ss == [] then 0 else |ss[0]| + SumOfLengths(ss[1..])
  }

  lemma {:induction false} ConcatAppend(ss: seq<string>, ts: seq<string>)
    ensures Concat(ss + ts) == Concat(ss) + Concat(ts)
  {
    if ss == [] {
      assert ss + ts == ts;
    } else {
      assert (ss + ts)[1..] == ss[1..] + ts;
      ConcatAppend(ss[1..], ts);
    }
  }

  /** Concatenation is associative; proofs call this where the solver would otherwise
      regroup a concatenation element by element. */
  lemma ConcatAssoc<T>(a: seq<T>, b: seq<T>, c: seq<T>)
    ensures a + b + c == a + (b + c)
  {
  }

  /** `slice.join(sep)`: the strings with `sep` between neighbours. */
  function JoinWith(ss: seq<string>, sep: string): (r: string)
    ensures |ss| > 0 ==> |r| == SumOfLengths(ss) + |sep| * (|ss| - 1)
  {
    if ss == [] then []
    else if |ss| == 1 then ss[0]
    else ss[0] + sep + JoinWith(ss[1..], sep)
  }

  /** Appending one more string to a non-empty list adds the separator and that string
      at the end of the joined text. */
  lemma {:induction false} JoinWithAppend(ss: seq<string>, t: string, sep: string)
    requires ss != []
    ensures JoinWith(ss + [t], sep) == JoinWith(ss, sep) + sep + t
  {
    if |ss| == 1 {
      assert (ss + [t])[1..] == [t];
    } else {
      assert (ss + [t])[1..] == ss[1..] + [t];
      JoinWithAppend(ss[1..], t, sep);
    }
  }

  /** With an empty separator joining is concatenation. */
  lemma {:induction false} JoinWithEmpty(ss: seq<string>)
    ensures JoinWith(ss, "") == Concat(ss)
  {
    if |ss| == 1 {
      assert Concat(ss[1..]) == [];
    } else if |ss| > 1 {
      JoinWithEmpty(ss[1..]);
    }
  }

  predicate IsPrefix<T(==)>(p: seq<T>, s: seq<T>) {
    |p| <= |s| && s[..|p|] == p
  }

  /** `s` is `t` with some elements left out, the rest in their order. */
  predicate IsSubsequence<T(==)>(s: seq<T>, t: seq<T>)
    decreases |t|
  {
    s == [] || (t != [] && ((s[0] == t[0] && IsSubsequence(s[1..], t[1..])) || IsSubsequence(s, t[1..])))
  }
}
