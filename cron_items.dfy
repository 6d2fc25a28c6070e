// What the item parser of src/daemon/cron.rs makes of any digits it is given: each form
// of item is read exactly when its numbers fit the bounds of the field, and is refused
// otherwise, with a cut once the form is recognised and by backtracking for a lone
// number. These are the rules behind the tests of invalid minutes, hours, days, months,
// steps and ranges.

module CronItems {
  import Strings
  import L = Lexer
  import opened BoundedBytes
  import opened Cron
  import opened CronSyntax

  /** `t` does not continue a run of digits. */
  predicate EndsDigits(t: string) {
    t == [] || !Strings.IsDigit(t[0])
  }

  /** The digits `d` are a number in `lo..=hi`. */
  predicate InBounds(lo: u8, hi: u8, d: string)
    requires Strings.AllDigits(d)
  {
    d != [] && lo as nat <= Strings.DecimalValue(d) <= hi as nat
  }

  /** The digits `d` are a step that `stepped::<L, H>` accepts. */
  predicate StepInBounds(lo: u8, hi: u8, d: string)
    requires Strings.AllDigits(d)
  {
    InBounds(lo, hi, d) && Strings.DecimalValue(d) > 0
  }

  /** The byte that digits in bounds stand for. */
  function Byte(d: string): u8
    requires Strings.AllDigits(d) && Strings.DecimalValue(d) < 256
  {
    Strings.DecimalValue(d) as u8
  }

  // ----- numbers -----

  /** `digit1.parse_to::<u8>()` reads all the digits, and fails when there are none or
      their value does not fit a byte. */
  lemma DigitsRead(d: string, t: string)
    requires Strings.AllDigits(d) && EndsDigits(t)
    ensures ParseDigitsU8(d + t)
            == if d != [] && Strings.DecimalValue(d) < 256 then Parsed(Byte(d), t) else Backtrack
  {
    SpanAppend(d, t, Strings.IsDigit);
    assert (d + t)[..|d|] == d && (d + t)[|d|..] == t;
    if d != [] {
      assert !Strings.IsDigit('+');
    }
  }

  lemma NumberRead(lo: u8, hi: u8, d: string, t: string)
    requires Strings.AllDigits(d) && EndsDigits(t)
    ensures ParseNumber(lo, hi, d + t) == if InBounds(lo, hi, d) then Parsed(Byte(d), t) else Backtrack
  {
    DigitsRead(d, t);
  }

  lemma StepRead(lo: u8, hi: u8, d: string, t: string)
    requires Strings.AllDigits(d) && EndsDigits(t)
    ensures ParseStep(lo, hi, "/" + (d + t)) == if StepInBounds(lo, hi, d) then Parsed(Byte(d), t) else Backtrack
  {
    assert ("/" + (d + t))[1..] == d + t;
    DigitsRead(d, t);
  }

  /** The `peek` of digits and a character sees the character after all the digits. */
  lemma DigitsStop(d: string, t: string, c: char)
    requires Strings.AllDigits(d) && EndsDigits(t)
    ensures DigitsThen(d + t, c) <==> d != [] && t != [] && t[0] == c
  {
    SpanAppend(d, t, Strings.IsDigit);
    if t != [] {
      assert (d + t)[|d|] == t[0];
    }
  }

  // ----- items -----

  /** A lone number is a `Single` when it is in bounds; otherwise every alternative
      backtracks. */
  lemma SingleItem(lo: u8, hi: u8, d: string, t: string)
    requires Strings.AllDigits(d) && d != [] && Follows(t)
    ensures ParseItem(lo, hi, d + t)
            == if InBounds(lo, hi, d) then Parsed(Single(BoundedU8(Byte(d))), t) else Backtrack
  {
    DigitsStop(d, t, '-');
    DigitsStop(d, t, '/');
    NumberRead(lo, hi, d, t);
    assert (d + t)[0] == d[0];
  }

  /** A star, a slash and a step: an `AnyStepped` when the step is in bounds, a cut
      otherwise (also when the step is missing). */
  lemma StarStepItem(lo: u8, hi: u8, d: string, t: string)
    requires Strings.AllDigits(d) && Follows(t)
    ensures ParseItem(lo, hi, "*/" + (d + t))
            == if StepInBounds(lo, hi, d) then Parsed(AnyStepped(UpperBoundedNonZeroU8(Byte(d))), t) else Cut
  {
    var s := "*/" + (d + t);
    assert s[0] == '*' && s[1] == '/' && s[1..] == "/" + (d + t);
    assert L.Span(s, Strings.IsDigit) == 0;
    StepRead(lo, hi, d, t);
  }

  /** A number, `/` and a step: a `SingleStepped` when both are in bounds, a cut
      otherwise. */
  lemma SingleStepItem(lo: u8, hi: u8, n: string, d: string, t: string)
    requires Strings.AllDigits(n) && n != [] && Strings.AllDigits(d) && Follows(t)
    ensures ParseItem(lo, hi, n + ("/" + (d + t)))
            == if InBounds(lo, hi, n) && StepInBounds(lo, hi, d)
               then Parsed(SingleStepped(BoundedU8(Byte(n)), UpperBoundedNonZeroU8(Byte(d))), t)
               else Cut
  {
    var after := "/" + (d + t);
    DigitsStop(n, after, '-');
    DigitsStop(n, after, '/');
    NumberRead(lo, hi, n, after);
    StepRead(lo, hi, d, t);
    assert (n + after)[0] == n[0];
  }

  /** The range part `a-b`: a checked range when both ends are in bounds and in order,
      a cut otherwise (also when the end is missing). */
  lemma RangeRead(lo: u8, hi: u8, a: string, b: string, t: string)
    requires Strings.AllDigits(a) && a != [] && Strings.AllDigits(b) && EndsDigits(t)
    ensures ParseRange(lo, hi, a + ("-" + (b + t)))
            == if InBounds(lo, hi, a) && InBounds(lo, hi, b) && Strings.DecimalValue(a) <= Strings.DecimalValue(b)
               then Parsed(Range(BoundedU8RangeInclusive(Byte(a), Byte(b))), t)
               else Cut
  {
    var after := "-" + (b + t);
    DigitsStop(a, after, '-');
    NumberRead(lo, hi, a, after);
    if InBounds(lo, hi, a) {
      assert after[1..] == b + t;
      NumberRead(lo, hi, b, t);
    }
  }

  lemma RangeItem(lo: u8, hi: u8, a: string, b: string, t: string)
    requires Strings.AllDigits(a) && a != [] && Strings.AllDigits(b) && Follows(t)
    ensures ParseItem(lo, hi, a + ("-" + (b + t)))
            == if InBounds(lo, hi, a) && InBounds(lo, hi, b) && Strings.DecimalValue(a) <= Strings.DecimalValue(b)
               then Parsed(Range(BoundedU8RangeInclusive(Byte(a), Byte(b))), t)
               else Cut
  {
    var after := "-" + (b + t);
    RangeRead(lo, hi, a, b, t);
    DigitsStop(a, after, '/');
    assert (a + after)[0] == a[0];
  }

  /** A range, `/` and a step: a `RangeStepped` when the range and the step are in
      bounds, a cut otherwise. */
  lemma RangeStepItem(lo: u8, hi: u8, a: string, b: string, d: string, t: string)
    requires Strings.AllDigits(a) && a != [] && Strings.AllDigits(b) && Strings.AllDigits(d) && Follows(t)
    ensures ParseItem(lo, hi, a + ("-" + (b + ("/" + (d + t)))))
            == if InBounds(lo, hi, a) && InBounds(lo, hi, b) && Strings.DecimalValue(a) <= Strings.DecimalValue(b)
                  && StepInBounds(lo, hi, d)
               then Parsed(RangeStepped(BoundedU8RangeInclusive(Byte(a), Byte(b)), UpperBoundedNonZeroU8(Byte(d))), t)
               else Cut
  {
    var stepped := "/" + (d + t);
    var after := "-" + (b + stepped);
    RangeRead(lo, hi, a, b, stepped);
    StepRead(lo, hi, d, t);
    DigitsStop(a, after, '/');
    assert (a + after)[0] == a[0];
  }
}
