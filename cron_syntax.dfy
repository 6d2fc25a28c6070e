// Cron specs written out and read back: the text the tests of src/daemon/cron.rs
// generate for a spec parses to that very spec, whatever spaces surround and separate
// the fields; and the malformed items the tests try are refused.

module CronSyntax {
  import opened Wrappers
  import opened Errors
  import Strings
  import L = Lexer
  import opened BoundedBytes
  import opened Cron

  /** `format!("{}", n)`. */
  function Decimal(n: u8): string {
    Strings.NatToString(n as nat)
  }

  /** `Item::to_syntax` of the tests. */
  function ItemSyntax(item: CronSpecItem): string {
    match item
    case Any => "*"
    case AnyStepped(step) => "*/" + Decimal(step.value)
    case Single(n) => Decimal(n.value)
    case SingleStepped(n, step) => Decimal(n.value) + "/" + Decimal(step.value)
    case Range(r) => Decimal(r.start) + "-" + Decimal(r.end)
    case RangeStepped(r, step) => Decimal(r.start) + "-" + Decimal(r.end) + "/" + Decimal(step.value)
  }

  function Syntaxes(items: seq<CronSpecItem>): seq<string> {
    seq(|items|, i requires 0 <= i < |items| => ItemSyntax(items[i]))
  }

  /** The items of a field joined by commas. */
  function FieldSyntax(items: seq<CronSpecItem>): string {
    Strings.JoinWith(Syntaxes(items), ",")
  }

  /** Each string preceded by a comma. */
  function Commas(ss: seq<string>): string {
    if ss == [] then "" else "," + ss[0] + Commas(ss[1..])
  }

  predicate AllSpaces(g: string) {
    forall j :: 0 <= j < |g| ==> IsSpace(g[j])
  }

  /** Where the spaces go: before the first field, between the fields (at least one
      space each) and after the last. */
  predicate Layout(gaps: seq<string>) {
    |gaps| == 6 && (forall i :: 0 <= i < 6 ==> AllSpaces(gaps[i]))
    && forall i :: 1 <= i < 5 ==> gaps[i] != []
  }

  /** The spec written with the given spaces. */
  function Written(spec: CronSpec, gaps: seq<string>): string
    requires |gaps| == 6
  {
    gaps[0] + (FieldSyntax(spec.minute) + (gaps[1] + (FieldSyntax(spec.hour) + (gaps[2]
    + (FieldSyntax(spec.dayOfMonth) + (gaps[3] + (FieldSyntax(spec.month) + (gaps[4]
    + (FieldSyntax(spec.dayOfWeek) + gaps[5])))))))))
  }

  /** `ValidSpec::to_syntax` of the tests: single spaces between the fields. */
  function ToSyntax(spec: CronSpec): string {
    Written(spec, ["", " ", " ", " ", " ", ""])
  }

  /** What may follow an item: nothing, a comma or a space. */
  predicate Follows(rest: string) {
    rest == [] || rest[0] == ',' || IsSpace(rest[0])
  }

  // ----- reading numbers -----

  lemma {:induction false} SpanAppend(a: string, t: string, p: char -> bool)
    requires forall i :: 0 <= i < |a| ==> p(a[i])
    requires t == [] || !p(t[0])
    ensures L.Span(a + t, p) == |a|
  {
    if a != [] {
      assert (a + t)[1..] == a[1..] + t;
      SpanAppend(a[1..], t, p);
    } else {
      assert a + t == t;
    }
  }

  /** `digit1.parse_to::<u8>()` reads a byte written in decimal and stops before the
      next non-digit. */
  lemma DecimalThen(n: u8, t: string)
    requires t == [] || !Strings.IsDigit(t[0])
    ensures ParseDigitsU8(Decimal(n) + t) == Parsed(n, t)
  {
    var a := Decimal(n);
    SpanAppend(a, t, Strings.IsDigit);
    assert (a + t)[..|a|] == a && (a + t)[|a|..] == t;
    ParseU8Decimal(n);
  }

  lemma DigitsThenAfter(n: u8, t: string, c: char)
    requires t == [] || !Strings.IsDigit(t[0])
    ensures DigitsThen(Decimal(n) + t, c) <==> t != [] && t[0] == c
  {
    var a := Decimal(n);
    SpanAppend(a, t, Strings.IsDigit);
    if t != [] {
      assert (a + t)[|a|] == t[0];
    }
  }

  lemma NumberThen(lo: u8, hi: u8, n: u8, t: string)
    requires lo <= n <= hi && (t == [] || !Strings.IsDigit(t[0]))
    ensures ParseNumber(lo, hi, Decimal(n) + t) == Parsed(n, t)
  {
    DecimalThen(n, t);
  }

  /** A step `/n` with `n` in `1..=hi` (and at least `lo`, which is at most 1 in every
      field) is read up to the next non-digit. */
  lemma StepThen(lo: u8, hi: u8, n: u8, t: string)
    requires lo <= 1 <= n <= hi && (t == [] || !Strings.IsDigit(t[0]))
    ensures ParseStep(lo, hi, "/" + (Decimal(n) + t)) == Parsed(n, t)
  {
    DecimalThen(n, t);
    assert ("/" + (Decimal(n) + t))[1..] == Decimal(n) + t;
  }

  // ----- items -----

  lemma AnyRoundTrip(lo: u8, hi: u8, rest: string)
    requires Follows(rest)
    ensures ParseItem(lo, hi, "*" + rest) == Parsed(Any, rest)
  {
    var s := "*" + rest;
    assert L.Span(s, Strings.IsDigit) == 0;
    assert s[1..] == rest;
  }

  lemma AnySteppedRoundTrip(lo: u8, hi: u8, step: UpperBoundedNonZeroU8, rest: string)
    requires lo <= 1 <= step.value <= hi && Follows(rest)
    ensures ParseItem(lo, hi, "*/" + Decimal(step.value) + rest) == Parsed(AnyStepped(step), rest)
  {
    var s := "*/" + Decimal(step.value) + rest;
    assert L.Span(s, Strings.IsDigit) == 0;
    assert s[1..] == "/" + (Decimal(step.value) + rest);
    StepThen(lo, hi, step.value, rest);
  }

  lemma SingleRoundTrip(lo: u8, hi: u8, n: BoundedU8, rest: string)
    requires lo <= n.value <= hi && Follows(rest)
    ensures ParseItem(lo, hi, Decimal(n.value) + rest) == Parsed(Single(n), rest)
  {
    var s := Decimal(n.value) + rest;
    DigitsThenAfter(n.value, rest, '-');
    DigitsThenAfter(n.value, rest, '/');
    assert s[0] != '*';
    NumberThen(lo, hi, n.value, rest);
  }

  lemma SingleSteppedRoundTrip(lo: u8, hi: u8, n: BoundedU8, step: UpperBoundedNonZeroU8, rest: string)
    requires lo <= n.value <= hi && lo <= 1 <= step.value <= hi && Follows(rest)
    ensures ParseItem(lo, hi, Decimal(n.value) + "/" + Decimal(step.value) + rest)
            == Parsed(SingleStepped(n, step), rest)
  {
    var after := "/" + (Decimal(step.value) + rest);
    var s := Decimal(n.value) + after;
    Strings.ConcatAssoc(Decimal(n.value) + "/", Decimal(step.value), rest);
    Strings.ConcatAssoc(Decimal(n.value), "/", Decimal(step.value) + rest);
    DigitsThenAfter(n.value, after, '-');
    DigitsThenAfter(n.value, after, '/');
    NumberThen(lo, hi, n.value, after);
    StepThen(lo, hi, step.value, rest);
  }

  /** The range part `a-b` of a range item is read into its checked range. */
  lemma RangeThen(lo: u8, hi: u8, r: BoundedU8RangeInclusive, t: string)
    requires lo <= r.start <= r.end <= hi && (t == [] || !Strings.IsDigit(t[0]))
    ensures ParseRange(lo, hi, Decimal(r.start) + ("-" + (Decimal(r.end) + t))) == Parsed(Range(r), t)
  {
    var after := "-" + (Decimal(r.end) + t);
    DigitsThenAfter(r.start, after, '-');
    NumberThen(lo, hi, r.start, after);
    assert after[1..] == Decimal(r.end) + t;
    NumberThen(lo, hi, r.end, t);
  }

  lemma RangeRoundTrip(lo: u8, hi: u8, r: BoundedU8RangeInclusive, rest: string)
    requires lo <= r.start <= r.end <= hi && Follows(rest)
    ensures ParseItem(lo, hi, Decimal(r.start) + "-" + Decimal(r.end) + rest) == Parsed(Range(r), rest)
  {
    var after := "-" + (Decimal(r.end) + rest);
    var s := Decimal(r.start) + after;
    Strings.ConcatAssoc(Decimal(r.start) + "-", Decimal(r.end), rest);
    Strings.ConcatAssoc(Decimal(r.start), "-", Decimal(r.end) + rest);
    RangeThen(lo, hi, r, rest);
    DigitsThenAfter(r.start, after, '/');
  }

  lemma RangeSteppedRoundTrip(lo: u8, hi: u8, r: BoundedU8RangeInclusive, step: UpperBoundedNonZeroU8, rest: string)
    requires lo <= r.start <= r.end <= hi && lo <= 1 <= step.value <= hi && Follows(rest)
    ensures ParseItem(lo, hi, Decimal(r.start) + "-" + Decimal(r.end) + "/" + Decimal(step.value) + rest)
            == Parsed(RangeStepped(r, step), rest)
  {
    var stepped := "/" + (Decimal(step.value) + rest);
    var s := Decimal(r.start) + ("-" + (Decimal(r.end) + stepped));
    Strings.ConcatAssoc(Decimal(r.start) + "-" + Decimal(r.end) + "/", Decimal(step.value), rest);
    Strings.ConcatAssoc(Decimal(r.start) + "-" + Decimal(r.end), "/", Decimal(step.value) + rest);
    Strings.ConcatAssoc(Decimal(r.start) + "-", Decimal(r.end), stepped);
    Strings.ConcatAssoc(Decimal(r.start), "-", Decimal(r.end) + stepped);
    RangeThen(lo, hi, r, stepped);
    StepThen(lo, hi, step.value, rest);
    assert ParseRangeStepped(lo, hi, s) == Parsed(RangeStepped(r, step), rest);
  }

  /** Every item of a field whose lower bound is at most 1 reads back from its syntax,
      whatever may follow it. */
  lemma ItemRoundTrip(lo: u8, hi: u8, item: CronSpecItem, rest: string)
    requires Inhabits(item, lo, hi) && lo <= 1 && Follows(rest)
    ensures ParseItem(lo, hi, ItemSyntax(item) + rest) == Parsed(item, rest)
  {
    match item
    case Any => AnyRoundTrip(lo, hi, rest);
    case AnyStepped(step) => AnySteppedRoundTrip(lo, hi, step, rest);
    case Single(n) => SingleRoundTrip(lo, hi, n, rest);
    case SingleStepped(n, step) => SingleSteppedRoundTrip(lo, hi, n, step, rest);
    case Range(r) => RangeRoundTrip(lo, hi, r, rest);
    case RangeStepped(r, step) => RangeSteppedRoundTrip(lo, hi, r, step, rest);
  }

  // ----- fields -----

  /** Joining with commas is the first string followed by each other one after its comma. */
  lemma {:induction false} JoinCommas(ss: seq<string>)
    requires |ss| > 0
    ensures Strings.JoinWith(ss, ",") == ss[0] + Commas(ss[1..])
    decreases |ss|
  {
    if |ss| == 1 {
      assert ss[0] + Commas(ss[1..]) == ss[0] + "";
    } else {
      var tail := ss[1..];
      JoinCommas(tail);
      assert tail[1..] == ss[2..];
      Strings.ConcatAssoc(ss[0], ",", ss[1] + Commas(ss[2..]));
      Strings.ConcatAssoc(",", ss[1], Commas(ss[2..]));
    }
  }

  lemma SyntaxesTail(items: seq<CronSpecItem>)
    requires |items| > 0
    ensures Syntaxes(items)[0] == ItemSyntax(items[0]) && Syntaxes(items)[1..] == Syntaxes(items[1..])
  {
  }

  /** A comma list is empty or starts with its comma. */
  lemma CommasStart(ss: seq<string>, rest: string)
    requires rest == [] || IsSpace(rest[0])
    ensures Follows(Commas(ss) + rest)
  {
    if ss == [] {
      assert Commas(ss) + rest == rest;
    } else {
      assert (Commas(ss) + rest)[0] == ',';
    }
  }

  /** The items after the first, each after its comma, are read in order. */
  lemma {:induction false} MoreItemsRoundTrip(lo: u8, hi: u8, acc: seq<CronSpecItem>, items: seq<CronSpecItem>, rest: string)
    requires FieldOf(acc, lo, hi) && FieldOf(items, lo, hi) && lo <= 1
    requires rest == [] || IsSpace(rest[0])
    ensures MoreItems(lo, hi, acc, Commas(Syntaxes(items)) + rest) == Parsed(acc + items, rest)
    decreases |items|
  {
    if items == [] {
      MoreItemsEnd(lo, hi, acc, rest);
    } else {
      MoreItemsRoundTrip(lo, hi, acc + [items[0]], items[1..], rest);
      MoreItemsStep(lo, hi, acc, items, rest);
    }
  }

  lemma MoreItemsEnd(lo: u8, hi: u8, acc: seq<CronSpecItem>, rest: string)
    requires FieldOf(acc, lo, hi)
    requires rest == [] || IsSpace(rest[0])
    ensures MoreItems(lo, hi, acc, Commas(Syntaxes([])) + rest) == Parsed(acc + [], rest)
  {
    var none: seq<CronSpecItem> := [];
    assert Syntaxes(none) == [];
    assert Commas(Syntaxes(none)) == [];
    assert Commas(Syntaxes(none)) + rest == rest;
    assert acc + none == acc;
  }

  /** One item and its comma. */
  lemma MoreItemsStep(lo: u8, hi: u8, acc: seq<CronSpecItem>, items: seq<CronSpecItem>, rest: string)
    requires FieldOf(acc, lo, hi) && FieldOf(items, lo, hi) && |items| > 0 && lo <= 1
    requires rest == [] || IsSpace(rest[0])
    ensures MoreItems(lo, hi, acc, Commas(Syntaxes(items)) + rest)
            == MoreItems(lo, hi, acc + [items[0]], Commas(Syntaxes(items[1..])) + rest)
    ensures acc + [items[0]] + items[1..] == acc + items
  {
    var after := Commas(Syntaxes(items[1..])) + rest;
    CommasCons(items, rest);
    ItemRoundTrip(lo, hi, items[0], after);
    SnocAppend(acc, items);
  }

  lemma CommasCons(items: seq<CronSpecItem>, rest: string)
    requires |items| > 0 && (rest == [] || IsSpace(rest[0]))
    ensures var after := Commas(Syntaxes(items[1..])) + rest;
            Follows(after)
            && Commas(Syntaxes(items)) + rest == "," + (ItemSyntax(items[0]) + after)
            && ("," + (ItemSyntax(items[0]) + after))[1..] == ItemSyntax(items[0]) + after
  {
    var ss := Syntaxes(items);
    SyntaxesTail(items);
    CommasStart(ss[1..], rest);
    Strings.ConcatAssoc("," + ss[0], Commas(ss[1..]), rest);
    Strings.ConcatAssoc(",", ss[0], Commas(ss[1..]) + rest);
    assert ("," + (ss[0] + (Commas(ss[1..]) + rest)))[1..] == ss[0] + (Commas(ss[1..]) + rest);
  }

  lemma SnocAppend<T>(acc: seq<T>, items: seq<T>)
    requires |items| > 0
    ensures acc + [items[0]] + items[1..] == acc + items
  {
  }

  /** A field reads back from its syntax when a space or the end follows it. */
  lemma ItemListRoundTrip(lo: u8, hi: u8, items: seq<CronSpecItem>, rest: string)
    requires |items| > 0 && FieldOf(items, lo, hi) && lo <= 1
    requires rest == [] || IsSpace(rest[0])
    ensures ItemList(lo, hi, FieldSyntax(items) + rest) == Parsed(items, rest)
  {
    var after := Commas(Syntaxes(items[1..])) + rest;
    FieldSyntaxSplit(items, rest);
    ItemRoundTrip(lo, hi, items[0], after);
    MoreItemsRoundTrip(lo, hi, [items[0]], items[1..], rest);
  }

  lemma FieldSyntaxSplit(items: seq<CronSpecItem>, rest: string)
    requires |items| > 0 && (rest == [] || IsSpace(rest[0]))
    ensures var after := Commas(Syntaxes(items[1..])) + rest;
            Follows(after) && FieldSyntax(items) + rest == ItemSyntax(items[0]) + after
            && [items[0]] + items[1..] == items
  {
    var ss := Syntaxes(items);
    JoinCommas(ss);
    SyntaxesTail(items);
    CommasStart(ss[1..], rest);
    Strings.ConcatAssoc(ss[0], Commas(ss[1..]), rest);
  }

  lemma ItemSyntaxStart(item: CronSpecItem)
    ensures |ItemSyntax(item)| > 0 && !IsSpace(ItemSyntax(item)[0]) && ItemSyntax(item)[0] != ','
  {
    var n: u8 :| true;
    assert Strings.IsDigit(Decimal(n)[0]);
  }

  lemma FieldSyntaxStart(items: seq<CronSpecItem>)
    requires |items| > 0
    ensures |FieldSyntax(items)| > 0 && !IsSpace(FieldSyntax(items)[0])
  {
    JoinCommas(Syntaxes(items));
    SyntaxesTail(items);
    ItemSyntaxStart(items[0]);
    assert FieldSyntax(items)[0] == ItemSyntax(items[0])[0];
  }

  /** Spaces skip to the text after them. */
  lemma SkipGap(g: string, t: string)
    requires AllSpaces(g) && (t == [] || !IsSpace(t[0]))
    ensures L.Span(g + t, IsSpace) == |g| && SkipSpaces(g + t) == t
  {
    SpanAppend(g, t, IsSpace);
    assert (g + t)[|g|..] == t;
  }

  /** One field after the spaces that separate it from the one before. */
  lemma SpacedRoundTrip(lo: u8, hi: u8, gap: string, items: seq<CronSpecItem>, rest: string)
    requires gap != [] && AllSpaces(gap) && |items| > 0 && FieldOf(items, lo, hi) && lo <= 1
    requires rest == [] || IsSpace(rest[0])
    ensures SpacedItemList(lo, hi, gap + (FieldSyntax(items) + rest)) == Parsed(items, rest)
  {
    FieldSyntaxStart(items);
    assert (FieldSyntax(items) + rest)[0] == FieldSyntax(items)[0];
    SkipGap(gap, FieldSyntax(items) + rest);
    ItemListRoundTrip(lo, hi, items, rest);
  }

  lemma GapStart(gaps: seq<string>, i: nat, t: string)
    requires Layout(gaps) && 1 <= i < 5
    ensures IsSpace((gaps[i] + t)[0])
  {
    assert (gaps[i] + t)[0] == gaps[i][0];
  }

  /**
   * The round trip of the tests `test_arbitrary_valid` and
   * `test_arbitrary_valid_extra_whitespace`: every spec the parser can build, written
   * out with any spaces around and between its fields, reads back as itself.
   */
  lemma RoundTrip(spec: CronSpec, gaps: seq<string>)
    requires WellFormed(spec) && Layout(gaps)
    ensures FromStr(Written(spec, gaps)) == Ok(spec)
  {
    var t1 := gaps[1] + (FieldSyntax(spec.hour) + Rest(spec, gaps, 2));
    var f1 := FieldSyntax(spec.minute) + t1;
    var w := Written(spec, gaps);
    assert w == gaps[0] + f1;
    FieldSyntaxStart(spec.minute);
    assert f1[0] == FieldSyntax(spec.minute)[0];
    SkipGap(gaps[0], f1);
    GapStart(gaps, 1, FieldSyntax(spec.hour) + Rest(spec, gaps, 2));
    ItemListRoundTrip(0, 59, spec.minute, t1);
    LaterFields(spec, gaps);
    ParseCronspecOf(w, spec, t1, Rest(spec, gaps, 2), Rest(spec, gaps, 3), Rest(spec, gaps, 4), gaps[5]);
  }

  /** `parse_cronspec` is its five fields read one after the other. */
  lemma ParseCronspecOf(s: string, spec: CronSpec, r1: string, r2: string, r3: string, r4: string, r5: string)
    requires ItemList(0, 59, SkipSpaces(s)) == Parsed(spec.minute, r1)
    requires SpacedItemList(0, 23, r1) == Parsed(spec.hour, r2)
    requires SpacedItemList(1, 31, r2) == Parsed(spec.dayOfMonth, r3)
    requires SpacedItemList(1, 12, r3) == Parsed(spec.month, r4)
    requires SpacedItemList(1, 7, r4) == Parsed(spec.dayOfWeek, r5)
    ensures ParseCronspec(s) == Parsed(spec, SkipSpaces(r5))
  {
  }

  /** The text from gap `i` on, for `i` from 2 to 5. */
  function Rest(spec: CronSpec, gaps: seq<string>, i: nat): string
    requires |gaps| == 6 && 2 <= i <= 5
    decreases 5 - i
  {
    if i == 5 then gaps[5]
    else if i == 4 then gaps[4] + (FieldSyntax(spec.dayOfWeek) + gaps[5])
    else if i == 3 then gaps[3] + (FieldSyntax(spec.month) + Rest(spec, gaps, 4))
    else gaps[2] + (FieldSyntax(spec.dayOfMonth) + Rest(spec, gaps, 3))
  }

  /** The four fields after the minutes, each after its spaces. */
  lemma LaterFields(spec: CronSpec, gaps: seq<string>)
    requires WellFormed(spec) && Layout(gaps)
    ensures SpacedItemList(0, 23, gaps[1] + (FieldSyntax(spec.hour) + Rest(spec, gaps, 2)))
            == Parsed(spec.hour, Rest(spec, gaps, 2))
    ensures SpacedItemList(1, 31, Rest(spec, gaps, 2)) == Parsed(spec.dayOfMonth, Rest(spec, gaps, 3))
    ensures SpacedItemList(1, 12, Rest(spec, gaps, 3)) == Parsed(spec.month, Rest(spec, gaps, 4))
    ensures SpacedItemList(1, 7, Rest(spec, gaps, 4)) == Parsed(spec.dayOfWeek, gaps[5])
    ensures SkipSpaces(gaps[5]) == []
  {
    GapStart(gaps, 2, FieldSyntax(spec.dayOfMonth) + Rest(spec, gaps, 3));
    GapStart(gaps, 3, FieldSyntax(spec.month) + Rest(spec, gaps, 4));
    GapStart(gaps, 4, FieldSyntax(spec.dayOfWeek) + gaps[5]);
    SpacedRoundTrip(0, 23, gaps[1], spec.hour, Rest(spec, gaps, 2));
    SpacedRoundTrip(1, 31, gaps[2], spec.dayOfMonth, Rest(spec, gaps, 3));
    SpacedRoundTrip(1, 12, gaps[3], spec.month, Rest(spec, gaps, 4));
    SpacedRoundTrip(1, 7, gaps[4], spec.dayOfWeek, gaps[5]);
    SkipGap(gaps[5], []);
    assert gaps[5] + [] == gaps[5];
  }
}
