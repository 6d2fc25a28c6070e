// Whole cron specs refused: once the fields before it are read, a field that the item
// parser refuses, or one that is missing, makes `CronSpec::from_str` fail. The shapes
// are those of the tests of invalid specs in src/daemon/cron.rs: stars in every other
// field, single spaces between the fields.

module CronRefusals {
  import opened Wrappers
  import Strings
  import L = Lexer
  import opened BoundedBytes
  import opened Cron
  import opened CronSyntax
  import opened CronItems

  /** The lower bound of field `k`: minute, hour, day of the month, month, day of the week. */
  function Lo(k: nat): u8
    requires k < 5
  {
    if k < 2 then 0 else 1
  }

  /** The upper bound of field `k`. */
  function Hi(k: nat): u8
    requires k < 5
  {
    if k == 0 then 59 else if k == 1 then 23 else if k == 2 then 31 else if k == 3 then 12 else 7
  }

  function FieldAt(spec: CronSpec, k: nat): seq<CronSpecItem>
    requires k < 5
  {
    if k == 0 then spec.minute
    else if k == 1 then spec.hour
    else if k == 2 then spec.dayOfMonth
    else if k == 3 then spec.month
    else spec.dayOfWeek
  }

  /** Fields `j` to `k - 1` of a spec, each after its gap, and then `tail`. */
  function From(spec: CronSpec, gaps: seq<string>, j: nat, k: nat, tail: string): string
    requires |gaps| == 6 && j <= k < 5
    decreases k - j
  {
    if j == k then tail else gaps[j] + (FieldSyntax(FieldAt(spec, j)) + From(spec, gaps, j + 1, k, tail))
  }

  lemma FollowsGap(spec: CronSpec, gaps: seq<string>, j: nat, k: nat, tail: string)
    requires Layout(gaps) && 1 <= j <= k < 5 && (tail == [] || IsSpace(tail[0]))
    ensures var r := From(spec, gaps, j, k, tail); r == [] || IsSpace(r[0])
  {
    if j < k {
      GapStart(gaps, j, FieldSyntax(FieldAt(spec, j)) + From(spec, gaps, j + 1, k, tail));
    }
  }

  /** The minutes are read back when another field follows. */
  lemma FirstField(spec: CronSpec, gaps: seq<string>, k: nat, tail: string)
    requires WellFormed(spec) && Layout(gaps) && 1 <= k < 5 && (tail == [] || IsSpace(tail[0]))
    ensures ItemList(0, 59, SkipSpaces(From(spec, gaps, 0, k, tail))) == Parsed(spec.minute, From(spec, gaps, 1, k, tail))
  {
    var r := From(spec, gaps, 1, k, tail);
    var f := FieldSyntax(spec.minute) + r;
    FollowsGap(spec, gaps, 1, k, tail);
    FieldSyntaxStart(spec.minute);
    assert f[0] == FieldSyntax(spec.minute)[0];
    SkipGap(gaps[0], f);
    ItemListRoundTrip(0, 59, spec.minute, r);
  }

  /** Field `j` after the minutes is read back after its gap. */
  lemma LaterField(spec: CronSpec, gaps: seq<string>, j: nat, k: nat, tail: string)
    requires WellFormed(spec) && Layout(gaps) && 1 <= j < k < 5 && (tail == [] || IsSpace(tail[0]))
    ensures SpacedItemList(Lo(j), Hi(j), From(spec, gaps, j, k, tail)) == Parsed(FieldAt(spec, j), From(spec, gaps, j + 1, k, tail))
  {
    FollowsGap(spec, gaps, j + 1, k, tail);
    SpacedRoundTrip(Lo(j), Hi(j), gaps[j], FieldAt(spec, j), From(spec, gaps, j + 1, k, tail));
  }

  /** `parse_cronspec` fails at the first field it cannot read. */
  lemma CronspecStops(s: string, spec: CronSpec, k: nat, r1: string, r2: string, r3: string, r4: string)
    requires k < 5
    requires k == 0 ==> !ItemList(0, 59, SkipSpaces(s)).Parsed?
    requires k > 0 ==> ItemList(0, 59, SkipSpaces(s)) == Parsed(spec.minute, r1)
    requires k == 1 ==> !SpacedItemList(0, 23, r1).Parsed?
    requires k > 1 ==> SpacedItemList(0, 23, r1) == Parsed(spec.hour, r2)
    requires k == 2 ==> !SpacedItemList(1, 31, r2).Parsed?
    requires k > 2 ==> SpacedItemList(1, 31, r2) == Parsed(spec.dayOfMonth, r3)
    requires k == 3 ==> !SpacedItemList(1, 12, r3).Parsed?
    requires k > 3 ==> SpacedItemList(1, 12, r3) == Parsed(spec.month, r4)
    requires k == 4 ==> !SpacedItemList(1, 7, r4).Parsed?
    ensures FromStr(s).Err?
  {
  }

  /**
   * A spec whose fields before field `k` are well formed, followed by text that field `k`
   * cannot be read from (a refused item, or no field at all), is refused as a whole.
   */
  lemma FieldRefused(spec: CronSpec, gaps: seq<string>, k: nat, tail: string)
    requires WellFormed(spec) && Layout(gaps) && k < 5
    requires k == 0 ==> !ItemList(0, 59, SkipSpaces(tail)).Parsed?
    requires k > 0 ==> (tail == [] || IsSpace(tail[0])) && !SpacedItemList(Lo(k), Hi(k), tail).Parsed?
    ensures FromStr(From(spec, gaps, 0, k, tail)).Err?
  {
    var r1 := if 1 <= k then From(spec, gaps, 1, k, tail) else "";
    var r2 := if 2 <= k then From(spec, gaps, 2, k, tail) else "";
    var r3 := if 3 <= k then From(spec, gaps, 3, k, tail) else "";
    var r4 := if 4 <= k then From(spec, gaps, 4, k, tail) else "";
    if k > 0 {
      FirstField(spec, gaps, k, tail);
    }
    if k > 1 {
      LaterField(spec, gaps, 1, k, tail);
    }
    if k > 2 {
      LaterField(spec, gaps, 2, k, tail);
    }
    if k > 3 {
      LaterField(spec, gaps, 3, k, tail);
    }
    CronspecStops(From(spec, gaps, 0, k, tail), spec, k, r1, r2, r3, r4);
  }

  // ----- specs of stars with one field replaced -----

  /** `* * * * *`. */
  function Stars(): CronSpec {
    CronSpec([Any], [Any], [Any], [Any], [Any])
  }

  /** `ValidSpec::to_syntax` puts single spaces between the fields. */
  function SingleSpaces(): seq<string> {
    ["", " ", " ", " ", " ", ""]
  }

  lemma StarsWellFormed()
    ensures WellFormed(Stars()) && Layout(SingleSpaces()) && FieldSyntax([Any]) == "*"
  {
    assert Syntaxes([Any]) == ["*"];
  }

  /** `m` more star fields, each after a space. */
  function Trail(m: nat): string {
    if m == 0 then "" else " *" + Trail(m - 1)
  }

  /** A spec of stars up to field `k`, then `x` in place of field `k`. */
  function Text(k: nat, x: string): string
    requires k < 5
  {
    if k == 0 then x else "*" + (Trail(k - 1) + (" " + x))
  }

  lemma {:induction false} TrailFrom(j: nat, k: nat, x: string)
    requires 1 <= j <= k < 5
    ensures From(Stars(), SingleSpaces(), j, k, " " + x) == Trail(k - j) + (" " + x)
    decreases k - j
  {
    if j < k {
      StarsWellFormed();
      TrailFrom(j + 1, k, x);
      Strings.ConcatAssoc(" " + "*", Trail(k - j - 1), " " + x);
      Strings.ConcatAssoc(" ", "*", Trail(k - j - 1) + (" " + x));
      assert (" " + ("*" + (Trail(k - j - 1) + (" " + x))))[1..] == "*" + (Trail(k - j - 1) + (" " + x));
    } else {
      assert Trail(0) + (" " + x) == " " + x;
    }
  }

  /** A spec of stars with field `k` replaced by an item the field refuses. */
  lemma ItemRefusedAt(k: nat, item: string, after: string)
    requires k < 5 && item != [] && !IsSpace(item[0])
    requires !ParseItem(Lo(k), Hi(k), item + after).Parsed?
    ensures FromStr(Text(k, item + after)).Err?
  {
    StarsWellFormed();
    var x := item + after;
    assert x[0] == item[0];
    if k == 0 {
      SkipGap("", x);
      assert "" + x == x;
      FieldRefused(Stars(), SingleSpaces(), 0, x);
    } else {
      SkipGap(" ", x);
      FieldRefused(Stars(), SingleSpaces(), k, " " + x);
      TrailFrom(1, k, x);
      assert From(Stars(), SingleSpaces(), 0, k, " " + x) == "" + ("*" + From(Stars(), SingleSpaces(), 1, k, " " + x));
      assert "" + ("*" + (Trail(k - 1) + (" " + x))) == Text(k, x);
    }
  }

  /** A lone number out of the bounds of its field. */
  lemma NumberRefusedAt(k: nat, d: string, after: string)
    requires k < 5 && Strings.AllDigits(d) && d != [] && !InBounds(Lo(k), Hi(k), d) && Follows(after)
    ensures FromStr(Text(k, d + after)).Err?
  {
    SingleItem(Lo(k), Hi(k), d, after);
    ItemRefusedAt(k, d, after);
  }

  /** A star and a step that is missing or out of bounds. */
  lemma StarStepRefusedAt(k: nat, d: string, after: string)
    requires k < 5 && Strings.AllDigits(d) && !StepInBounds(Lo(k), Hi(k), d) && Follows(after)
    ensures FromStr(Text(k, "*/" + (d + after))).Err?
  {
    StarStepItem(Lo(k), Hi(k), d, after);
    Strings.ConcatAssoc("*/", d, after);
    ItemRefusedAt(k, "*/" + d, after);
  }

  /** A number and a step, one of them missing or out of bounds. */
  lemma SingleStepRefusedAt(k: nat, n: string, d: string, after: string)
    requires k < 5 && Strings.AllDigits(n) && n != [] && Strings.AllDigits(d) && Follows(after)
    requires !(InBounds(Lo(k), Hi(k), n) && StepInBounds(Lo(k), Hi(k), d))
    ensures FromStr(Text(k, n + ("/" + (d + after)))).Err?
  {
    SingleStepItem(Lo(k), Hi(k), n, d, after);
    Strings.ConcatAssoc(n + "/", d, after);
    Strings.ConcatAssoc(n, "/", d + after);
    ItemRefusedAt(k, n + "/" + d, after);
  }

  /** A range whose ends are out of bounds or out of order. */
  lemma RangeRefusedAt(k: nat, a: string, b: string, after: string)
    requires k < 5 && Strings.AllDigits(a) && a != [] && Strings.AllDigits(b) && Follows(after)
    requires !(InBounds(Lo(k), Hi(k), a) && InBounds(Lo(k), Hi(k), b) && Strings.DecimalValue(a) <= Strings.DecimalValue(b))
    ensures FromStr(Text(k, a + ("-" + (b + after)))).Err?
  {
    RangeItem(Lo(k), Hi(k), a, b, after);
    Strings.ConcatAssoc(a + "-", b, after);
    Strings.ConcatAssoc(a, "-", b + after);
    ItemRefusedAt(k, a + "-" + b, after);
  }

  /** A range and a step, one of them refused. */
  lemma RangeStepRefusedAt(k: nat, a: string, b: string, d: string, after: string)
    requires k < 5 && Strings.AllDigits(a) && a != [] && Strings.AllDigits(b) && Strings.AllDigits(d) && Follows(after)
    requires !(InBounds(Lo(k), Hi(k), a) && InBounds(Lo(k), Hi(k), b) && Strings.DecimalValue(a) <= Strings.DecimalValue(b)
               && StepInBounds(Lo(k), Hi(k), d))
    ensures FromStr(Text(k, a + ("-" + (b + ("/" + (d + after)))))).Err?
  {
    RangeStepItem(Lo(k), Hi(k), a, b, d, after);
    Strings.ConcatAssoc(a + "-" + b + "/", d, after);
    Strings.ConcatAssoc(a + "-" + b, "/", d + after);
    Strings.ConcatAssoc(a + "-", b, "/" + (d + after));
    Strings.ConcatAssoc(a, "-", b + ("/" + (d + after)));
    ItemRefusedAt(k, a + "-" + b + "/" + d, after);
  }

  /** A spec cut short after `k` fields, with nothing but spaces after them, is refused. */
  lemma MissingFieldRefused(spec: CronSpec, gaps: seq<string>, k: nat, g: string)
    requires WellFormed(spec) && Layout(gaps) && k < 5 && AllSpaces(g)
    ensures FromStr(From(spec, gaps, 0, k, g)).Err?
  {
    SkipGap(g, []);
    assert g + [] == g;
    FieldRefused(spec, gaps, k, g);
  }
}
