// The cron schedules of src/daemon/cron.rs: the grammar of the five fields of a cron
// spec, and the regular expression a spec becomes. The parser combinators thread the
// remaining input; here every parser takes the remaining input and returns what it read
// together with the input left after it.

module Cron {
  import opened Wrappers
  import opened Errors
  import Strings
  import L = Lexer
  import opened BoundedBytes

  /** One comma-separated item of a field; `CronSpecItem<L, H>` in the source, whose
      bounds are the `lo` and `hi` passed alongside. */
  datatype CronSpecItem =
    | Any
    | AnyStepped(step: UpperBoundedNonZeroU8)
    | Single(n: BoundedU8)
    | SingleStepped(n: BoundedU8, step: UpperBoundedNonZeroU8)
    | Range(range: BoundedU8RangeInclusive)
    | RangeStepped(range: BoundedU8RangeInclusive, step: UpperBoundedNonZeroU8)

  /** The item is a value of `CronSpecItem<lo, hi>`: what its bounded parts guarantee. */
  predicate Inhabits(item: CronSpecItem, lo: u8, hi: u8) {
    match item
    case Any => true
    case AnyStepped(step) => 1 <= step.value <= hi
    case Single(n) => lo <= n.value <= hi
    case SingleStepped(n, step) => lo <= n.value <= hi && 1 <= step.value <= hi
    case Range(r) => lo <= r.start <= r.end <= hi
    case RangeStepped(r, step) => lo <= r.start <= r.end <= hi && 1 <= step.value <= hi
  }

  /** Every item of the field is a value of `CronSpecItem<lo, hi>`. */
  predicate FieldOf(items: seq<CronSpecItem>, lo: u8, hi: u8) {
    forall i :: 0 <= i < |items| ==> Inhabits(items[i], lo, hi)
  }

  datatype CronSpec = CronSpec(minute: seq<CronSpecItem>, hour: seq<CronSpecItem>,
                               dayOfMonth: seq<CronSpecItem>, month: seq<CronSpecItem>,
                               dayOfWeek: seq<CronSpecItem>)

  /** The items of each field have the field's type: minutes 0-59, hours 0-23, days of
      the month 1-31, months 1-12 and days of the week 1-7. */
  predicate Typed(spec: CronSpec) {
    FieldOf(spec.minute, 0, 59) && FieldOf(spec.hour, 0, 23) && FieldOf(spec.dayOfMonth, 1, 31)
    && FieldOf(spec.month, 1, 12) && FieldOf(spec.dayOfWeek, 1, 7)
  }

  /** What the parser builds: typed, and every field has at least one item. */
  predicate WellFormed(spec: CronSpec) {
    Typed(spec) && |spec.minute| > 0 && |spec.hour| > 0 && |spec.dayOfMonth| > 0
    && |spec.month| > 0 && |spec.dayOfWeek| > 0
  }

  // ----- regular expression -----

  /** What `(from..=to).step_by(step)` yields. */
  function Steps(from: nat, to: nat, step: nat): seq<nat>
    requires step > 0
    decreases if from <= to then to - from + 1 else 0
  {
    if from > to then [] else [from] + Steps(from + step, to, step)
  }

  /** `format!("{n:02}")`. */
  function Pad2(n: nat): string {
    if n < 10 then "0" + Strings.NatToString(n) else Strings.NatToString(n)
  }

  function Padded(values: seq<nat>): seq<string> {
    seq(|values|, i requires 0 <= i < |values| => Pad2(values[i]))
  }

  /** The values an item other than `Any` lists in its pattern. */
  function Values(item: CronSpecItem, lo: u8, hi: u8): seq<nat>
    requires Inhabits(item, lo, hi) && !item.Any?
  {
    match item
    case AnyStepped(step) => Steps(lo as nat, hi as nat, step.value as nat)
    case Single(n) => [n.value as nat]
    case SingleStepped(n, step) => Steps(n.value as nat, hi as nat, step.value as nat)
    case Range(r) => Steps(r.start as nat, r.end as nat, 1)
    case RangeStepped(r, step) => Steps(r.start as nat, r.end as nat, step.value as nat)
  }

  /** `CronSpecItem::to_regex_pattern`: `..` for any value, otherwise the two-digit values
      of the item separated by `|`. */
  function ItemPattern(item: CronSpecItem, lo: u8, hi: u8): string
    requires Inhabits(item, lo, hi)
  {
    if item.Any? then ".." else Strings.JoinWith(Padded(Values(item, lo, hi)), "|")
  }

  /** The patterns of the items of a field, separated by `|`. */
  function FieldPattern(items: seq<CronSpecItem>, lo: u8, hi: u8): string
    requires FieldOf(items, lo, hi)
  {
    Strings.JoinWith(seq(|items|, i requires 0 <= i < |items| => ItemPattern(items[i], lo, hi)), "|")
  }

  /** `CronSpec::to_regex_pattern`: one group per field. */
  function SpecPattern(spec: CronSpec): string
    requires Typed(spec)
  {
    "(" + FieldPattern(spec.minute, 0, 59) + ")(" + FieldPattern(spec.hour, 0, 23)
    + ")(" + FieldPattern(spec.dayOfMonth, 1, 31) + ")(" + FieldPattern(spec.month, 1, 12)
    + ")(" + FieldPattern(spec.dayOfWeek, 1, 7) + ")"
  }

  // ----- parser -----

  /** The outcome of a parser: what it read and the input after it, or a failure that an
      alternative may recover from (`Backtrack`) or one that ends the parse (`Cut`). */
  datatype PResult<+T> = Parsed(value: T, rest: string) | Backtrack | Cut {
    predicate IsFailure() {
      !Parsed?
    }

    function PropagateFailure<U>(): PResult<U>
      requires !Parsed?
    {
      if Backtrack? then Backtrack else Cut
    }

    function Extract(): (T, string)
      requires Parsed?
    {
      (value, rest)
    }
  }

  /** `multispace`: space, tab, carriage return and line feed. */
  predicate IsSpace(c: char) {
    c == ' ' || c == '\t' || c == '\r' || c == '\n'
  }

  /** `multispace0`. */
  function SkipSpaces(s: string): string {
    s[L.Span(s, IsSpace)..]
  }

  /** `digit1.parse_to::<u8>()`: the run of digits, read as a byte. */
  function ParseDigitsU8(s: string): (r: PResult<u8>)
    ensures r.Parsed? ==> |r.rest| < |s|
    ensures !r.Cut?
  {
    var n := L.Span(s, Strings.IsDigit);
    if n == 0 then Backtrack
    else
      match ParseU8(s[..n])
      case Ok(v) => Parsed(v, s[n..])
      case Err(_) => Backtrack
  }

  /** `number::<L, H>`: a byte in `lo..=hi`. */
  function ParseNumber(lo: u8, hi: u8, s: string): (r: PResult<u8>)
    ensures r.Parsed? ==> lo <= r.value <= hi && |r.rest| < |s|
  {
    match ParseDigitsU8(s)
    case Parsed(v, rest) => if v >= lo && v <= hi then Parsed(v, rest) else Backtrack
    case Backtrack => Backtrack
    case Cut => Cut
  }

  /** `nonzero_number::<L, H>`: a byte in `lo..=hi` other than 0. */
  function ParseNonzeroNumber(lo: u8, hi: u8, s: string): (r: PResult<u8>)
    ensures r.Parsed? ==> 1 <= r.value && lo <= r.value <= hi && |r.rest| < |s|
  {
    match ParseDigitsU8(s)
    case Parsed(v, rest) => if v > 0 && v >= lo && v <= hi then Parsed(v, rest) else Backtrack
    case Backtrack => Backtrack
    case Cut => Cut
  }

  /** `stepped::<L, H>`: `/` and a step. */
  function ParseStep(lo: u8, hi: u8, s: string): (r: PResult<u8>)
    ensures r.Parsed? ==> 1 <= r.value && lo <= r.value <= hi && |r.rest| < |s|
  {
    if |s| > 0 && s[0] == '/' then ParseNonzeroNumber(lo, hi, s[1..]) else Backtrack
  }

  /** The `expect` after `number` and `single`: their check is the check of `BoundedU8`. */
  function ExpectBounded(lo: u8, hi: u8, v: u8): (b: BoundedU8)
    requires lo <= v <= hi
    ensures b.Get() == v
  {
    BoundedTryFrom(lo, hi, v).value
  }

  /** The `expect` after `stepped`: its check implies the check of `UpperBoundedNonZeroU8`. */
  function ExpectNonZero(hi: u8, v: u8): (b: UpperBoundedNonZeroU8)
    requires 1 <= v <= hi
    ensures b.Get() == v
  {
    NonZeroTryFrom(hi, v).value
  }

  /** `peek((digit1, c))`: a run of digits and then `c`. */
  predicate DigitsThen(s: string, c: char) {
    var n := L.Span(s, Strings.IsDigit);
    0 < n < |s| && s[n] == c
  }

  /** `any`: `*`. */
  function ParseAny(s: string): (r: PResult<CronSpecItem>)
    ensures r.Parsed? ==> r.value == Any && |r.rest| < |s|
  {
    if |s| > 0 && s[0] == '*' then Parsed(Any, s[1..]) else Backtrack
  }

  /** `any_stepped`: once a star and a slash are seen, `*` and a step or a cut. */
  function ParseAnyStepped(lo: u8, hi: u8, s: string): (r: PResult<CronSpecItem>)
    ensures r.Parsed? ==> Inhabits(r.value, lo, hi) && r.value.AnyStepped? && |r.rest| < |s|
  {
    if |s| >= 2 && s[0] == '*' && s[1] == '/' then
      match ParseStep(lo, hi, s[1..])
      case Parsed(step, rest) => Parsed(AnyStepped(ExpectNonZero(hi, step)), rest)
      case _ => Cut
    else Backtrack
  }

  /** `single`: a number in `lo..=hi`. */
  function ParseSingle(lo: u8, hi: u8, s: string): (r: PResult<CronSpecItem>)
    ensures r.Parsed? ==> Inhabits(r.value, lo, hi) && r.value.Single? && |r.rest| < |s|
  {
    match ParseNumber(lo, hi, s)
    case Parsed(n, rest) => Parsed(Single(ExpectBounded(lo, hi, n)), rest)
    case Backtrack => Backtrack
    case Cut => Cut
  }

  /** `single_stepped`: once digits and `/` are seen, an offset and a step or a cut. */
  function ParseSingleStepped(lo: u8, hi: u8, s: string): (r: PResult<CronSpecItem>)
    ensures r.Parsed? ==> Inhabits(r.value, lo, hi) && r.value.SingleStepped? && |r.rest| < |s|
  {
    if DigitsThen(s, '/') then
      match ParseNumber(lo, hi, s)
      case Parsed(n, rest) =>
        (match ParseStep(lo, hi, rest)
         case Parsed(step, rest') => Parsed(SingleStepped(ExpectBounded(lo, hi, n), ExpectNonZero(hi, step)), rest')
         case _ => Cut)
      case _ => Cut
    else Backtrack
  }

  /** `range`: once digits and `-` are seen, a start, `-` and an end making a
      `BoundedU8RangeInclusive`, or a cut. */
  function ParseRange(lo: u8, hi: u8, s: string): (r: PResult<CronSpecItem>)
    ensures r.Parsed? ==> Inhabits(r.value, lo, hi) && r.value.Range? && |r.rest| < |s|
  {
    if DigitsThen(s, '-') then
      match ParseNumber(lo, hi, s)
      case Parsed(start, rest) =>
        if |rest| > 0 && rest[0] == '-' then
          match ParseNumber(lo, hi, rest[1..])
          case Parsed(end, rest') =>
            (match RangeTryFrom(lo, hi, start, end)
             case Ok(range) => Parsed(Range(range), rest')
             case Err(_) => Cut)
          case _ => Cut
        else Cut
      case _ => Cut
    else Backtrack
  }

  /** `range_stepped`: once a whole range and `/` are seen, the range and a step or a cut.
      The source parses the range a second time after peeking; both parses read the same. */
  function ParseRangeStepped(lo: u8, hi: u8, s: string): (r: PResult<CronSpecItem>)
    ensures r.Parsed? ==> Inhabits(r.value, lo, hi) && r.value.RangeStepped? && |r.rest| < |s|
  {
    var range := ParseRange(lo, hi, s);
    if range.Parsed? && |range.rest| > 0 && range.rest[0] == '/' then
      match ParseStep(lo, hi, range.rest)
      case Parsed(step, rest) => Parsed(RangeStepped(range.value.range, ExpectNonZero(hi, step)), rest)
      case _ => Cut
    else Backtrack
  }

  /** `cronspec_single_item`: the first alternative that does not backtrack, tried in the
      order range-stepped, single-stepped, any-stepped, range, single, any. */
  function ParseItem(lo: u8, hi: u8, s: string): (r: PResult<CronSpecItem>)
    ensures r.Parsed? ==> Inhabits(r.value, lo, hi) && |r.rest| < |s|
  {
    var rangeStepped := ParseRangeStepped(lo, hi, s);
    if !rangeStepped.Backtrack? then rangeStepped
    else
      var singleStepped := ParseSingleStepped(lo, hi, s);
      if !singleStepped.Backtrack? then singleStepped
      else
        var anyStepped := ParseAnyStepped(lo, hi, s);
        if !anyStepped.Backtrack? then anyStepped
        else
          var range := ParseRange(lo, hi, s);
          if !range.Backtrack? then range
          else
            var single := ParseSingle(lo, hi, s);
            if !single.Backtrack? then single
            else ParseAny(s)
  }

  /** The items after the first: while a `,` follows, one more item. */
  function MoreItems(lo: u8, hi: u8, items: seq<CronSpecItem>, s: string): (r: PResult<seq<CronSpecItem>>)
    requires FieldOf(items, lo, hi)
    ensures r.Parsed? ==> FieldOf(r.value, lo, hi) && |r.value| >= |items|
    decreases |s|
  {
    if |s| > 0 && s[0] == ',' then
      match ParseItem(lo, hi, s[1..])
      case Parsed(item, rest) => MoreItems(lo, hi, items + [item], rest)
      case Backtrack => Backtrack
      case Cut => Cut
    else Parsed(items, s)
  }

  /** What `cronspec_item` reads: one item, then more after commas. */
  function ItemList(lo: u8, hi: u8, s: string): (r: PResult<seq<CronSpecItem>>)
    ensures r.Parsed? ==> FieldOf(r.value, lo, hi) && |r.value| > 0
  {
    match ParseItem(lo, hi, s)
    case Parsed(item, rest) => MoreItems(lo, hi, [item], rest)
    case Backtrack => Backtrack
    case Cut => Cut
  }

  /** `cronspec_item`: the loop that pushes one item after every comma. */
  method CronspecItem(lo: u8, hi: u8, input: string) returns (r: PResult<seq<CronSpecItem>>)
    ensures r == ItemList(lo, hi, input)
  {
    var cursor := input;
    var result: seq<CronSpecItem> := [];
    var first := ParseItem(lo, hi, cursor);
    match first {
      case Parsed(item, rest) =>
        result := [item];
        cursor := rest;
      case Backtrack =>
        return Backtrack;
      case Cut =>
        return Cut;
    }
    while |cursor| > 0 && cursor[0] == ','
      invariant FieldOf(result, lo, hi)
      invariant MoreItems(lo, hi, result, cursor) == ItemList(lo, hi, input)
      decreases |cursor|
    {
      var next := ParseItem(lo, hi, cursor[1..]);
      MoreItemsNext(lo, hi, result, cursor);
      match next {
        case Parsed(item, rest) =>
          result := result + [item];
          cursor := rest;
        case Backtrack =>
          return Backtrack;
        case Cut =>
          return Cut;
      }
    }
    return Parsed(result, cursor);
  }

  /** One more item after a comma, or the failure of the item after the comma. */
  lemma MoreItemsNext(lo: u8, hi: u8, items: seq<CronSpecItem>, s: string)
    requires FieldOf(items, lo, hi) && |s| > 0 && s[0] == ','
    ensures var next := ParseItem(lo, hi, s[1..]);
            && (next.Parsed? ==> FieldOf(items + [next.value], lo, hi)
                                 && MoreItems(lo, hi, items, s) == MoreItems(lo, hi, items + [next.value], next.rest))
            && (next.Backtrack? ==> MoreItems(lo, hi, items, s) == Backtrack)
            && (next.Cut? ==> MoreItems(lo, hi, items, s) == Cut)
  {
  }

  /** `(multispace1, cronspec_item)`. */
  function SpacedItemList(lo: u8, hi: u8, s: string): (r: PResult<seq<CronSpecItem>>)
    ensures r.Parsed? ==> FieldOf(r.value, lo, hi) && |r.value| > 0
  {
    if L.Span(s, IsSpace) == 0 then Backtrack else ItemList(lo, hi, SkipSpaces(s))
  }

  /** `parse_cronspec`: optional spaces, the five fields separated by spaces, optional
      spaces. */
  function ParseCronspec(s: string): (r: PResult<CronSpec>)
    ensures r.Parsed? ==> WellFormed(r.value)
  {
    var minute :- ItemList(0, 59, SkipSpaces(s));
    var hour :- SpacedItemList(0, 23, minute.1);
    var dayOfMonth :- SpacedItemList(1, 31, hour.1);
    var month :- SpacedItemList(1, 12, dayOfMonth.1);
    var dayOfWeek :- SpacedItemList(1, 7, month.1);
    Parsed(CronSpec(minute.0, hour.0, dayOfMonth.0, month.0, dayOfWeek.0), SkipSpaces(dayOfWeek.1))
  }

  /** `CronSpec::from_str`: the whole text must be read; any failure is a `ParseError`. */
  function FromStr(s: string): (r: Result<CronSpec>)
    ensures r.Ok? ==> WellFormed(r.value)
    ensures r.Err? ==> r.error == ParseError(InvalidCronSpec)
  {
    match ParseCronspec(s)
    case Parsed(spec, rest) => if rest == [] then Ok(spec) else Err(ParseError(InvalidCronSpec))
    case _ => Err(ParseError(InvalidCronSpec))
  }
}
