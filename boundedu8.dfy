// The range-checked byte types of src/util/boundedu8.rs. Their bounds `L` and `H` are
// compile-time parameters in the source; here they are the parameters `lo` and `hi`
// of the functions that build values of the types.

module BoundedBytes {
  import opened Wrappers
  import opened Errors
  import Strings

  /** Rust's `u8`. */
  newtype u8 = x: int | 0 <= x < 256

  /** `BoundedU8<L, H>`: a byte that `try_from` checked to lie in `L..=H`. */
  datatype BoundedU8 = BoundedU8(value: u8) {
    function Get(): u8 {
      value
    }
  }

  /** `UpperBoundedNonZeroU8<H>`: a byte that `try_from` checked to lie in `1..=H`. */
  datatype UpperBoundedNonZeroU8 = UpperBoundedNonZeroU8(value: u8) {
    function Get(): u8 {
      value
    }
  }

  /** `BoundedU8RangeInclusive<L, H>`: the range `start..=end`, checked to lie in `L..=H`. */
  datatype BoundedU8RangeInclusive = BoundedU8RangeInclusive(start: u8, end: u8) {
    /** `get` returns the range itself; its values are those from `start` to `end`. */
    predicate Contains(n: int) {
      start as int <= n <= end as int
    }
  }

  /** `BoundedU8::<L, H>::try_from`: an empty type (`L > H`) is refused before the value
      is looked at. */
  function BoundedTryFrom(lo: u8, hi: u8, value: u8): (r: Result<BoundedU8>)
    ensures lo > hi ==> r == Err(InvalidRangeError)
    ensures lo <= hi ==> (r.Ok? <==> lo <= value <= hi)
    ensures lo <= hi && r.Err? ==> r.error == ValueOutOfRangeError
    ensures r.Ok? ==> r.value.Get() == value
  {
    if lo > hi then Err(InvalidRangeError)
    else if value < lo || value > hi then Err(ValueOutOfRangeError)
    else Ok(BoundedU8(value))
  }

  /** `UpperBoundedNonZeroU8::<H>::try_from`. */
  function NonZeroTryFrom(hi: u8, value: u8): (r: Result<UpperBoundedNonZeroU8>)
    ensures r.Ok? <==> 1 <= value <= hi
    ensures r.Err? ==> r.error == ValueOutOfRangeError
    ensures r.Ok? ==> r.value.Get() == value
  {
    if value == 0 || value > hi then Err(ValueOutOfRangeError)
    else Ok(UpperBoundedNonZeroU8(value))
  }

  /** `BoundedU8RangeInclusive::<L, H>::try_from`: the bounds are checked first, the order
      of the two ends second. */
  function RangeTryFrom(lo: u8, hi: u8, start: u8, end: u8): (r: Result<BoundedU8RangeInclusive>)
    ensures r.Ok? <==> lo <= start <= end <= hi
    ensures (lo > hi || start < lo || end > hi) ==> r == Err(ValueOutOfRangeError)
    ensures lo <= hi && lo <= start && end <= hi && start > end ==> r == Err(InvalidRangeError)
    ensures r.Ok? ==> r.value.start == start && r.value.end == end
  {
    if lo > hi || start < lo || end > hi then Err(ValueOutOfRangeError)
    else if start > end then Err(InvalidRangeError)
    else Ok(BoundedU8RangeInclusive(start, end))
  }

  // ----- parsing -----

  /** The digits `str::parse::<u8>` reads: a leading `+` is dropped when something follows
      it. A `-` is never accepted for an unsigned type. */
  function UnsignedDigits(s: string): string {
    if |s| > 1 && s[0] == '+' then s[1..] else s
  }

  /** `str::parse::<u8>`: one or more decimal digits, after an optional `+`, whose value
      fits in a byte. */
  function ParseU8(s: string): (r: Result<u8>)
    ensures r.Err? ==> r.error == ParseIntError
    ensures r.Ok? <==> var d := UnsignedDigits(s); d != [] && Strings.AllDigits(d) && Strings.DecimalValue(d) < 256
  {
    var d := UnsignedDigits(s);
    if d == [] || !Strings.AllDigits(d) || Strings.DecimalValue(d) >= 256 then Err(ParseIntError)
    else Ok(Strings.DecimalValue(d) as u8)
  }

  /** `BoundedU8::<L, H>::from_str`. */
  function BoundedFromStr(lo: u8, hi: u8, s: string): Result<BoundedU8> {
    var n :- ParseU8(s);
    BoundedTryFrom(lo, hi, n)
  }

  /** `UpperBoundedNonZeroU8::<H>::from_str`. */
  function NonZeroFromStr(hi: u8, s: string): Result<UpperBoundedNonZeroU8> {
    var n :- ParseU8(s);
    NonZeroTryFrom(hi, n)
  }

  // ----- properties -----

  /** A byte written in decimal reads back as itself, with or without a `+`. */
  lemma ParseU8Decimal(n: u8)
    ensures ParseU8(Strings.NatToString(n as nat)) == Ok(n)
    ensures ParseU8("+" + Strings.NatToString(n as nat)) == Ok(n)
  {
    var s := Strings.NatToString(n as nat);
    Strings.DecimalValueOfNatToString(n as nat);
    assert !Strings.IsDigit('+') && s[0] != '+';
    assert ("+" + s)[1..] == s;
  }

  /** A lone sign, a `-` and the empty string are not numbers. */
  lemma ParseU8Rejects()
    ensures ParseU8("").Err? && ParseU8("+").Err? && ParseU8("-1").Err? && ParseU8("256").Err?
  {
    assert !Strings.IsDigit('-');
    assert Strings.DecimalValue("256") == 256 by {
      assert "256"[..2] == "25" && "25"[..1] == "2";
    }
  }

  /** `from_str` of the decimal text of a byte is `try_from` of that byte. */
  lemma FromStrOfDecimal(lo: u8, hi: u8, n: u8)
    ensures BoundedFromStr(lo, hi, Strings.NatToString(n as nat)) == BoundedTryFrom(lo, hi, n)
    ensures NonZeroFromStr(hi, Strings.NatToString(n as nat)) == NonZeroTryFrom(hi, n)
  {
    ParseU8Decimal(n);
  }

  /** A checked range is exactly a pair of checked ends in order: its ends are values of
      `BoundedU8<L, H>`, and every value it contains is one too. */
  lemma RangeOfBoundedEnds(lo: u8, hi: u8, start: u8, end: u8)
    ensures RangeTryFrom(lo, hi, start, end).Ok?
            <==> BoundedTryFrom(lo, hi, start).Ok? && BoundedTryFrom(lo, hi, end).Ok? && start <= end
    ensures RangeTryFrom(lo, hi, start, end).Ok? ==>
              forall n: u8 :: RangeTryFrom(lo, hi, start, end).value.Contains(n as int) ==> BoundedTryFrom(lo, hi, n).Ok?
  {
  }

  /** The tests of `BoundedU8<8, 32>`, `BoundedU8<8, 255>` and the empty `BoundedU8<32, 8>`. */
  lemma BoundedTests()
    ensures BoundedTryFrom(8, 32, 0).Err? && BoundedTryFrom(8, 32, 7).Err?
    ensures BoundedTryFrom(8, 32, 8).Ok? && BoundedTryFrom(8, 32, 20).Ok? && BoundedTryFrom(8, 32, 32).Ok?
    ensures BoundedTryFrom(8, 32, 33).Err? && BoundedTryFrom(8, 32, 255).Err?
    ensures BoundedTryFrom(8, 255, 255).Ok?
    ensures BoundedTryFrom(32, 8, 20) == Err(InvalidRangeError)
  {
  }

  /** The tests of `UpperBoundedNonZeroU8`. */
  lemma NonZeroTests()
    ensures NonZeroTryFrom(255, 0).Err? && NonZeroTryFrom(255, 1).Ok?
    ensures NonZeroTryFrom(1, 1).Ok? && NonZeroTryFrom(1, 2).Err?
    ensures NonZeroTryFrom(2, 2).Ok? && NonZeroTryFrom(2, 0).Err?
  {
  }

  /** The tests of `BoundedU8RangeInclusive`. */
  lemma RangeTests()
    ensures RangeTryFrom(0, 255, 0, 255).Ok?
    ensures RangeTryFrom(1, 255, 0, 255) == Err(ValueOutOfRangeError)
    ensures RangeTryFrom(0, 254, 0, 255) == Err(ValueOutOfRangeError)
    ensures RangeTryFrom(100, 120, 101, 110).Ok?
  {
  }
}
