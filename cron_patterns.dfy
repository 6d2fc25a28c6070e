// What the regular expression of a cron spec stands for: every item becomes the
// alternation of the two-digit values its schedule admits.

module CronPatterns {
  import Strings
  import opened BoundedBytes
  import opened Cron

  /** `n` is on the schedule `from, from + step, ...`. */
  predicate OnStep(n: nat, from: nat, step: nat)
    requires step > 0
  {
    n >= from && (n - from) % step == 0
  }

  /** The meaning of an item of a field with bounds `lo..=hi`: the values it admits. */
  predicate Admits(item: CronSpecItem, lo: u8, hi: u8, n: nat)
    requires Inhabits(item, lo, hi)
  {
    match item
    case Any => lo as nat <= n <= hi as nat
    case AnyStepped(step) => n <= hi as nat && OnStep(n, lo as nat, step.value as nat)
    case Single(v) => n == v.value as nat
    case SingleStepped(v, step) => n <= hi as nat && OnStep(n, v.value as nat, step.value as nat)
    case Range(r) => r.start as nat <= n <= r.end as nat
    case RangeStepped(r, step) => n <= r.end as nat && OnStep(n, r.start as nat, step.value as nat)
  }

  lemma ModShift(y: nat, m: nat)
    requires m > 0
    ensures (y + m) % m == y % m
  {
    var q, r := y / m, y % m;
    assert y + m == m * (q + 1) + r;
    ModUnique(y + m, m, q + 1, r);
  }

  /** The remainder is the only `r` in `0..m` with `x == m * q + r`. */
  lemma ModUnique(x: int, m: int, q: int, r: int)
    requires m > 0 && 0 <= r < m && x == m * q + r
    ensures x % m == r
  {
    var q', r' := x / m, x % m;
    assert m * (q' - q) == r - r';
    if q' > q {
      MulAtLeast(m, q' - q);
    } else if q' < q {
      MulAtLeast(m, q - q');
    }
  }

  lemma {:induction false} MulAtLeast(m: int, k: int)
    requires m > 0 && k >= 1
    ensures m * k >= m
    decreases k
  {
    if k > 1 {
      MulAtLeast(m, k - 1);
      assert m * k == m * (k - 1) + m;
    }
  }

  /** `(from..=to).step_by(step)` yields exactly the values of the schedule up to `to`,
      in increasing order. */
  lemma StepsMembers(from: nat, to: nat, step: nat)
    requires step > 0
    ensures forall k: nat :: k in Steps(from, to, step) <==> k <= to && OnStep(k, from, step)
    ensures forall i, j :: 0 <= i < j < |Steps(from, to, step)| ==> Steps(from, to, step)[i] < Steps(from, to, step)[j]
  {
    StepsMembership(from, to, step);
    StepsIncreasing(from, to, step);
  }

  lemma {:induction false} StepsMembership(from: nat, to: nat, step: nat)
    requires step > 0
    ensures forall k: nat :: k in Steps(from, to, step) <==> k <= to && OnStep(k, from, step)
    decreases if from <= to then to - from + 1 else 0
  {
    if from <= to {
      StepsMembership(from + step, to, step);
      var rest := Steps(from + step, to, step);
      assert Steps(from, to, step) == [from] + rest;
      forall k: nat
        ensures k in Steps(from, to, step) <==> k <= to && OnStep(k, from, step)
      {
        assert k in Steps(from, to, step) <==> k == from || k in rest;
        if k >= from + step {
          ModShift(k - from - step, step);
        }
      }
    }
  }

  lemma {:induction false} StepsIncreasing(from: nat, to: nat, step: nat)
    requires step > 0
    ensures forall i :: 0 <= i < |Steps(from, to, step)| ==> Steps(from, to, step)[i] >= from
    ensures forall i, j :: 0 <= i < j < |Steps(from, to, step)| ==> Steps(from, to, step)[i] < Steps(from, to, step)[j]
    decreases if from <= to then to - from + 1 else 0
  {
    if from <= to {
      StepsIncreasing(from + step, to, step);
      var rest := Steps(from + step, to, step);
      var r := Steps(from, to, step);
      assert r == [from] + rest;
      forall i | 0 < i < |r|
        ensures r[i] == rest[i - 1]
      {
      }
    }
  }

  /** Two-digit rendering of the values of a field: two digits that read back as the value. */
  lemma Pad2TwoDigits(n: nat)
    requires n < 100
    ensures |Pad2(n)| == 2 && Strings.AllDigits(Pad2(n)) && Strings.DecimalValue(Pad2(n)) == n
  {
    var p := Pad2(n);
    if n < 10 {
      assert p == ['0', Strings.DigitChar(n)];
      assert p[..1] == ['0'];
      Strings.DecimalValueOfNatToString(n);
      assert Strings.DecimalValue(p) == Strings.DigitValue(p[1]) == Strings.DecimalValue([p[1]]);
    } else {
      assert Strings.NatToString(n / 10) == [Strings.DigitChar(n / 10)];
      Strings.DecimalValueOfNatToString(n);
    }
  }

  /** The values of an item other than `Any` are exactly the values it admits. */
  lemma ValuesAdmitted(item: CronSpecItem, lo: u8, hi: u8)
    requires Inhabits(item, lo, hi) && !item.Any?
    ensures forall n: nat :: n in Values(item, lo, hi) <==> Admits(item, lo, hi, n)
  {
    match item
    case AnyStepped(step) => StepsMembers(lo as nat, hi as nat, step.value as nat);
    case Single(v) =>
    case SingleStepped(v, step) => StepsMembers(v.value as nat, hi as nat, step.value as nat);
    case Range(r) =>
      var start := r.start as nat;
      StepsMembers(start, r.end as nat, 1);
      assert forall n: nat :: OnStep(n, start, 1) <==> n >= start;
    case RangeStepped(r, step) => StepsMembers(r.start as nat, r.end as nat, step.value as nat);
  }

  /**
   * The alternatives of the pattern of an item other than `Any` in a field of two-digit
   * values: each is two digits, and the rendering of a number is among them exactly when
   * the item admits the number.
   */
  lemma ItemAlternatives(item: CronSpecItem, lo: u8, hi: u8)
    requires Inhabits(item, lo, hi) && !item.Any? && hi < 100
    ensures forall a :: a in Padded(Values(item, lo, hi)) ==> |a| == 2 && Strings.AllDigits(a)
    ensures forall n: nat :: n < 100 ==> (Pad2(n) in Padded(Values(item, lo, hi)) <==> Admits(item, lo, hi, n))
  {
    var vs := Values(item, lo, hi);
    ValuesAdmitted(item, lo, hi);
    forall v | v in vs
      ensures v < 100
    {
      AdmitsBounded(item, lo, hi, v);
    }
    PaddedTwoDigits(vs);
    PaddedMembers(vs);
  }

  /** Values below 100 render as two digits each. */
  lemma PaddedTwoDigits(vs: seq<nat>)
    requires forall v :: v in vs ==> v < 100
    ensures forall a :: a in Padded(vs) ==> |a| == 2 && Strings.AllDigits(a)
  {
    forall a | a in Padded(vs)
      ensures |a| == 2 && Strings.AllDigits(a)
    {
      var i :| 0 <= i < |vs| && a == Pad2(vs[i]);
      assert vs[i] in vs;
      Pad2TwoDigits(vs[i]);
    }
  }

  /** Among values below 100, the rendering of `n` is listed exactly when `n` is. */
  lemma PaddedMembers(vs: seq<nat>)
    requires forall v :: v in vs ==> v < 100
    ensures forall n: nat :: n < 100 ==> (Pad2(n) in Padded(vs) <==> n in vs)
  {
    forall n: nat | n < 100
      ensures Pad2(n) in Padded(vs) <==> n in vs
    {
      Pad2TwoDigits(n);
      if Pad2(n) in Padded(vs) {
        var i :| 0 <= i < |vs| && Pad2(n) == Pad2(vs[i]);
        assert vs[i] in vs;
        Pad2TwoDigits(vs[i]);
      }
      if n in vs {
        var i :| 0 <= i < |vs| && vs[i] == n;
        assert Padded(vs)[i] == Pad2(n);
      }
    }
  }

  lemma AdmitsBounded(item: CronSpecItem, lo: u8, hi: u8, n: nat)
    requires Inhabits(item, lo, hi) && Admits(item, lo, hi, n)
    ensures n <= hi as nat
  {
  }

  /** The characters a field pattern is made of. */
  predicate PatternChar(c: char) {
    Strings.IsDigit(c) || c == '|' || c == '.'
  }

  predicate AllPatternChars(s: string) {
    forall j :: 0 <= j < |s| ==> PatternChar(s[j])
  }

  lemma {:induction false} JoinPatternChars(ss: seq<string>)
    requires forall i :: 0 <= i < |ss| ==> AllPatternChars(ss[i])
    ensures AllPatternChars(Strings.JoinWith(ss, "|"))
  {
    if |ss| > 1 {
      JoinPatternChars(ss[1..]);
      var rest := Strings.JoinWith(ss[1..], "|");
      assert Strings.JoinWith(ss, "|") == ss[0] + "|" + rest;
    }
  }

  lemma ItemPatternChars(item: CronSpecItem, lo: u8, hi: u8)
    requires Inhabits(item, lo, hi)
    ensures AllPatternChars(ItemPattern(item, lo, hi))
  {
    if !item.Any? {
      var ps := Padded(Values(item, lo, hi));
      forall i | 0 <= i < |ps|
        ensures AllPatternChars(ps[i])
      {
        var n := Values(item, lo, hi)[i];
        assert ps[i] == Pad2(n);
        assert Strings.AllDigits(Strings.NatToString(n));
      }
      JoinPatternChars(ps);
    }
  }

  /** The pattern of a spec is five groups, one per field, in the order minute, hour, day
      of the month, month, day of the week; no field pattern holds a parenthesis, so the
      groups are exactly these five. */
  lemma SpecPatternGroups(spec: CronSpec)
    requires Typed(spec)
    ensures var groups := [FieldPattern(spec.minute, 0, 59), FieldPattern(spec.hour, 0, 23),
                           FieldPattern(spec.dayOfMonth, 1, 31), FieldPattern(spec.month, 1, 12),
                           FieldPattern(spec.dayOfWeek, 1, 7)];
            SpecPattern(spec) == "(" + groups[0] + ")(" + groups[1] + ")(" + groups[2] + ")(" + groups[3]
                                 + ")(" + groups[4] + ")"
            && forall g :: g in groups ==> '(' !in g && ')' !in g
  {
    FieldPatternChars(spec.minute, 0, 59);
    FieldPatternChars(spec.hour, 0, 23);
    FieldPatternChars(spec.dayOfMonth, 1, 31);
    FieldPatternChars(spec.month, 1, 12);
    FieldPatternChars(spec.dayOfWeek, 1, 7);
  }

  lemma FieldPatternChars(items: seq<CronSpecItem>, lo: u8, hi: u8)
    requires FieldOf(items, lo, hi)
    ensures '(' !in FieldPattern(items, lo, hi) && ')' !in FieldPattern(items, lo, hi)
  {
    var ps := seq(|items|, i requires 0 <= i < |items| => ItemPattern(items[i], lo, hi));
    forall i | 0 <= i < |ps|
      ensures AllPatternChars(ps[i])
    {
      ItemPatternChars(items[i], lo, hi);
    }
    JoinPatternChars(ps);
    assert FieldPattern(items, lo, hi) == Strings.JoinWith(ps, "|");
  }
}
