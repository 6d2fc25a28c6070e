// How the scraper's operations relate to each other: take and drop split the results,
// retain and discard partition them, extract walks them in order, and delete removes
// exactly the text a group-less extract keeps.

module ScraperProperties {
  import opened Wrappers
  import opened Errors
  import Strings
  import opened Regex
  import opened Scrapers

  /** `take(n)` and `drop(n)` split the results at the same place. */
  lemma TakeDropSplit(s: Scraper, n: nat)
    ensures s.Take(n).results + s.Drop(n).results == s.results
  {
  }

  /** `drop(0)` changes nothing, and two drops are one. */
  lemma DropZero(s: Scraper)
    ensures s.Drop(0) == s
  {
  }

  lemma DropDrop(s: Scraper, m: nat, n: nat)
    ensures s.Drop(m).Drop(n) == s.Drop(m + n)
  {
  }

  /** `first` is `take(1)`. */
  lemma FirstIsTakeOne(s: Scraper)
    ensures s.First() == s.Take(1)
  {
  }

  /** `last` keeps what dropping all but one result keeps. */
  lemma LastIsDropAllButOne(s: Scraper)
    requires s.results != []
    ensures s.Last() == s.Drop(|s.results| - 1)
  {
  }

  lemma AppendAppend(s: Scraper, a: string, b: string)
    ensures s.Append(a).Append(b) == s.Append(a + b)
  {
    var l := s.Append(a).Append(b);
    var r := s.Append(a + b);
    forall i | 0 <= i < |s.results|
      ensures l.results[i] == r.results[i]
    {
      assert s.results[i] + a + b == s.results[i] + (a + b);
    }
  }

  lemma PrependAppendCommute(s: Scraper, p: string, q: string)
    ensures s.Prepend(p).Append(q) == s.Append(q).Prepend(p)
  {
    var l := s.Prepend(p).Append(q);
    var r := s.Append(q).Prepend(p);
    forall i | 0 <= i < |s.results|
      ensures l.results[i] == r.results[i]
    {
      assert p + s.results[i] + q == p + (s.results[i] + q);
    }
  }

  /** Joining with the empty separator concatenates the results. */
  lemma JoinWithoutSeparator(s: Scraper)
    requires s.results != []
    ensures s.Join("").results == [Strings.Concat(s.results)]
  {
    Strings.JoinWithEmpty(s.results);
  }

  /** The join test: `a`, `b`, `c` joined with `~~~` make one result. */
  lemma JoinTest(s: Scraper)
    requires s.results == ["a", "b", "c"]
    ensures s.Join("~~~").results == ["a~~~b~~~c"]
  {
    assert Strings.JoinWith(["a"], "~~~") == "a";
    Strings.JoinWithAppend(["a"], "b", "~~~");
    assert ["a"] + ["b"] == ["a", "b"];
    assert Strings.JoinWith(["a", "b"], "~~~") == "a~~~b";
    Strings.JoinWithAppend(["a", "b"], "c", "~~~");
    assert ["a", "b"] + ["c"] == ["a", "b", "c"];
    assert Strings.JoinWith(["a", "b", "c"], "~~~") == "a~~~b~~~c";
  }

  lemma {:induction false} FilterPartition(e: RegexEngine, pattern: string, rs: seq<string>)
    ensures multiset(Filter(e, pattern, rs, true)) + multiset(Filter(e, pattern, rs, false)) == multiset(rs)
    ensures |Filter(e, pattern, rs, true)| + |Filter(e, pattern, rs, false)| == |rs|
  {
    if rs != [] {
      FilterPartition(e, pattern, rs[1..]);
      FilterPartitionStep(e, pattern, rs);
    }
    assert |multiset(Filter(e, pattern, rs, true))| == |Filter(e, pattern, rs, true)|;
    assert |multiset(Filter(e, pattern, rs, false))| == |Filter(e, pattern, rs, false)|;
  }

  lemma FilterPartitionStep(e: RegexEngine, pattern: string, rs: seq<string>)
    requires rs != []
    requires multiset(Filter(e, pattern, rs[1..], true)) + multiset(Filter(e, pattern, rs[1..], false)) == multiset(rs[1..])
    ensures multiset(Filter(e, pattern, rs, true)) + multiset(Filter(e, pattern, rs, false)) == multiset(rs)
  {
    var head := [rs[0]];
    assert rs == head + rs[1..];
    FilterStep(e, pattern, rs, true);
    FilterStep(e, pattern, rs, false);
  }

  /** Unfolding step of `Filter` on a non-empty list, used by the proofs above; it states
      no property of its own. */
  lemma FilterStep(e: RegexEngine, pattern: string, rs: seq<string>, keep: bool)
    requires rs != []
    ensures Filter(e, pattern, rs, keep) ==
            (if IsMatch(e, pattern, rs[0]) == keep then [rs[0]] + Filter(e, pattern, rs[1..], keep)
             else Filter(e, pattern, rs[1..], keep))
  {
  }

  /** The results `retain` and `discard` keep stay in the order they had. */
  lemma {:induction false} FilterKeepsOrder(e: RegexEngine, pattern: string, rs: seq<string>, keep: bool)
    ensures Strings.IsSubsequence(Filter(e, pattern, rs, keep), rs)
  {
    if rs != [] {
      FilterKeepsOrder(e, pattern, rs[1..], keep);
      FilterStep(e, pattern, rs, keep);
      var tail := Filter(e, pattern, rs[1..], keep);
      if IsMatch(e, pattern, rs[0]) == keep {
        assert ([rs[0]] + tail)[1..] == tail;
      }
    }
  }

  /** `retain` and `discard` with one pattern split the results between them. */
  lemma RetainDiscardPartition(s: Scraper, pattern: string, e: RegexEngine)
    requires e.compiles(pattern)
    ensures var kept := s.Retain(pattern, e).value.results;
            var dropped := s.Discard(pattern, e).value.results;
            multiset(kept) + multiset(dropped) == multiset(s.results)
            && |kept| + |dropped| == |s.results|
            && (forall x :: x in kept ==> IsMatch(e, pattern, x))
            && (forall x :: x in dropped ==> !IsMatch(e, pattern, x))
            && Strings.IsSubsequence(kept, s.results) && Strings.IsSubsequence(dropped, s.results)
  {
    FilterPartition(e, pattern, s.results);
    FilterKeepsOrder(e, pattern, s.results, true);
    FilterKeepsOrder(e, pattern, s.results, false);
  }

  /** `extract` handles the results one after the other. */
  lemma {:induction false} ExtractAllAppend(e: RegexEngine, pattern: string, a: seq<string>, b: seq<string>)
    ensures ExtractAll(e, pattern, a + b) == ExtractAll(e, pattern, a) + ExtractAll(e, pattern, b)
  {
    if a == [] {
      assert a + b == b;
    } else {
      ExtractAllAppend(e, pattern, a[1..], b);
      assert (a + b)[1..] == a[1..] + b;
    }
  }

  /** For a pattern without groups, what `delete` leaves and what `extract` keeps add up
      to the text. */
  lemma DeleteExtractComplement(t: string, pattern: string, e: RegexEngine)
    requires !e.hasGroup(pattern)
    ensures var cs := e.captures(pattern, t);
            |DeleteMatches(t, cs, 0)| + Strings.SumOfLengths(ExtractMatches(t, cs, 0, false)) == |t|
  {
  }

  /** A result the pattern does not match is left by `delete` and gives `extract`
      nothing. */
  lemma NoMatchUntouched(s: Scraper, pattern: string, e: RegexEngine, i: nat)
    requires e.compiles(pattern) && i < |s.results| && !IsMatch(e, pattern, s.results[i])
    ensures s.Delete(pattern, e).value.results[i] == s.results[i]
    ensures ExtractAll(e, pattern, [s.results[i]]) == []
  {
  }

  /** Headers set before a `get` are what the driver is given. */
  lemma GetSendsHeaders(s: Scraper, key: string, value: string, url: string, driver: HttpDriver)
    ensures var r := s.SetHeader(key, value).Get(url, driver);
            var sent := Headers(s.headers[key := value]);
            (r.Ok? <==> driver(url, sent).Ok?)
            && (r.Ok? ==> r.value.results == s.results + [driver(url, sent).value])
    ensures var r := s.ClearHeaders().Get(url, driver);
            r.Ok? <==> driver(url, Headers(map[])).Ok?
  {
  }
}
