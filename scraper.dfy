// The scraper (src/scraper.rs): an immutable value holding the current results and
// the request headers. Every operation returns a new value and copies the part it does
// not touch.

module Scrapers {
  import opened Wrappers
  import opened Errors
  import Strings
  import opened Regex

  /** What `HttpDriver::get` is given besides the URL. */
  datatype HttpHeaders = NoHeaders | Headers(headers: map<string, string>)

  /** `HttpDriver::get`: the body fetched from a URL, or the error of the request. */
  type HttpDriver = (string, HttpHeaders) -> Result<string>

  // ----- what the regex operations compute on one text -----

  /** `Regex::replace_all(text, "")`: the text between the matches. */
  function DeleteMatches(t: string, cs: seq<Capture>, from: nat): (r: string)
    requires Ordered(cs, from, |t|)
    ensures |r| + MatchedLength(cs) == |t| - from
    decreases |cs|
  {
    if cs == [] then t[from..]
    else t[from..cs[0].whole.start] + DeleteMatches(t, cs[1..], cs[0].whole.end)
  }

  function MatchedLength(cs: seq<Capture>): int {
    if cs == [] then 0 else (cs[0].whole.end - cs[0].whole.start) + MatchedLength(cs[1..])
  }

  /** The strings `extract` keeps from the matches of one text: capture group 1 where
      the pattern has a group (skipped where the group did not take part), otherwise
      the whole match. */
  function ExtractMatches(t: string, cs: seq<Capture>, from: nat, hasGroup: bool): (r: seq<string>)
    requires Ordered(cs, from, |t|)
    ensures |r| <= |cs|
    ensures !hasGroup ==> |r| == |cs| && Strings.SumOfLengths(r) == MatchedLength(cs)
    decreases |cs|
  {
    if cs == [] then []
    else
      var c := cs[0];
      var piece := if !hasGroup then [t[c.whole.start..c.whole.end]]
                   else if c.group1.Some? then [t[c.group1.value.start..c.group1.value.end]]
                   else [];
      piece + ExtractMatches(t, cs[1..], c.whole.end, hasGroup)
  }

  /** Every text's extracted strings, text after text. */
  function ExtractAll(e: RegexEngine, pattern: string, rs: seq<string>): (r: seq<string>)
    ensures rs == [] ==> r == []
  {
    if rs == [] then []
    else ExtractMatches(rs[0], e.captures(pattern, rs[0]), 0, e.hasGroup(pattern)) + ExtractAll(e, pattern, rs[1..])
  }

  /** The texts that match (`keep`) or do not match (`!keep`), in their order. */
  function Filter(e: RegexEngine, pattern: string, rs: seq<string>, keep: bool): (r: seq<string>)
    ensures |r| <= |rs|
    ensures forall i :: 0 <= i < |r| ==> IsMatch(e, pattern, r[i]) == keep
    ensures forall x :: x in rs && IsMatch(e, pattern, x) == keep ==> x in r
    ensures multiset(r) <= multiset(rs)
  {
    if rs == [] then []
    else
      var tail := Filter(e, pattern, rs[1..], keep);
      assert rs == [rs[0]] + rs[1..];
      if IsMatch(e, pattern, rs[0]) == keep then [rs[0]] + tail else tail
  }

  datatype Scraper = Scraper(results: seq<string>, headers: map<string, string>) {

    /** `with_results` */
    function WithResults(results: seq<string>): (r: Scraper)
      ensures r.results == results && r.headers == headers
    {
      this.(results := results)
    }

    /** `get`: one more result, the driver's response to the URL sent with the current
        headers. */
    function Get(url: string, driver: HttpDriver): (r: Result<Scraper>)
      ensures r.Ok? <==> driver(url, Headers(headers)).Ok?
      ensures r.Err? ==> r.error == driver(url, Headers(headers)).error
      ensures r.Ok? ==> r.value.headers == headers && r.value.results == results + [driver(url, Headers(headers)).value]
    {
      var body :- driver(url, Headers(headers));
      Ok(this.(results := results + [body]))
    }

    /** `extract` */
    function Extract(pattern: string, e: RegexEngine): (r: Result<Scraper>)
      ensures r.Err? <==> !e.compiles(pattern)
      ensures r.Err? ==> r.error == RegexError(pattern)
      ensures r.Ok? ==> r.value.headers == headers && r.value.results == ExtractAll(e, pattern, results)
    {
      if !e.compiles(pattern) then Err(RegexError(pattern))
      else Ok(this.(results := ExtractAll(e, pattern, results)))
    }

    /** `delete`: every match removed from every result. */
    function Delete(pattern: string, e: RegexEngine): (r: Result<Scraper>)
      ensures r.Err? <==> !e.compiles(pattern)
      ensures r.Err? ==> r.error == RegexError(pattern)
      ensures r.Ok? ==> r.value.headers == headers && |r.value.results| == |results|
      ensures r.Ok? ==> forall i :: 0 <= i < |results| ==>
                          r.value.results[i] == DeleteMatches(results[i], e.captures(pattern, results[i]), 0)
    {
      if !e.compiles(pattern) then Err(RegexError(pattern))
      else Ok(this.(results := seq(|results|, i requires 0 <= i < |results| =>
                                     DeleteMatches(results[i], e.captures(pattern, results[i]), 0))))
    }

    /** `retain`: the results that match. */
    function Retain(pattern: string, e: RegexEngine): (r: Result<Scraper>)
      ensures r.Err? <==> !e.compiles(pattern)
      ensures r.Err? ==> r.error == RegexError(pattern)
      ensures r.Ok? ==> r.value.headers == headers && r.value.results == Filter(e, pattern, results, true)
    {
      if !e.compiles(pattern) then Err(RegexError(pattern))
      else Ok(this.(results := Filter(e, pattern, results, true)))
    }

    /** `discard`: the results that do not match. */
    function Discard(pattern: string, e: RegexEngine): (r: Result<Scraper>)
      ensures r.Err? <==> !e.compiles(pattern)
      ensures r.Err? ==> r.error == RegexError(pattern)
      ensures r.Ok? ==> r.value.headers == headers && r.value.results == Filter(e, pattern, results, false)
    {
      if !e.compiles(pattern) then Err(RegexError(pattern))
      else Ok(this.(results := Filter(e, pattern, results, false)))
    }

    /** `first` */
    function First(): (r: Scraper)
      ensures r.headers == headers && |r.results| == if results == [] then 0 else 1
      ensures results != [] ==> r.results[0] == results[0]
    {
      this.(results := if results == [] then [] else results[..1])
    }

    /** `last` */
    function Last(): (r: Scraper)
      ensures r.headers == headers && |r.results| == if results == [] then 0 else 1
      ensures results != [] ==> r.results[0] == results[|results| - 1]
    {
      this.(results := if results == [] then [] else [results[|results| - 1]])
    }

    /** `take` */
    function Take(n: nat): (r: Scraper)
      ensures r.headers == headers
      ensures |r.results| == if n < |results| then n else |results|
      ensures Strings.IsPrefix(r.results, results)
    {
      this.(results := if results == [] then [] else results[..if n < |results| then n else |results|])
    }

    /** `drop` */
    function Drop(n: nat): (r: Scraper)
      ensures r.headers == headers
      ensures |r.results| == if n < |results| then |results| - n else 0
      ensures forall i :: 0 <= i < |r.results| ==> r.results[i] == results[n + i]
    {
      this.(results := if results == [] then [] else results[if n < |results| then n else |results|..])
    }

    /** `prepend`: the prefix before every result. */
    function Prepend(prefix: string): (r: Scraper)
      ensures r.headers == headers && |r.results| == |results|
      ensures forall i :: 0 <= i < |results| ==> r.results[i] == prefix + results[i]
    {
      this.(results := seq(|results|, i requires 0 <= i < |results| => prefix + results[i]))
    }

    /** `append`: the suffix after every result. */
    function Append(suffix: string): (r: Scraper)
      ensures r.headers == headers && |r.results| == |results|
      ensures forall i :: 0 <= i < |results| ==> r.results[i] == results[i] + suffix
    {
      this.(results := seq(|results|, i requires 0 <= i < |results| => results[i] + suffix))
    }

    /** `join`: no results stay none; otherwise one result, all of them with the
        separator between neighbours. */
    function Join(separator: string): (r: Scraper)
      ensures r.headers == headers
      ensures results == [] ==> r.results == []
      ensures results != [] ==> r.results == [Strings.JoinWith(results, separator)]
      ensures results != [] ==> |r.results| == 1
                                && |r.results[0]| == Strings.SumOfLengths(results) + |separator| * (|results| - 1)
    {
      this.(results := if results == [] then [] else [Strings.JoinWith(results, separator)])
    }

    /** `clear` */
    function Clear(): (r: Scraper)
      ensures r.results == [] && r.headers == headers
    {
      this.(results := [])
    }

    /** `set_header`: one header inserted or replaced. */
    function SetHeader(key: string, value: string): (r: Scraper)
      ensures r.results == results && r.headers == headers[key := value]
    {
      this.(headers := headers[key := value])
    }

    /** `clear_headers` */
    function ClearHeaders(): (r: Scraper)
      ensures r.results == results && r.headers == map[]
    {
      this.(headers := map[])
    }
  }

  /** `Scraper::new` */
  function NewScraper(): (s: Scraper)
    ensures s.results == [] && s.headers == map[]
  {
    Scraper([], map[])
  }
}
