// The regular-expression engine behind `extract`, `delete`, `retain` and `discard`
// (the `regex` crate), kept abstract: a pattern compiles or not, has a first capture
// group or not, and on a text yields its leftmost non-overlapping matches in order.

module Regex {
  import opened Wrappers

  datatype Span = Span(start: nat, end: nat)

  /** One match: the whole match and, if it took part, capture group 1. */
  datatype Capture = Capture(whole: Span, group1: Option<Span>)

  /** A capture lies in the text from `from` on, its group inside the whole match. */
  predicate CaptureIn(c: Capture, from: nat, n: nat) {
    from <= c.whole.start <= c.whole.end <= n
    && (c.group1.Some? ==> c.whole.start <= c.group1.value.start <= c.group1.value.end <= c.whole.end)
  }

  /** Captures in text order, none overlapping the next, all inside a text of length `n`. */
  predicate Ordered(cs: seq<Capture>, from: nat, n: nat)
    decreases |cs|
  {
    from <= n && (cs != [] ==> CaptureIn(cs[0], from, n) && Ordered(cs[1..], cs[0].whole.end, n))
  }

  datatype Engine = Engine(
    compiles: string -> bool,     // `Regex::new(pattern)` succeeds
    hasGroup: string -> bool,     // the pattern has a capture group (`captures.len() > 1`)
    captures: (string, string) -> seq<Capture>)   // `captures_iter(text)`

  ghost predicate ValidEngine(e: Engine) {
    forall pattern: string, text: string :: Ordered(e.captures(pattern, text), 0, |text|)
  }

  type RegexEngine = e: Engine | ValidEngine(e)
    witness Engine(p => true, p => false, (p, t) => [])

  /** `Regex::is_match` */
  predicate IsMatch(e: RegexEngine, pattern: string, text: string) {
    |e.captures(pattern, text)| > 0
  }
}
