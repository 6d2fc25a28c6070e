// The effects of src/effect.rs: the keyword check every effect runs, and what `print`
// and `notify` report back. Writing to standard output and showing a desktop
// notification are the outside world: `print`'s text is returned as a value, and the
// outcome of showing a notification is a parameter.

module Effects {
  import opened Wrappers
  import opened Errors
  import Strings

  /** The keys of `kwargs` that are not among `known`. */
  function UnknownKeys(known: seq<string>, kwargs: map<string, string>): set<string> {
    set k | k in kwargs && k !in known
  }

  /** `report_unknown_kwargs`: an `EffectError` naming the effect, the offending keys and
      the accepted ones as soon as one key is not accepted. */
  function ReportUnknownKwargs(context: string, known: seq<string>, kwargs: map<string, string>): (r: Option<Error>)
    ensures r.None? <==> forall k :: k in kwargs ==> k in known
    ensures r.Some? ==> r.value.EffectError? && r.value.effect.UnknownKeywords?
                        && r.value.effect.context == context && r.value.effect.known == known
    ensures r.Some? ==> r.value.effect.unknown != {}
                        && forall k :: k in r.value.effect.unknown <==> k in kwargs && k !in known
  {
    if exists k :: k in kwargs && k !in known then
      var k :| k in kwargs && k !in known;
      assert k in UnknownKeys(known, kwargs);
      Some(EffectError(UnknownKeywords(context, UnknownKeys(known, kwargs), known)))
    else None
  }

  /** The keyword arguments `print` accepts. */
  const PrintKeywords: seq<string> := ["end"]

  /** The keyword arguments `notify` accepts. */
  const NotifyKeywords: seq<string> := ["body", "appname", "title", "icon", "sound"]

  // ----- print -----

  /** The arguments as the loop of `print` writes them: every one but the last followed
      by a space, then the last. */
  function PrintedArgs(args: seq<string>): string
    requires |args| > 0
  {
    Strings.Concat(seq(|args| - 1, i requires 0 <= i < |args| - 1 => args[i] + " ")) + args[|args| - 1]
  }

  /** What `print` writes: nothing in silent test mode, otherwise the arguments and then
      the `end` keyword argument or a line break. */
  function PrintOutput(args: seq<string>, kwargs: map<string, string>, silent: bool): string
    requires |args| > 0
  {
    if silent then []
    else PrintedArgs(args) + (if "end" in kwargs then kwargs["end"] else "\n")
  }

  /** What `print` returns. */
  function PrintResult(kwargs: map<string, string>): Option<Error> {
    ReportUnknownKwargs("print", PrintKeywords, kwargs)
  }

  /** `print` writes its arguments separated by single spaces. */
  lemma {:induction false} PrintedArgsJoin(args: seq<string>)
    requires |args| > 0
    ensures PrintedArgs(args) == Strings.JoinWith(args, " ")
    decreases |args|
  {
    if |args| > 1 {
      var rest := args[1..];
      PrintedArgsJoin(rest);
      var spaced := seq(|args| - 1, i requires 0 <= i < |args| - 1 => args[i] + " ");
      var spacedRest := seq(|rest| - 1, i requires 0 <= i < |rest| - 1 => rest[i] + " ");
      assert spaced[1..] == spacedRest;
      assert Strings.Concat(spaced) == (args[0] + " ") + Strings.Concat(spacedRest);
      assert rest[|rest| - 1] == args[|args| - 1];
    }
  }

  /** `print` accepts exactly the keyword `end`, and reports every other key. */
  lemma PrintAcceptsOnlyEnd(kwargs: map<string, string>)
    ensures PrintResult(kwargs).None? <==> kwargs.Keys <= {"end"}
    ensures PrintResult(kwargs).Some? ==> PrintResult(kwargs).value.effect.unknown == kwargs.Keys - {"end"}
  {
    assert forall k :: k in PrintKeywords <==> k == "end";
  }

  /** The three calls of the test of `print`, in silent test mode. */
  lemma PrintTests(args: seq<string>)
    requires args == ["hello", "world"]
    ensures PrintResult(map[]) == None
    ensures PrintResult(map["end" := ""]) == None
    ensures PrintResult(map["eol" := ""]).Some?
    ensures PrintOutput(args, map[], true) == []
    ensures PrintOutput(args, map[], false) == "hello world\n"
    ensures PrintOutput(args, map["end" := ""], false) == "hello world"
  {
    PrintAcceptsOnlyEnd(map[]);
    PrintAcceptsOnlyEnd(map["end" := ""]);
    PrintAcceptsOnlyEnd(map["eol" := ""]);
    assert "eol" in map["eol" := ""].Keys && "eol" != "end";
    PrintedArgsJoin(args);
    assert Strings.JoinWith(args, " ") == "hello" + " " + Strings.JoinWith(["world"], " ");
  }

  // ----- notify -----

  /** The notification `notify` builds; an absent field keeps the library's default. */
  datatype Notification = Notification(body: string, appname: Option<string>, summary: Option<string>,
                                       icon: Option<string>, sound: Option<string>)

  function Get(kwargs: map<string, string>, key: string): Option<string> {
    if key in kwargs then Some(kwargs[key]) else None
  }

  /** The notification of `notify`: the `body` keyword argument or else the positional
      arguments joined by spaces, and the four optional fields from their keywords. */
  function NotificationOf(args: seq<string>, kwargs: map<string, string>): (n: Notification)
    ensures "body" !in kwargs ==> n.body == Strings.JoinWith(args, " ")
    ensures "body" in kwargs ==> n.body == kwargs["body"]
    ensures n.appname.Some? <==> "appname" in kwargs
    ensures "appname" in kwargs ==> n.appname.value == kwargs["appname"]
    ensures n.summary.Some? <==> "title" in kwargs
    ensures "title" in kwargs ==> n.summary.value == kwargs["title"]
    ensures n.icon.Some? <==> "icon" in kwargs
    ensures "icon" in kwargs ==> n.icon.value == kwargs["icon"]
    ensures n.sound.Some? <==> "sound" in kwargs
    ensures "sound" in kwargs ==> n.sound.value == kwargs["sound"]
  {
    Notification(if "body" in kwargs then kwargs["body"] else Strings.JoinWith(args, " "),
                 Get(kwargs, "appname"), Get(kwargs, "title"), Get(kwargs, "icon"), Get(kwargs, "sound"))
  }

  /**
   * What `notify` returns: `sendError` is the failure of showing the notification
   * (always `None` in silent test mode); it and the keyword check are combined into one
   * `EffectError`.
   */
  function NotifyResult(sendError: Option<string>, kwargs: map<string, string>): (r: Option<Error>)
    ensures r.None? <==> sendError.None? && forall k :: k in kwargs ==> k in NotifyKeywords
    ensures r.Some? ==> r.value.EffectError?
  {
    var kw := ReportUnknownKwargs("notify", NotifyKeywords, kwargs);
    var kwText := if kw.Some? then Some(kw.value.effect) else None;
    match (sendError, kwText)
    case (Some(s1), Some(s2)) => Some(EffectError(NotificationFailedAndUnknownKeywords(s1, s2)))
    case (Some(s1), None) => Some(EffectError(NotificationFailed(s1)))
    case (None, Some(s2)) => Some(EffectError(s2))
    case (None, None) => None
  }

  /** A failure to show the notification is reported even when every keyword is known,
      and unknown keywords are reported even when showing it worked. */
  lemma NotifyReportsBoth(reason: string, kwargs: map<string, string>)
    ensures var known := forall k :: k in kwargs ==> k in NotifyKeywords;
            (known ==> NotifyResult(Some(reason), kwargs) == Some(EffectError(NotificationFailed(reason))))
            && (!known ==> NotifyResult(Some(reason), kwargs)
                           == Some(EffectError(NotificationFailedAndUnknownKeywords(reason,
                                  UnknownKeywords("notify", UnknownKeys(NotifyKeywords, kwargs), NotifyKeywords)))))
            && (!known ==> NotifyResult(None, kwargs)
                           == Some(EffectError(UnknownKeywords("notify", UnknownKeys(NotifyKeywords, kwargs), NotifyKeywords))))
  {
  }

  /** The tests of `report_unknown_kwargs`. */
  lemma ReportUnknownKwargsTests(known: seq<string>)
    requires known == ["a", "b", "c"]
    ensures ReportUnknownKwargs("test", known, map[]) == None
    ensures ReportUnknownKwargs("test", known, map["a" := "1", "b" := "2", "c" := "3"]) == None
    ensures ReportUnknownKwargs("test", [], map["a" := "1"]).Some?
    ensures ReportUnknownKwargs("test", known, map["d" := "1"])
            == Some(EffectError(UnknownKeywords("test", {"d"}, known)))
  {
    assert "d" !in known;
    assert "a" !in [];
    assert UnknownKeys(known, map["d" := "1"]) == {"d"};
  }

  /** The test of `notify`, in silent test mode. */
  lemma NotifyTest(kwargs: map<string, string>)
    requires kwargs == map["body" := "test_notify", "appname" := "scrapeycat", "title" := "info",
                           "icon" := "lightbulb.svg", "sound" := "ding.wav"]
    ensures NotifyResult(None, kwargs) == None
    ensures NotificationOf([], kwargs) == Notification("test_notify", Some("scrapeycat"), Some("info"),
                                                       Some("lightbulb.svg"), Some("ding.wav"))
  {
    assert forall k :: k in kwargs ==> k in NotifyKeywords;
  }
}
