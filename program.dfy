// The ScrapeLang interpreter, `run` of src/scrapelang/program.rs: load a script, strip
// its comments, lex and parse it, seed the variables from the arguments, then run the
// instructions one after the other, threading the scraper and the variables through
// them. Effects are sent out as they are met, so the ones sent before a failure stay
// sent; the model collects them in order next to the result.
//
// A `run` instruction runs another script and appends its results. The source recurses
// without bound; the model gives every run a fuel and fails with `RecursionLimit` when a
// `run` instruction is met with none left.

module Interpreter {
  import opened Wrappers
  import opened Errors
  import Strings
  import opened Regex
  import opened Scrapers
  import opened Substitution
  import L = Lexer
  import P = Parser
  import Preprocessor

  /** What is sent to the effect runner: the effect's name, its arguments and its
      keyword arguments, all resolved to strings. */
  datatype EffectInvocation = EffectInvocation(name: string, args: seq<string>, kwargs: map<string, string>)

  /** What `run` reaches outside itself: the script loader, the HTTP driver behind `get`,
      and the regular-expression engine. */
  datatype Env = Env(loader: string -> Result<string>, driver: HttpDriver, engine: RegexEngine)

  datatype State = State(vars: Variables, scraper: Scraper)

  /** The effects sent, in order, and how the run ended. */
  datatype Outcome<T> = Outcome(effects: seq<EffectInvocation>, result: Result<T>)

  // ----- seeding the variables -----

  /** Positional argument i (from 0) under the name of i + 1, as a one-element list. */
  function PositionalVars(args: seq<string>): Variables {
    if args == [] then map[]
    else PositionalVars(args[..|args| - 1])[Strings.NatToString(|args|) := [args[|args| - 1]]]
  }

  /** `base` with the keys of `done` replaced by their keyword value. */
  function Overlay(base: Variables, kwargs: map<string, string>, done: set<string>): Variables
    requires done <= kwargs.Keys
  {
    map k | k in base.Keys + done :: if k in done then [kwargs[k]] else base[k]
  }

  /** The variables a run starts with: positional arguments first, then the keyword
      arguments over them. */
  function SeedVariables(args: seq<string>, kwargs: map<string, string>): Variables {
    Overlay(PositionalVars(args), kwargs, kwargs.Keys)
  }

  // ----- resolving effect and run arguments -----

  /** A string argument goes through `substitute_variables`; an identifier is its
      variable's list joined with no separator. */
  function Resolve(vars: Variables, a: P.Argument): Result<string> {
    match a
    case Str(s) => SubstitutedAsWritten(s, vars)
    case Ident(name) => Lookup(vars, name)
  }

  /** The positional arguments resolved in order; the first failure is the result. */
  function ResolveArgs(vars: Variables, args: seq<P.Argument>): (r: Result<seq<string>>)
    ensures r.Ok? <==> forall i :: 0 <= i < |args| ==> Resolve(vars, args[i]).Ok?
    ensures r.Ok? ==> |r.value| == |args| && forall i :: 0 <= i < |args| ==> Resolve(vars, args[i]) == Ok(r.value[i])
    ensures r.Err? ==> exists i :: 0 <= i < |args| && Resolve(vars, args[i]) == Err(r.error)
                                  && forall j :: 0 <= j < i ==> Resolve(vars, args[j]).Ok?
  {
    if args == [] then Ok([])
    else
      var v :- Resolve(vars, args[0]);
      var rest :- ResolveArgs(vars, args[1..]);
      Ok([v] + rest)
  }

  /** The keyword arguments resolved into a map with the same keys; the first failure is
      the result. */
  function ResolveKwargs(vars: Variables, kws: seq<P.KwArg>): (r: Result<map<string, string>>)
    ensures r.Ok? <==> forall i :: 0 <= i < |kws| ==> Resolve(vars, kws[i].value).Ok?
    ensures r.Ok? ==> r.value.Keys == P.KwMap(kws).Keys
                      && forall k :: k in r.value ==> Resolve(vars, P.KwMap(kws)[k]) == Ok(r.value[k])
    ensures r.Err? ==> exists i :: 0 <= i < |kws| && Resolve(vars, kws[i].value) == Err(r.error)
                                  && forall j :: 0 <= j < i ==> Resolve(vars, kws[j].value).Ok?
  {
    if kws == [] then Ok(map[])
    else
      var v :- Resolve(vars, kws[0].value);
      var rest :- ResolveKwargs(vars, kws[1..]);
      Ok(rest[kws[0].key := v])
  }

  // ----- one instruction -----

  /** The instructions that act on the scraper or the variables alone. `clear_headers`,
      `discard`, `header` and `retain` have no arm in the source's dispatch; they call the
      scraper operation of the same name with their arguments as written. */
  function Apply(env: Env, st: State, ins: P.Instruction): Result<State>
    requires !ins.Effect? && !ins.Run?
  {
    match ins
    case Append(str) =>
      var s :- SubstitutedAsWritten(str, st.vars);
      Ok(st.(scraper := st.scraper.Append(s)))
    case Clear => Ok(st.(scraper := st.scraper.Clear()))
    case ClearHeaders => Ok(st.(scraper := st.scraper.ClearHeaders()))
    case Delete(regex) =>
      var s :- SubstitutedAsWritten(regex, st.vars);
      var scraper :- st.scraper.Delete(s, env.engine);
      Ok(st.(scraper := scraper))
    case Discard(regex) =>
      var scraper :- st.scraper.Discard(regex, env.engine);
      Ok(st.(scraper := scraper))
    case Drop(count) => Ok(st.(scraper := st.scraper.Drop(count)))
    case Extract(regex) =>
      var s :- SubstitutedAsWritten(regex, st.vars);
      var scraper :- st.scraper.Extract(s, env.engine);
      Ok(st.(scraper := scraper))
    case First => Ok(st.(scraper := st.scraper.First()))
    case Get(url) =>
      var s :- SubstitutedAsWritten(url, st.vars);
      var scraper :- st.scraper.Get(s, env.driver);
      Ok(st.(scraper := scraper))
    case Header(key, value) => Ok(st.(scraper := st.scraper.SetHeader(key, value)))
    case Load(varname) =>
      if varname in st.vars then Ok(st.(scraper := st.scraper.WithResults(st.scraper.results + st.vars[varname])))
      else Err(VariableNotFoundError(varname))
    case Prepend(str) =>
      var s :- SubstitutedAsWritten(str, st.vars);
      Ok(st.(scraper := st.scraper.Prepend(s)))
    case Retain(regex) =>
      var scraper :- st.scraper.Retain(regex, env.engine);
      Ok(st.(scraper := scraper))
    case Store(varname) => Ok(st.(vars := st.vars[varname := st.scraper.results]))
  }

  /** An effect instruction sends one invocation and leaves the state as it was. */
  function EffectStep(st: State, name: string, args: seq<P.Argument>, kwargs: seq<P.KwArg>): Outcome<State> {
    var a := ResolveArgs(st.vars, args);
    var k := ResolveKwargs(st.vars, kwargs);
    if a.Err? then Outcome([], Err(a.error))
    else if k.Err? then Outcome([], Err(k.error))
    else Outcome([EffectInvocation(name, a.value, k.value)], Ok(st))
  }

  /** A run instruction runs the named script and appends its results. */
  function RunStep(env: Env, fuel: nat, st: State, job: string, args: seq<P.Argument>, kwargs: seq<P.KwArg>): Outcome<State>
    decreases fuel, 0, 1
  {
    var a := ResolveArgs(st.vars, args);
    var k := ResolveKwargs(st.vars, kwargs);
    if a.Err? then Outcome([], Err(a.error))
    else if k.Err? then Outcome([], Err(k.error))
    else RunResolved(env, fuel, st, job, a.value, k.value)
  }

  /** The sub-run of a run instruction once its arguments are resolved. */
  function RunResolved(env: Env, fuel: nat, st: State, job: string, args: seq<string>, kwargs: map<string, string>): Outcome<State>
    decreases fuel, 0, 0
  {
    if fuel == 0 then Outcome([], Err(RecursionLimit))
    else Appended(st, RunScript(env, fuel - 1, job, args, kwargs))
  }

  /** The results of a finished sub-run appended to the current ones, or its error. */
  function Appended(st: State, sub: Outcome<seq<string>>): Outcome<State> {
    if sub.result.Err? then Outcome(sub.effects, Err(sub.result.error))
    else Outcome(sub.effects, Ok(st.(scraper := st.scraper.WithResults(st.scraper.results + sub.result.value))))
  }

  function Step(env: Env, fuel: nat, st: State, ins: P.Instruction): Outcome<State>
    decreases fuel, 0, 2
  {
    match ins
    case Effect(name, args, kwargs) => EffectStep(st, name, args, kwargs)
    case Run(job, args, kwargs) => RunStep(env, fuel, st, job, args, kwargs)
    case _ => Outcome([], Apply(env, st, ins))
  }

  /** The instructions of `prog` one after the other, stopping at the first failure. */
  function ExecFrom(env: Env, fuel: nat, st: State, prog: seq<P.Instruction>): Outcome<State>
    decreases fuel, 1, |prog|
  {
    if prog == [] then Outcome([], Ok(st))
    else
      var o := Step(env, fuel, st, prog[0]);
      if o.result.Err? then o
      else
        var rest := ExecFrom(env, fuel, o.result.value, prog[1..]);
        Outcome(o.effects + rest.effects, rest.result)
  }

  /** `run`: the final results of the script, or the first error. */
  function RunScript(env: Env, fuel: nat, name: string, args: seq<string>, kwargs: map<string, string>): Outcome<seq<string>>
    decreases fuel, 2, 0
  {
    var script := env.loader(name);
    if script.Err? then Outcome([], Err(script.error))
    else
      var tokens := L.Lexed(Preprocessor.StripComments(script.value));
      if tokens.Err? then Outcome([], Err(tokens.error))
      else
        var program := P.ParsedProgram(tokens.value);
        if program.Err? then Outcome([], Err(program.error))
        else
          var out := ExecFrom(env, fuel, State(SeedVariables(args, kwargs), NewScraper()), program.value);
          Outcome(out.effects, if out.result.Ok? then Ok(out.result.value.scraper.results) else Err(out.result.error))
  }

  /** The effects `acc` sent before the outcome `o`. */
  function Preceded<T>(acc: seq<EffectInvocation>, o: Outcome<T>): Outcome<T> {
    Outcome(acc + o.effects, o.result)
  }

  // ----- the interpreter as the source runs it -----

  method Run(env: Env, fuel: nat, name: string, args: seq<string>, kwargs: map<string, string>)
    returns (out: Outcome<seq<string>>)
    ensures out == RunScript(env, fuel, name, args, kwargs)
    decreases fuel, 2, 0
  {
    var script := env.loader(name);
    if script.Err? {
      return Outcome([], Err(script.error));
    }
    var code := Preprocessor.StripComments(script.value);
    var tokens := L.Lex(code);
    if tokens.Err? {
      return Outcome([], Err(tokens.error));
    }
    var program := P.Parse(tokens.value);
    if program.Err? {
      return Outcome([], Err(program.error));
    }

    var variables := SeedLoop(args, kwargs);
    var scraper := NewScraper();
    var effects := [];
    var prog := program.value;
    ghost var start := State(variables, scraper);
    for i := 0 to |prog|
      invariant Preceded(effects, ExecFrom(env, fuel, State(variables, scraper), prog[i..])) == ExecFrom(env, fuel, start, prog)
    {
      var emitted, next := Execute(env, fuel, State(variables, scraper), prog[i]);
      ExecFromStep(env, fuel, State(variables, scraper), prog[i..]);
      assert prog[i..][1..] == prog[i + 1..];
      effects := effects + emitted;
      if next.Err? {
        return Outcome(effects, Err(next.error));
      }
      variables := next.value.vars;
      scraper := next.value.scraper;
    }
    assert effects + [] == effects;
    return Outcome(effects, Ok(scraper.results));
  }

  lemma ExecFromStep(env: Env, fuel: nat, st: State, prog: seq<P.Instruction>)
    requires prog != []
    ensures var o := Step(env, fuel, st, prog[0]);
            forall acc: seq<EffectInvocation> ::
              Preceded(acc, ExecFrom(env, fuel, st, prog)) ==
              (if o.result.Err? then Outcome(acc + o.effects, o.result)
               else Preceded(acc + o.effects, ExecFrom(env, fuel, o.result.value, prog[1..])))
  {
  }

  /** The variables as the two loops of the source seed them. */
  method SeedLoop(args: seq<string>, kwargs: map<string, string>) returns (variables: Variables)
    ensures variables == SeedVariables(args, kwargs)
  {
    variables := SeedPositional(args);
    variables := SeedKeywords(variables, kwargs);
  }

  /** The loop over the positional arguments. */
  method SeedPositional(args: seq<string>) returns (variables: Variables)
    ensures variables == PositionalVars(args)
  {
    variables := map[];
    for i := 0 to |args|
      invariant variables == PositionalVars(args[..i])
    {
      assert args[..i + 1][..i] == args[..i];
      variables := variables[Strings.NatToString(i + 1) := [args[i]]];
    }
    assert args[..|args|] == args;
  }

  /** The loop over the keyword arguments, each over whatever was there. */
  method SeedKeywords(base: Variables, kwargs: map<string, string>) returns (variables: Variables)
    ensures variables == Overlay(base, kwargs, kwargs.Keys)
  {
    variables := base;
    OverlayNone(base, kwargs);
    var done: set<string> := {};
    while done != kwargs.Keys
      invariant done <= kwargs.Keys
      invariant variables == Overlay(base, kwargs, done)
      decreases |kwargs.Keys - done|
    {
      var key :| key in kwargs.Keys - done;
      OverlayOneMore(base, kwargs, done, key);
      assert kwargs.Keys - (done + {key}) < kwargs.Keys - done;
      variables := variables[key := [kwargs[key]]];
      done := done + {key};
    }
  }

  lemma OverlayNone(base: Variables, kwargs: map<string, string>)
    ensures Overlay(base, kwargs, {}) == base
  {
  }

  lemma OverlayOneMore(base: Variables, kwargs: map<string, string>, done: set<string>, key: string)
    requires done <= kwargs.Keys && key in kwargs
    ensures Overlay(base, kwargs, done + {key}) == Overlay(base, kwargs, done)[key := [kwargs[key]]]
  {
  }

  /** One instruction: the effects it sends and the new state, or its failure. */
  method Execute(env: Env, fuel: nat, st: State, ins: P.Instruction)
    returns (emitted: seq<EffectInvocation>, next: Result<State>)
    ensures Outcome(emitted, next) == Step(env, fuel, st, ins)
    decreases fuel, 1, 0
  {
    if ins.Effect? {
      emitted, next := ExecuteEffect(st, ins);
    } else if ins.Run? {
      emitted, next := ExecuteRun(env, fuel, st, ins);
    } else {
      emitted := [];
      next := ApplyInstruction(env, st, ins);
    }
  }

  /** An effect instruction sends one invocation and leaves the state as it was. */
  method ExecuteEffect(st: State, ins: P.Instruction)
    returns (emitted: seq<EffectInvocation>, next: Result<State>)
    requires ins.Effect?
    ensures Outcome(emitted, next) == EffectStep(st, ins.effectName, ins.args, ins.kwargs)
  {
    var a := ResolveArgs(st.vars, ins.args);
    var k := ResolveKwargs(st.vars, ins.kwargs);
    if a.Err? {
      return [], Err(a.error);
    }
    if k.Err? {
      return [], Err(k.error);
    }
    return [EffectInvocation(ins.effectName, a.value, k.value)], Ok(st);
  }

  /** A run instruction runs the named script and appends its results. */
  method ExecuteRun(env: Env, fuel: nat, st: State, ins: P.Instruction)
    returns (emitted: seq<EffectInvocation>, next: Result<State>)
    requires ins.Run?
    ensures Outcome(emitted, next) == RunStep(env, fuel, st, ins.jobName, ins.args, ins.kwargs)
    decreases fuel, 0, 2
  {
    var a := ResolveArgs(st.vars, ins.args);
    var k := ResolveKwargs(st.vars, ins.kwargs);
    if a.Err? {
      return [], Err(a.error);
    }
    if k.Err? {
      return [], Err(k.error);
    }
    emitted, next := ExecuteResolved(env, fuel, st, ins.jobName, a.value, k.value);
  }

  /** The sub-run of a run instruction, its results appended to the current ones. */
  method ExecuteResolved(env: Env, fuel: nat, st: State, job: string, args: seq<string>, kwargs: map<string, string>)
    returns (emitted: seq<EffectInvocation>, next: Result<State>)
    ensures Outcome(emitted, next) == RunResolved(env, fuel, st, job, args, kwargs)
    decreases fuel, 0, 1
  {
    if fuel == 0 {
      return [], Err(RecursionLimit);
    }
    var left: nat := fuel - 1;
    emitted, next := RunAndAppend(env, left, st, job, args, kwargs);
    RunResolvedAppends(env, fuel, left, st, job, args, kwargs);
  }

  /** Running the named script with `fuel` left and appending its results. */
  method RunAndAppend(env: Env, fuel: nat, st: State, job: string, args: seq<string>, kwargs: map<string, string>)
    returns (emitted: seq<EffectInvocation>, next: Result<State>)
    ensures Outcome(emitted, next) == Appended(st, RunScript(env, fuel, job, args, kwargs))
    decreases fuel, 3, 0
  {
    var sub := Run(env, fuel, job, args, kwargs);
    emitted, next := AppendResults(st, sub);
  }

  lemma RunResolvedAppends(env: Env, fuel: nat, left: nat, st: State, job: string, args: seq<string>, kwargs: map<string, string>)
    requires fuel == left + 1
    ensures RunResolved(env, fuel, st, job, args, kwargs) == Appended(st, RunScript(env, left, job, args, kwargs))
  {
    assert fuel - 1 == left;
  }

  /** A finished sub-run: its effects pass on; its results are appended, or its error
      is the instruction's error. */
  method AppendResults(st: State, sub: Outcome<seq<string>>) returns (emitted: seq<EffectInvocation>, next: Result<State>)
    ensures Outcome(emitted, next) == Appended(st, sub)
  {
    emitted := sub.effects;
    if sub.result.Err? {
      next := Err(sub.result.error);
    } else {
      next := Ok(st.(scraper := st.scraper.WithResults(st.scraper.results + sub.result.value)));
    }
  }

  /** The instructions that send nothing and run nothing. */
  method ApplyInstruction(env: Env, st: State, ins: P.Instruction) returns (next: Result<State>)
    requires !ins.Effect? && !ins.Run?
    ensures next == Apply(env, st, ins)
  {
    var variables := st.vars;
    var scraper := st.scraper;
    match ins {
      case Append(str) =>
        var s := SubstituteVariables(str, variables);
        if s.Err? {
          return Err(s.error);
        }
        scraper := scraper.Append(s.value);
      case Prepend(str) =>
        var s := SubstituteVariables(str, variables);
        if s.Err? {
          return Err(s.error);
        }
        scraper := scraper.Prepend(s.value);
      case Delete(regex) =>
        var s := SubstituteVariables(regex, variables);
        if s.Err? {
          return Err(s.error);
        }
        var r := scraper.Delete(s.value, env.engine);
        if r.Err? {
          return Err(r.error);
        }
        scraper := r.value;
      case Extract(regex) =>
        var s := SubstituteVariables(regex, variables);
        if s.Err? {
          return Err(s.error);
        }
        var r := scraper.Extract(s.value, env.engine);
        if r.Err? {
          return Err(r.error);
        }
        scraper := r.value;
      case Get(url) =>
        var s := SubstituteVariables(url, variables);
        if s.Err? {
          return Err(s.error);
        }
        var r := scraper.Get(s.value, env.driver);
        if r.Err? {
          return Err(r.error);
        }
        scraper := r.value;
      case Load(varname) =>
        if varname !in variables {
          return Err(VariableNotFoundError(varname));
        }
        scraper := scraper.WithResults(scraper.results + variables[varname]);
      case Store(varname) =>
        variables := variables[varname := scraper.results];
      case Clear =>
        scraper := scraper.Clear();
      case ClearHeaders =>
        scraper := scraper.ClearHeaders();
      case Drop(count) =>
        scraper := scraper.Drop(count);
      case First =>
        scraper := scraper.First();
      case Header(key, value) =>
        scraper := scraper.SetHeader(key, value);
      case Discard(regex) =>
        var r := scraper.Discard(regex, env.engine);
        if r.Err? {
          return Err(r.error);
        }
        scraper := r.value;
      case Retain(regex) =>
        var r := scraper.Retain(regex, env.engine);
        if r.Err? {
          return Err(r.error);
        }
        scraper := r.value;
    }
    return Ok(State(variables, scraper));
  }
}
