// Properties of the interpreter: how the variables are seeded, how arguments resolve,
// what the instructions do to the state, how runs compose, and that the fuel bound is
// only a bound: a run that does not hit it gives the same outcome with more fuel.

module InterpreterProperties {
  import opened Wrappers
  import opened Errors
  import Strings
  import opened Scrapers
  import opened Substitution
  import P = Parser
  import opened Interpreter

  // ----- seeding -----

  lemma PositionalVarsUnfold(args: seq<string>)
    requires args != []
    ensures PositionalVars(args) == PositionalVars(args[..|args| - 1])[Strings.NatToString(|args|) := [args[|args| - 1]]]
  {
  }

  /** Argument i (from 0) is the variable named i + 1 in `vars`. */
  predicate HoldsPositional(vars: Variables, args: seq<string>, i: nat)
    requires i < |args|
  {
    Strings.NatToString(i + 1) in vars && vars[Strings.NatToString(i + 1)] == [args[i]]
  }

  /** Positional argument i is the variable named i + 1. */
  lemma {:induction false} PositionalVarsLookup(args: seq<string>)
    ensures forall i :: 0 <= i < |args| ==> HoldsPositional(PositionalVars(args), args, i)
    decreases |args|
  {
    if args != [] {
      var n := |args|;
      var init := args[..n - 1];
      PositionalVarsUnfold(args);
      PositionalVarsLookup(init);
      forall i | 0 <= i < n
        ensures HoldsPositional(PositionalVars(args), args, i)
      {
        if i < n - 1 {
          Strings.NatToStringInjective(i + 1, n);
          assert HoldsPositional(PositionalVars(init), init, i);
        }
      }
    }
  }

  /** `k` is the name of one of the first `count` positions. */
  predicate PositionalName(k: string, count: nat) {
    exists n :: 1 <= n <= count && k == Strings.NatToString(n)
  }

  /** The positional variables are named 1 to the number of arguments, and no others. */
  lemma {:induction false} PositionalVarsKeys(args: seq<string>)
    ensures forall k :: k in PositionalVars(args) <==> PositionalName(k, |args|)
    decreases |args|
  {
    if args != [] {
      var m := |args|;
      var init := args[..m - 1];
      PositionalVarsUnfold(args);
      PositionalVarsKeys(init);
      forall k ensures k in PositionalVars(args) <==> PositionalName(k, m) {
        if k in PositionalVars(args) {
          if k == Strings.NatToString(m) {
            assert 1 <= m <= m && k == Strings.NatToString(m);
          } else {
            assert PositionalName(k, m - 1);
            var n :| 1 <= n <= m - 1 && k == Strings.NatToString(n);
            assert 1 <= n <= m && k == Strings.NatToString(n);
          }
        }
        if PositionalName(k, m) {
          var n :| 1 <= n <= m && k == Strings.NatToString(n);
          if n < m {
            assert PositionalName(k, |init|);
          }
        }
      }
    }
  }

  /** The starting variables: every keyword argument as a one-element list, every
      positional argument not overridden by a keyword under its 1-based number, and
      nothing else. */
  lemma SeedLookup(args: seq<string>, kwargs: map<string, string>)
    ensures forall k :: k in kwargs ==> k in SeedVariables(args, kwargs) && SeedVariables(args, kwargs)[k] == [kwargs[k]]
    ensures forall i :: 0 <= i < |args| && Strings.NatToString(i + 1) !in kwargs ==>
              Strings.NatToString(i + 1) in SeedVariables(args, kwargs)
              && SeedVariables(args, kwargs)[Strings.NatToString(i + 1)] == [args[i]]
    ensures forall k :: k in SeedVariables(args, kwargs) <==> k in kwargs || PositionalName(k, |args|)
  {
    PositionalVarsLookup(args);
    PositionalVarsKeys(args);
    var seed := SeedVariables(args, kwargs);
    forall i | 0 <= i < |args| && Strings.NatToString(i + 1) !in kwargs
      ensures Strings.NatToString(i + 1) in seed && seed[Strings.NatToString(i + 1)] == [args[i]]
    {
      assert HoldsPositional(PositionalVars(args), args, i);
    }
  }

  /** A keyword argument named like a position replaces that positional argument. */
  lemma KeywordOverridesPositional(args: seq<string>, kwargs: map<string, string>)
    requires args == ["a", "b"] && kwargs == map["2" := "c"]
    ensures SeedVariables(args, kwargs) == map["1" := ["a"], "2" := ["c"]]
  {
    assert Strings.NatToString(1) == "1";
    assert Strings.NatToString(2) == "2";
    assert args[..1] == ["a"] && args[..1][..0] == [];
    assert PositionalVars(args) == map["1" := ["a"], "2" := ["b"]];
  }

  // ----- arguments -----

  /** A string argument without a `{` is passed on as written. */
  lemma PlainArgumentPassThrough(vars: Variables, s: string)
    requires '{' !in s
    ensures Resolve(vars, P.Str(s)) == Ok(s)
  {
    NoPlaceholderUnchanged(s, vars);
  }

  /** An identifier argument is its variable's list joined with no separator, and a
      missing variable is an error naming it. */
  lemma IdentifierArgument(vars: Variables, name: string)
    ensures name in vars ==> Resolve(vars, P.Ident(name)) == Ok(Strings.Concat(vars[name]))
    ensures name !in vars ==> Resolve(vars, P.Ident(name)) == Err(VariableNotFoundError(name))
  {
  }

  // ----- instructions -----

  /** `store` then `load` of the same variable doubles the results and keeps them in it. */
  lemma StoreThenLoad(env: Env, fuel: nat, st: State, v: string)
    ensures var r := st.scraper.results;
            ExecFrom(env, fuel, st, [P.Store(v), P.Load(v)])
            == Outcome([], Ok(State(st.vars[v := r], st.scraper.WithResults(r + r))))
  {
    var r := st.scraper.results;
    var st1 := st.(vars := st.vars[v := r]);
    var st2 := State(st1.vars, st.scraper.WithResults(r + r));
    assert Step(env, fuel, st, P.Store(v)) == Outcome([], Ok(st1));
    assert Step(env, fuel, st1, P.Load(v)) == Outcome([], Ok(st2));
    assert ExecFrom(env, fuel, st2, []) == Outcome([], Ok(st2));
    assert [P.Load(v)][1..] == [];
    assert ExecFrom(env, fuel, st1, [P.Load(v)]) == Outcome([], Ok(st2));
    assert [P.Store(v), P.Load(v)][1..] == [P.Load(v)];
  }

  /** `load` of a variable that was never set fails and changes nothing. */
  lemma LoadMissing(env: Env, fuel: nat, st: State, v: string)
    requires v !in st.vars
    ensures Step(env, fuel, st, P.Load(v)) == Outcome([], Err(VariableNotFoundError(v)))
  {
  }

  /** An effect leaves the state as it was and sends exactly one invocation, made of its
      resolved arguments; if an argument does not resolve nothing is sent. */
  lemma EffectSendsOne(env: Env, fuel: nat, st: State, name: string, args: seq<P.Argument>, kwargs: seq<P.KwArg>)
    ensures var o := Step(env, fuel, st, P.Effect(name, args, kwargs));
            && (o.result.Ok? <==> ResolveArgs(st.vars, args).Ok? && ResolveKwargs(st.vars, kwargs).Ok?)
            && (o.result.Ok? ==> o.result.value == st
                                 && o.effects == [EffectInvocation(name, ResolveArgs(st.vars, args).value, ResolveKwargs(st.vars, kwargs).value)])
            && (o.result.Err? ==> o.effects == [])
  {
  }

  /** A `run` with arguments that resolve and fuel left appends the sub-run's results to
      the current ones, keeps the variables, and passes on the sub-run's effects; a failed
      sub-run fails the instruction with the same error. */
  lemma RunAppendsResults(env: Env, fuel: nat, st: State, job: string, args: seq<P.Argument>, kwargs: seq<P.KwArg>)
    requires ResolveArgs(st.vars, args).Ok? && ResolveKwargs(st.vars, kwargs).Ok?
    requires fuel > 0
    ensures var sub := RunScript(env, fuel - 1, job, ResolveArgs(st.vars, args).value, ResolveKwargs(st.vars, kwargs).value);
            var o := Step(env, fuel, st, P.Run(job, args, kwargs));
            && o.effects == sub.effects
            && (sub.result.Ok? ==> o.result == Ok(State(st.vars, st.scraper.WithResults(st.scraper.results + sub.result.value))))
            && (sub.result.Err? ==> o.result == Err(sub.result.error))
  {
    var a := ResolveArgs(st.vars, args).value;
    var k := ResolveKwargs(st.vars, kwargs).value;
    var sub := RunScript(env, fuel - 1, job, a, k);
    assert Step(env, fuel, st, P.Run(job, args, kwargs)) == RunStep(env, fuel, st, job, args, kwargs);
    assert RunStep(env, fuel, st, job, args, kwargs) == RunResolved(env, fuel, st, job, a, k);
    assert RunResolved(env, fuel, st, job, a, k) == Appended(st, sub);
  }

  /** Without fuel a `run` whose arguments resolve stops with `RecursionLimit`. */
  lemma RunWithoutFuel(env: Env, st: State, job: string, args: seq<P.Argument>, kwargs: seq<P.KwArg>)
    requires ResolveArgs(st.vars, args).Ok? && ResolveKwargs(st.vars, kwargs).Ok?
    ensures Step(env, 0, st, P.Run(job, args, kwargs)) == Outcome([], Err(RecursionLimit))
  {
  }

  // ----- programs -----

  /** The rest of a program run after the outcome `o` of its beginning. */
  function Then(env: Env, fuel: nat, o: Outcome<State>, q: seq<P.Instruction>): Outcome<State> {
    if o.result.Err? then o else Preceded(o.effects, ExecFrom(env, fuel, o.result.value, q))
  }

  /** Running `p + q` is running `p`, then `q` from where `p` left off; a failure in `p`
      ends the run with the effects `p` sent. */
  lemma {:induction false} ExecFromAppend(env: Env, fuel: nat, st: State, p: seq<P.Instruction>, q: seq<P.Instruction>)
    ensures ExecFrom(env, fuel, st, p + q) == Then(env, fuel, ExecFrom(env, fuel, st, p), q)
    decreases |p|
  {
    if p == [] {
      assert p + q == q;
      assert [] + ExecFrom(env, fuel, st, q).effects == ExecFrom(env, fuel, st, q).effects;
    } else {
      assert (p + q)[0] == p[0] && (p + q)[1..] == p[1..] + q;
      var o := Step(env, fuel, st, p[0]);
      if o.result.Ok? {
        ExecFromAppend(env, fuel, o.result.value, p[1..], q);
        var rest := ExecFrom(env, fuel, o.result.value, p[1..]);
        if rest.result.Ok? {
          assert o.effects + (rest.effects + ExecFrom(env, fuel, rest.result.value, q).effects)
                 == (o.effects + rest.effects) + ExecFrom(env, fuel, rest.result.value, q).effects;
        }
      }
    }
  }

  predicate NoRuns(prog: seq<P.Instruction>) {
    forall i :: 0 <= i < |prog| ==> !prog[i].Run?
  }

  function EffectCount(prog: seq<P.Instruction>): nat {
    if prog == [] then 0 else (if prog[0].Effect? then 1 else 0) + EffectCount(prog[1..])
  }

  /** A program without `run` that ends well sends one invocation per `effect`. */
  lemma {:induction false} OneInvocationPerEffect(env: Env, fuel: nat, st: State, prog: seq<P.Instruction>)
    requires NoRuns(prog)
    requires ExecFrom(env, fuel, st, prog).result.Ok?
    ensures |ExecFrom(env, fuel, st, prog).effects| == EffectCount(prog)
    decreases |prog|
  {
    if prog != [] {
      var o := Step(env, fuel, st, prog[0]);
      assert !prog[0].Run?;
      assert NoRuns(prog[1..]) by {
        forall i | 0 <= i < |prog| - 1 ensures !prog[1..][i].Run? {
          assert prog[1..][i] == prog[i + 1];
        }
      }
      OneInvocationPerEffect(env, fuel, o.result.value, prog[1..]);
    }
  }

  // ----- fuel -----

  /** A run that does not hit the fuel bound has the same outcome with one more unit. */
  lemma {:induction false} RunScriptFuel(env: Env, fuel: nat, name: string, args: seq<string>, kwargs: map<string, string>)
    requires RunScript(env, fuel, name, args, kwargs).result != Err(RecursionLimit)
    ensures RunScript(env, fuel + 1, name, args, kwargs) == RunScript(env, fuel, name, args, kwargs)
    decreases fuel, 2, 0
  {
    var script := env.loader(name);
    if script.Ok? {
      var tokens := Interpreter.L.Lexed(Interpreter.Preprocessor.StripComments(script.value));
      if tokens.Ok? {
        var program := P.ParsedProgram(tokens.value);
        if program.Ok? {
          ExecFromFuel(env, fuel, State(SeedVariables(args, kwargs), NewScraper()), program.value);
        }
      }
    }
  }

  lemma {:induction false} ExecFromFuel(env: Env, fuel: nat, st: State, prog: seq<P.Instruction>)
    requires ExecFrom(env, fuel, st, prog).result != Err(RecursionLimit)
    ensures ExecFrom(env, fuel + 1, st, prog) == ExecFrom(env, fuel, st, prog)
    decreases fuel, 1, |prog|
  {
    if prog != [] {
      var o := Step(env, fuel, st, prog[0]);
      StepFuel(env, fuel, st, prog[0]);
      if o.result.Ok? {
        ExecFromFuel(env, fuel, o.result.value, prog[1..]);
      }
    }
  }

  lemma {:induction false} StepFuel(env: Env, fuel: nat, st: State, ins: P.Instruction)
    requires Step(env, fuel, st, ins).result != Err(RecursionLimit)
    ensures Step(env, fuel + 1, st, ins) == Step(env, fuel, st, ins)
    decreases fuel, 0, 2
  {
    if ins.Run? {
      var a := ResolveArgs(st.vars, ins.args);
      var k := ResolveKwargs(st.vars, ins.kwargs);
      if a.Ok? && k.Ok? {
        RunResolvedFuel(env, fuel, st, ins.jobName, a.value, k.value);
      }
    }
  }

  lemma {:induction false} RunResolvedFuel(env: Env, fuel: nat, st: State, job: string, args: seq<string>, kwargs: map<string, string>)
    requires RunResolved(env, fuel, st, job, args, kwargs).result != Err(RecursionLimit)
    ensures RunResolved(env, fuel + 1, st, job, args, kwargs) == RunResolved(env, fuel, st, job, args, kwargs)
    decreases fuel, 0, 0
  {
    var sub := RunScript(env, fuel - 1, job, args, kwargs);
    RunScriptFuel(env, fuel - 1, job, args, kwargs);
  }

  /** The same for any larger fuel. */
  lemma {:induction false} RunScriptMoreFuel(env: Env, fuel: nat, more: nat, name: string, args: seq<string>, kwargs: map<string, string>)
    requires fuel <= more
    requires RunScript(env, fuel, name, args, kwargs).result != Err(RecursionLimit)
    ensures RunScript(env, more, name, args, kwargs) == RunScript(env, fuel, name, args, kwargs)
    decreases more - fuel
  {
    if fuel < more {
      var next: nat := fuel + 1;
      RunScriptFuel(env, fuel, name, args, kwargs);
      RunScriptMoreFuel(env, next, more, name, args, kwargs);
    }
  }
}
