// `split_posargs_and_kwargs` of src/main.rs: the command line arguments after the script
// name are split into positional arguments and `key=value` keyword arguments.

module CommandLine {
  import L = Lexer

  /** An argument is a keyword argument when it starts like an identifier (the pattern
      `^[A-Za-z_$.-][A-Za-z0-9_$.-]*` only needs its first character) and holds a `=`. */
  predicate IsKeywordArgument(v: string) {
    |v| > 0 && L.IsIdentStart(v[0]) && '=' in v
  }

  /** The place of the first `=` of `v`. */
  function FirstEquals(v: string): (i: nat)
    requires '=' in v
    ensures i < |v| && v[i] == '=' && '=' !in v[..i]
  {
    if v[0] == '=' then 0
    else
      assert '=' in v[1..] by {
        var j :| 0 <= j < |v| && v[j] == '=';
        assert v[1..][j - 1] == v[j];
      }
      var i := 1 + FirstEquals(v[1..]);
      assert v[..i] == [v[0]] + v[1..][..i - 1];
      i
  }

  /** The key: the text before the first `=`. */
  function KeyOf(v: string): string
    requires '=' in v
  {
    v[..FirstEquals(v)]
  }

  /** The value: the text after the first `=`. */
  function ValueOf(v: string): string
    requires '=' in v
  {
    v[FirstEquals(v) + 1..]
  }

  /** The positional arguments, in their order. */
  function Positionals(args: seq<string>): (r: seq<string>)
    ensures |r| <= |args|
    ensures forall i :: 0 <= i < |r| ==> !IsKeywordArgument(r[i])
  {
    if args == [] then []
    else
      var init := Positionals(args[..|args| - 1]);
      var last := args[|args| - 1];
      if IsKeywordArgument(last) then init else init + [last]
  }

  /** The keyword arguments, inserted in order: a later value for a key wins. */
  function Keywords(args: seq<string>): map<string, string> {
    if args == [] then map[]
    else
      var init := Keywords(args[..|args| - 1]);
      var last := args[|args| - 1];
      if IsKeywordArgument(last) then init[KeyOf(last) := ValueOf(last)] else init
  }

  /** `split_posargs_and_kwargs`: one pass over the arguments. */
  method SplitPosargsAndKwargs(args: seq<string>) returns (posargs: seq<string>, kwargs: map<string, string>)
    ensures posargs == Positionals(args) && kwargs == Keywords(args)
  {
    posargs := [];
    kwargs := map[];
    for i := 0 to |args|
      invariant posargs == Positionals(args[..i]) && kwargs == Keywords(args[..i])
    {
      assert args[..i + 1][..i] == args[..i];
      var v := args[i];
      if IsKeywordArgument(v) {
        var at := FirstEquals(v);
        kwargs := kwargs[v[..at] := v[at + 1..]];
      } else {
        posargs := posargs + [v];
      }
    }
    assert args[..|args|] == args;
  }

  // ----- properties -----

  /** A keyword argument is its key, `=` and its value, and the key holds no `=`. */
  lemma KeyValueSplit(v: string)
    requires IsKeywordArgument(v)
    ensures KeyOf(v) + "=" + ValueOf(v) == v
    ensures '=' !in KeyOf(v)
    ensures |KeyOf(v)| > 0 && L.IsIdentStart(KeyOf(v)[0])
  {
    var i := FirstEquals(v);
    assert v == v[..i] + [v[i]] + v[i + 1..];
  }

  /** Every argument is either positional or a keyword argument, and not both. */
  lemma {:induction false} EachArgumentOnce(args: seq<string>)
    ensures multiset(Positionals(args)) + multiset(KeywordArguments(args)) == multiset(args)
    ensures |Positionals(args)| + |KeywordArguments(args)| == |args|
  {
    if args != [] {
      var init := args[..|args| - 1];
      EachArgumentOnce(init);
      PositionalsSnoc(init, args[|args| - 1]);
      assert args == init + [args[|args| - 1]];
    }
  }

  /** One more argument goes to exactly one of the two lists. */
  lemma PositionalsSnoc(init: seq<string>, v: string)
    ensures var args := init + [v];
            (Positionals(args), KeywordArguments(args))
            == if IsKeywordArgument(v) then (Positionals(init), KeywordArguments(init) + [v])
               else (Positionals(init) + [v], KeywordArguments(init))
  {
    assert (init + [v])[..|init|] == init;
  }

  /** The positional arguments keep their order: splitting the arguments anywhere splits
      the positional arguments there too. */
  lemma {:induction false} PositionalsAppend(a: seq<string>, b: seq<string>)
    ensures Positionals(a + b) == Positionals(a) + Positionals(b)
    decreases |b|
  {
    if b == [] {
      assert a + b == a;
    } else {
      var init := b[..|b| - 1];
      PositionalsAppend(a, init);
      assert (a + b)[..|a + b| - 1] == a + init;
      assert (a + b)[|a + b| - 1] == b[|b| - 1];
    }
  }

  /** The arguments taken as keyword arguments, in their order. */
  function KeywordArguments(args: seq<string>): (r: seq<string>)
    ensures forall i :: 0 <= i < |r| ==> IsKeywordArgument(r[i])
  {
    if args == [] then []
    else
      var init := KeywordArguments(args[..|args| - 1]);
      var last := args[|args| - 1];
      if IsKeywordArgument(last) then init + [last] else init
  }

  /** The keys of the map are the keys of the keyword arguments, and each holds the
      value of the last keyword argument with that key. */
  lemma {:induction false} KeywordsLast(args: seq<string>, k: string)
    ensures k in Keywords(args) <==> exists i :: 0 <= i < |args| && HasKey(args[i], k)
    ensures k in Keywords(args) ==>
              exists i :: 0 <= i < |args| && HasKey(args[i], k) && Keywords(args)[k] == ValueOf(args[i])
                          && forall j :: i < j < |args| ==> !HasKey(args[j], k)
  {
    if args != [] {
      var n := |args| - 1;
      var init := args[..n];
      KeywordsLast(init, k);
      if HasKey(args[n], k) {
        assert Keywords(args)[k] == ValueOf(args[n]);
      } else {
        assert Keywords(args) == Keywords(init) || Keywords(args) == Keywords(init)[KeyOf(args[n]) := ValueOf(args[n])];
        if k in Keywords(init) {
          var i :| 0 <= i < |init| && HasKey(init[i], k) && Keywords(init)[k] == ValueOf(init[i])
                   && forall j :: i < j < |init| ==> !HasKey(init[j], k);
          assert args[i] == init[i];
          assert forall j :: i < j < |args| ==> !HasKey(args[j], k) by {
            forall j | i < j < |args|
              ensures !HasKey(args[j], k)
            {
              if j < n {
                assert args[j] == init[j];
              }
            }
          }
        }
        if exists i :: 0 <= i < |args| && HasKey(args[i], k) {
          var i :| 0 <= i < |args| && HasKey(args[i], k);
          assert i < n && init[i] == args[i];
        }
      }
    }
  }

  /** Argument `v` is a keyword argument with key `k`. */
  predicate HasKey(v: string, k: string) {
    IsKeywordArgument(v) && KeyOf(v) == k
  }

  /** The converse of `KeyValueSplit`: a key without `=` that starts like an identifier,
      `=` and any value make a keyword argument with that key and value. */
  lemma KeyValueJoin(v: string, k: string, w: string)
    requires v == k + "=" + w && |k| > 0 && L.IsIdentStart(k[0]) && '=' !in k
    ensures IsKeywordArgument(v) && KeyOf(v) == k && ValueOf(v) == w
  {
    assert v[0] == k[0] && v[|k|] == '=';
    var i := FirstEquals(v);
    forall j | 0 <= j < |k|
      ensures v[j] != '='
    {
      assert v[j] == k[j];
    }
    forall j | 0 <= j < i
      ensures v[j] != '='
    {
      assert v[..i][j] == v[j];
    }
    assert i == |k|;
    assert v[..|k|] == k && v[|k| + 1..] == w;
  }

  /** What one more argument does to the two results. */
  lemma SplitSnoc(init: seq<string>, v: string)
    ensures Positionals(init + [v]) == if IsKeywordArgument(v) then Positionals(init) else Positionals(init) + [v]
    ensures Keywords(init + [v]) == if IsKeywordArgument(v) then Keywords(init)[KeyOf(v) := ValueOf(v)] else Keywords(init)
  {
    assert (init + [v])[..|init|] == init;
  }

  /** The short cases of the test of `split_posargs_and_kwargs`. */
  lemma SplitShortTests(a: string, bc: string)
    requires a == "a" && bc == "b=c"
    ensures Positionals([]) == [] && Keywords([]) == map[]
    ensures Positionals([a]) == [a] && Keywords([a]) == map[]
    ensures Positionals([bc]) == [] && Keywords([bc]) == map["b" := "c"]
    ensures Positionals([a, bc]) == [a] && Keywords([a, bc]) == map["b" := "c"]
  {
    KeyValueJoin(bc, "b", "c");
    assert '=' !in a;
    SplitSnoc([], a);
    SplitSnoc([], bc);
    assert [a] + [bc] == [a, bc];
    SplitSnoc([a], bc);
  }

  /** The case of four arguments of the same test. */
  lemma SplitFourTest(a: string, bc: string, dee: string, eeff: string)
    requires a == "a" && bc == "b=c" && dee == "dee" && eeff == "ee=eff"
    ensures Positionals([a, bc, dee, eeff]) == [a, dee]
    ensures Keywords([a, bc, dee, eeff]) == map["b" := "c", "ee" := "eff"]
  {
    SplitShortTests(a, bc);
    KeyValueJoin(eeff, "ee", "eff");
    assert '=' !in dee;
    assert [a, bc] + [dee] == [a, bc, dee];
    SplitSnoc([a, bc], dee);
    assert [a, bc, dee] + [eeff] == [a, bc, dee, eeff];
    SplitSnoc([a, bc, dee], eeff);
  }

  /** The two longest cases of the same test: `=gee` and `1=2` stay positional. */
  lemma SplitLongTests(a: string, bc: string, dee: string, eeff: string, gee: string, oneTwo: string)
    requires a == "a" && bc == "b=c" && dee == "dee" && eeff == "ee=eff" && gee == "=gee" && oneTwo == "1=2"
    ensures Positionals([a, bc, dee, eeff, gee]) == [a, dee, gee]
    ensures Keywords([a, bc, dee, eeff, gee]) == map["b" := "c", "ee" := "eff"]
    ensures Positionals([a, bc, dee, eeff, gee, oneTwo]) == [a, dee, gee, oneTwo]
    ensures Keywords([a, bc, dee, eeff, gee, oneTwo]) == map["b" := "c", "ee" := "eff"]
  {
    SplitFourTest(a, bc, dee, eeff);
    assert !L.IsIdentStart(gee[0]) && !L.IsIdentStart(oneTwo[0]);
    assert [a, bc, dee, eeff] + [gee] == [a, bc, dee, eeff, gee];
    SplitSnoc([a, bc, dee, eeff], gee);
    assert [a, bc, dee, eeff, gee] + [oneTwo] == [a, bc, dee, eeff, gee, oneTwo];
    SplitSnoc([a, bc, dee, eeff, gee], oneTwo);
  }
}
