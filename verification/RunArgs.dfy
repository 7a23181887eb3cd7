/** The run command's search for the agent name among its flags. */
module RunArgs {
  import opened Seqs

  /** The flags that the parser defines with a value. */
  predicate TakesValue(name: string) {
    name == "provider" || name == "model" || name == "port" || name == "p"
  }

  /** The flags that it defines without one. */
  predicate IsBool(name: string) {
    name == "browser" || name == "debug" || name == "auto-approve"
  }

  function TrimDashes(arg: string): string { if arg != "" && arg[0] == '-' then TrimDashes(arg[1..]) else arg }

  /** The splitter's own list of flags with a value. */
  predicate ExpectsValue(name: string) {
    name == "provider" || name == "model" || name == "port" || name == "p" || name == "param"
  }

  /** A flag whose value the splitter expects in the next argument. */
  predicate WantsNext(arg: string) {
    '=' !in arg && ExpectsValue(TrimDashes(arg))
  }

  datatype Split = Split(skip: bool, name: string, flags: seq<string>)

  const START := Split(false, "", [])

  /** What one argument does to the split. */
  function Step(s: Split, arg: string): Split {
    if s.skip then Split(false, s.name, s.flags + [arg])
    else if arg != "" && arg[0] == '-' then Split(WantsNext(arg), s.name, s.flags + [arg])
    else if s.name == "" then Split(false, arg, s.flags)
    else Split(false, s.name, s.flags + [arg])
  }

  function Fold(s: Split, args: seq<string>): Split
    decreases args
  {
    if args == [] then s else Fold(Step(s, args[0]), args[1..])
  }

  method SplitArgs(args: seq<string>) returns (agentName: string, flagArgs: seq<string>)
    ensures var r := Fold(START, args); agentName == r.name && flagArgs == r.flags
  {
    agentName, flagArgs := "", [];
    var skipNext := false;
    for i := 0 to |args|
      invariant Fold(Split(skipNext, agentName, flagArgs), args[i..]) == Fold(START, args)
    {
      var arg := args[i];
      assert args[i..][1..] == args[i + 1..];
      hide WantsNext;
      if skipNext {
        flagArgs := flagArgs + [arg];
        skipNext := false;
        continue;
      }
      if arg != "" && arg[0] == '-' {
        flagArgs := flagArgs + [arg];
        skipNext := WantsNext(arg);
      } else if agentName == "" {
        agentName := arg;
      } else {
        flagArgs := flagArgs + [arg];
      }
    }
  }

  // ---------------------------------------------------------------- the flag parser that reads the rest

  datatype Setting = Setting(name: string, value: string)

  /** The settings in order, and the arguments left over; ended says whether a double dash
      ended the flags. */
  datatype Parsed = Parsed(settings: seq<Setting>, rest: seq<string>, ended: bool) | Bad

  function Prepend(s: Setting, p: Parsed): Parsed {
    match p
    case Bad => Bad
    case Parsed(settings, rest, ended) => Parsed([s] + settings, rest, ended)
  }

  function Body(arg: string): string
    requires |arg| >= 2
  {
    if arg[1] == '-' then arg[2..] else arg[1..]
  }

  /** The next flag with the number of arguments it takes, or why there is none. */
  datatype Flag = Flag(setting: Setting, n: nat) | Stopped | Ended | Malformed

  function NextFlag(args: seq<string>): (f: Flag)
    requires args != []
    ensures f.Flag? ==> 1 <= f.n <= |args|
  {
    if |args[0]| < 2 || args[0][0] != '-' then Stopped
    else
      var body := Body(args[0]);
      if body == "" then Ended
      else if body[0] == '-' || body[0] == '=' then Malformed
      else
        var cut := IndexOf(body, '=');
        var name := body[..cut];
        if IsBool(name) then Flag(Setting(name, if cut < |body| then body[cut + 1..] else "true"), 1)
        else if !TakesValue(name) then Malformed
        else if cut < |body| then Flag(Setting(name, body[cut + 1..]), 1)
        else if |args| < 2 then Malformed
        else Flag(Setting(name, args[1]), 2)
  }

  function ParseFlags(args: seq<string>): Parsed {
    if args == [] then Parsed([], [], false)
    else
      match NextFlag(args)
      case Stopped => Parsed([], args, false)
      case Ended => Parsed([], args[1..], true)
      case Malformed => Bad
      case Flag(setting, n) => Prepend(setting, ParseFlags(args[n..]))
  }

  /** The parser reads all of these arguments as flags. */
  predicate AllFlags(args: seq<string>) {
    ParseFlags(args).Parsed? && ParseFlags(args).rest == [] && !ParseFlags(args).ended
  }

  lemma BodyIsName(arg: string)
    requires |arg| >= 2 && arg[0] == '-' && Body(arg) != "" && Body(arg)[0] != '-'
    ensures TrimDashes(arg) == Body(arg) && ('=' in arg <==> '=' in Body(arg))
  {
    assert arg == (if arg[1] == '-' then ['-', '-'] else ['-']) + Body(arg);
  }

  lemma BoolsTakeNone(name: string)
    requires IsBool(name)
    ensures !TakesValue(name) && !ExpectsValue(name)
  {
    assert |"browser"| == 7 && |"debug"| == 5 && |"auto-approve"| == 12;
    assert |"provider"| == 8 && |"model"| == 5 && |"port"| == 4 && |"p"| == 1 && |"param"| == 5;
    assert "debug"[0] == 'd' && "model"[0] == 'm' && "param"[0] == 'p';
  }

  lemma ValuesAreNoBools(name: string)
    requires TakesValue(name)
    ensures !IsBool(name) && ExpectsValue(name)
  {
    if IsBool(name) { BoolsTakeNone(name); }
  }

  /** The splitter expects a value after a flag exactly when the parser takes one. */
  lemma ExpectationsAgree(args: seq<string>)
    requires args != [] && NextFlag(args).Flag?
    ensures args[0] != "" && args[0][0] == '-'
    ensures NextFlag(args).n == if WantsNext(args[0]) then 2 else 1
  {
    var body := Body(args[0]);
    var cut := IndexOf(body, '=');
    BodyIsName(args[0]);
    if '=' !in body { IndexOfAbsent(body, '='); }
    hide IndexOf;
    assert cut == |body| ==> body[..cut] == body;
    assert cut < |body| ==> body[cut] in body;
    if IsBool(body[..cut]) { BoolsTakeNone(body[..cut]); } else { ValuesAreNoBools(body[..cut]); }
    hide IsBool, TakesValue, ExpectsValue, TrimDashes, Body;
  }

  lemma FoldTwo(s: Split, args: seq<string>)
    requires |args| >= 2
    ensures Fold(s, args) == Fold(Step(Step(s, args[0]), args[1]), args[2..])
  {
    hide Step;
    assert args[1..][1..] == args[2..];
    assert Fold(Step(s, args[0]), args[1..]) == Fold(Step(Step(s, args[0]), args[1..][0]), args[1..][1..]);
  }

  lemma FoldFlag(s: Split, args: seq<string>)
    requires !s.skip && args != [] && NextFlag(args).Flag?
    ensures var n := NextFlag(args).n; Fold(s, args) == Fold(Split(false, s.name, s.flags + args[..n]), args[n..])
  {
    ExpectationsAgree(args);
    hide WantsNext, NextFlag;
    if NextFlag(args).n == 2 {
      FoldTwo(s, args);
      assert s.flags + [args[0]] + [args[1]] == s.flags + args[..2];
    } else {
      assert [args[0]] == args[..1];
    }
  }

  lemma FirstIsFlag(args: seq<string>)
    requires args != [] && AllFlags(args)
    ensures NextFlag(args).Flag? && AllFlags(args[NextFlag(args).n..])
  {
    hide NextFlag;
  }

  lemma {:induction false} FlagsPass(s: Split, args: seq<string>)
    requires !s.skip && AllFlags(args)
    ensures Fold(s, args) == Split(false, s.name, s.flags + args)
    decreases |args|
  {
    if args == [] {
      assert s.flags + args == s.flags;
    } else {
      hide NextFlag, Fold, AllFlags, ParseFlags, Step;
      FirstIsFlag(args);
      var n := NextFlag(args).n;
      FoldFlag(s, args);
      FlagsPass(Split(false, s.name, s.flags + args[..n]), args[n..]);
      assert s.flags + args[..n] + args[n..] == s.flags + args;
    }
  }

  lemma {:induction false} AfterTheName(s: Split, args: seq<string>)
    requires s.name != ""
    ensures Fold(s, args).name == s.name && Fold(s, args).flags == s.flags + args
    decreases args
  {
    if args == [] {
      assert s.flags + args == s.flags;
    } else {
      hide WantsNext;
      AfterTheName(Step(s, args[0]), args[1..]);
      assert s.flags + [args[0]] + args[1..] == s.flags + args;
    }
  }

  lemma {:induction false} FoldConcat(s: Split, a: seq<string>, b: seq<string>)
    ensures Fold(s, a + b) == Fold(Fold(s, a), b)
    decreases a
  {
    if a == [] {
      assert a + b == b;
    } else {
      hide Step;
      FoldConcat(Step(s, a[0]), a[1..], b);
      assert (a + b)[1..] == a[1..] + b;
    }
  }

  predicate IsPositional(arg: string) { arg != "" && arg[0] != '-' }

  /** After any arguments that the parser reads as flags, the next positional argument is the
      agent name, and the flags around it go on to the parser unchanged and in order. */
  lemma NameAnywhere(a: seq<string>, name: string, b: seq<string>)
    requires AllFlags(a) && IsPositional(name)
    ensures Fold(START, a + ([name] + b)).name == name && Fold(START, a + ([name] + b)).flags == a + b
  {
    FoldConcat(START, a, [name] + b);
    FlagsPass(START, a);
    hide AllFlags, WantsNext;
    assert START.flags + a == a;
    assert ([name] + b)[1..] == b;
    AfterTheName(Split(false, name, a), b);
  }

  lemma NextFlagConcat(a: seq<string>, b: seq<string>)
    requires a != [] && NextFlag(a).Flag?
    ensures NextFlag(a + b) == NextFlag(a)
  {
    assert (a + b)[0] == a[0];
    assert |a| > 1 ==> (a + b)[1] == a[1];
    hide IndexOf, IsBool, TakesValue, Body;
  }

  /** The settings in front of what another parse gives. */
  function Extend(settings: seq<Setting>, p: Parsed): Parsed {
    match p
    case Bad => Bad
    case Parsed(more, rest, ended) => Parsed(settings + more, rest, ended)
  }

  lemma ExtendStep(s: Setting, settings: seq<Setting>, p: Parsed)
    ensures Prepend(s, Extend(settings, p)) == Extend([s] + settings, p)
  {
    if p.Parsed? { assert [s] + (settings + p.settings) == [s] + settings + p.settings; }
  }

  lemma {:induction false} ParseConcat(a: seq<string>, b: seq<string>)
    requires AllFlags(a)
    ensures ParseFlags(a + b) == Extend(ParseFlags(a).settings, ParseFlags(b))
    decreases |a|
  {
    hide NextFlag;
    if a == [] {
      assert a + b == b;
      assert ParseFlags(b).Parsed? ==> [] + ParseFlags(b).settings == ParseFlags(b).settings;
    } else {
      var f := NextFlag(a);
      NextFlagConcat(a, b);
      ParseConcat(a[f.n..], b);
      assert (a + b)[f.n..] == a[f.n..] + b;
      ExtendStep(f.setting, ParseFlags(a[f.n..]).settings, ParseFlags(b));
    }
  }

  /** Where the name stands among the flags does not matter: the same settings come out. */
  lemma NamePositionIsFree(a: seq<string>, name: string, b: seq<string>)
    requires AllFlags(a) && AllFlags(b) && IsPositional(name)
    ensures var r := Fold(START, a + ([name] + b));
      r.name == name && ParseFlags(r.flags) == Parsed(ParseFlags(a).settings + ParseFlags(b).settings, [], false)
    ensures Fold(START, a + ([name] + b)).flags == Fold(START, [name] + (a + b)).flags
  {
    NameAnywhere(a, name, b);
    NameAnywhere([], name, a + b);
    ParseConcat(a, b);
    assert [] + ([name] + (a + b)) == [name] + (a + b) && [] + (a + b) == a + b;
    hide Fold;
  }

  function Named(s: Split): multiset<string> { if s.name == "" then multiset{} else multiset{s.name} }

  /** An argument that the splitter drops at this point: it adds neither a flag nor a name. */
  predicate Drops(s: Split, arg: string) { Step(s, arg).flags == s.flags && Step(s, arg).name == s.name }

  /** Only an empty argument is ever dropped, exactly when no value is due and no name has been
      seen yet. */
  lemma DropsExactlyWhen(s: Split, arg: string)
    ensures Drops(s, arg) <==> arg == "" && !s.skip && s.name == ""
  {
    hide WantsNext;
    assert |s.flags + [arg]| == |s.flags| + 1;
  }

  /** How many arguments are dropped on the way. */
  function Dropped(s: Split, args: seq<string>): nat
    decreases args
  {
    if args == [] then 0 else (if Drops(s, args[0]) then 1 else 0) + Dropped(Step(s, args[0]), args[1..])
  }

  lemma StepConserves(s: Split, arg: string)
    ensures var t := Step(s, arg);
      multiset(t.flags) + Named(t) == multiset(s.flags) + Named(s) + (if Drops(s, arg) then multiset{} else multiset{arg})
  {
    DropsExactlyWhen(s, arg);
    hide WantsNext;
  }

  /** Every value counts: whatever the list, a value comes out among flags and name as often as
      it went in, and only dropped empty arguments are missing. */
  lemma {:induction false} SplitConserves(s: Split, args: seq<string>, x: string)
    ensures var r := Fold(s, args);
      (multiset(r.flags) + Named(r))[x] + (if x == "" then Dropped(s, args) else 0) ==
      (multiset(s.flags) + Named(s) + multiset(args))[x]
    decreases args
  {
    if args != [] {
      DropsExactlyWhen(s, args[0]);
      StepConserves(s, args[0]);
      SplitConserves(Step(s, args[0]), args[1..], x);
      assert args == [args[0]] + args[1..];
      hide Step, Named, Drops;
    }
  }

  /** Each empty argument comes where a value is due or after the name. */
  ghost predicate EmptyOnlyAsValue(s: Split, args: seq<string>) {
    forall i :: 0 <= i < |args| && args[i] == "" ==> Fold(s, args[..i]).skip || Fold(s, args[..i]).name != ""
  }

  lemma {:induction false} NothingDroppedExactlyWhen(s: Split, args: seq<string>)
    ensures Dropped(s, args) == 0 <==> EmptyOnlyAsValue(s, args)
    decreases args
  {
    if args != [] {
      var t := Step(s, args[0]);
      DropsExactlyWhen(s, args[0]);
      hide Step, Drops;
      NothingDroppedExactlyWhen(t, args[1..]);
      forall i | 0 <= i < |args| ensures Fold(s, args[..i]) == if i == 0 then s else Fold(t, args[1..][..i - 1]) {
        if i > 0 { assert args[..i][1..] == args[1..][..i - 1]; }
      }
      assert forall i :: 0 <= i < |args| - 1 ==> args[1..][i] == args[i + 1];
    }
  }

  /** The split loses nothing at all exactly when every empty argument is a value or follows
      the name. */
  lemma NothingLostExactlyWhen(args: seq<string>)
    ensures var r := Fold(START, args);
      multiset(r.flags) + Named(r) == multiset(args) <==> EmptyOnlyAsValue(START, args)
  {
    var r := Fold(START, args);
    NothingDroppedExactlyWhen(START, args);
    assert multiset(START.flags) + Named(START) == multiset{};
    hide Fold, Named, Dropped, EmptyOnlyAsValue;
    SplitConserves(START, args, "");
    forall x { SplitConserves(START, args, x); }
  }

  /** An empty argument in front of the name is dropped; after a flag that takes a value it is
      that value. */
  lemma EmptyArguments(name: string)
    requires IsPositional(name)
    ensures Fold(START, ["", name]) == Split(false, name, [])
    ensures Fold(START, ["-p", "", name]) == Split(false, name, ["-p", ""])
  {
    assert ["", name][1..] == [name] && [name][1..] == [];
    assert Fold(Split(false, "", []), [name]) == Fold(Split(false, name, []), []);
    assert TrimDashes("-p") == TrimDashes("p") == "p" by { assert "-p"[1..] == "p"; }
    assert WantsNext("-p");
    hide WantsNext;
    assert ["-p", "", name][1..] == ["", name];
    assert START.flags + ["-p"] == ["-p"] && ["-p"] + [""] == ["-p", ""];
    assert "-p" != "" && "-p"[0] == '-';
    assert Fold(START, ["-p", "", name]) == Fold(Split(true, "", ["-p"]), ["", name]);
    assert Fold(Split(true, "", ["-p"]), ["", name]) == Fold(Split(false, "", ["-p", ""]), [name]);
    assert Fold(Split(false, "", ["-p", ""]), [name]) == Fold(Split(false, name, ["-p", ""]), []);
  }

  /** The splitter also waits for the value of a flag that the parser does not define: after
      "--param" an argument is not taken for the name, and the parse then fails. */
  lemma ParamWaitsInVain(value: string, name: string)
    requires IsPositional(name)
    ensures Fold(START, ["--param", value, name]) == Split(false, name, ["--param", value])
    ensures ParseFlags(["--param", value]) == Bad
  {
    ParamWants();
    hide WantsNext;
    var args := ["--param", value, name];
    FoldTwo(START, args);
    assert "--param"[0] == '-' && START.flags + ["--param"] == ["--param"];
    assert ["--param"] + [value] == ["--param", value];
    assert args[2..] == [name] && [name][1..] == [];
    assert Fold(Split(false, "", ["--param", value]), [name]) == Fold(Split(false, name, ["--param", value]), []);
    ParamIsUndefined(value);
  }

  lemma ParamWants()
    ensures WantsNext("--param")
  {
    assert "--param"[1..] == "-param" && "-param"[1..] == "param";
    assert TrimDashes("--param") == TrimDashes("-param") == TrimDashes("param") == "param";
  }

  lemma ParamIsUndefined(value: string)
    ensures NextFlag(["--param", value]) == Malformed
  {
    assert "--param"[2..] == "param" && "--param"[1] == '-' && |"--param"| == 7;
    assert Body("--param") == "param";
    IndexOfAbsent("param", '=');
    assert |"browser"| == 7 && |"debug"| == 5 && |"auto-approve"| == 12 && |"param"| == 5;
    assert |"provider"| == 8 && |"model"| == 5 && |"port"| == 4 && |"p"| == 1;
    assert "debug"[0] == 'd' && "model"[0] == 'm' && "param"[0] == 'p';
    assert "param"[..5] == "param";
    hide IndexOf;
  }
}
