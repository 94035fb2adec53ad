/** Classifying the arguments of `go build`, `go install` and `go test`, and the edits made on the
    strength of it: rewriting tokens in place and inserting tokens must not change what the other
    tokens mean.
 */
module Args {

  datatype Kind =
    | Target | BuildFlag | BuildFlagValue | TestFlag | TestFlagValue
    | TestDelimiter | TestBinary | FlagTerminator

  /** How a token is understood: its kind, and for a flag or a value the flag's name. */
  datatype Role = Role(kind: Kind, flagName: string, hasValue: bool, value: string)

  datatype Arg = Arg(index: nat, raw: string, role: Role)

  // ---------------------------------------------------------------- flags

  /** What the go command knows of a flag name. */
  datatype Class = BuildValue | BuildBool | TestValue | TestBool | Unknown

  /** The properties below hold for any table of flags; `GoFlags` is the actual one. */
  type Table = string -> Class

  predicate IsBuildFlagWithValue(name: string) {
    name in ["-C", "-o", "-p", "-covermode", "-coverpkg", "-asmflags", "-buildmode", "-buildvcs", "-compiler",
             "-gccgoflags", "-gcflags", "-installsuffix", "-ldflags", "-mod", "-modfile", "-overlay", "-pgo",
             "-pkgdir", "-tags", "-toolexec"]
  }

  predicate IsBuildBoolFlag(name: string) {
    name in ["-a", "-n", "-v", "-x", "-race", "-msan", "-asan", "-cover", "-trimpath", "-work", "-linkshared",
             "-json"]
  }

  predicate IsTestFlagWithValue(name: string) {
    name in ["-bench", "-benchtime", "-blockprofile", "-blockprofilerate", "-count", "-coverprofile", "-cpu",
             "-cpuprofile", "-exec", "-fuzz", "-fuzzminimizetime", "-fuzztime", "-list", "-memprofile",
             "-memprofilerate", "-mutexprofile", "-mutexprofilefraction", "-outputdir", "-parallel", "-run",
             "-shuffle", "-skip", "-timeout", "-trace", "-vet"]
  }

  predicate IsTestAliasFlagWithValue(name: string) {
    name in ["-test.bench", "-test.benchtime", "-test.blockprofile", "-test.blockprofilerate", "-test.count",
             "-test.coverprofile", "-test.cpu", "-test.cpuprofile", "-test.fuzz", "-test.fuzzminimizetime",
             "-test.fuzztime", "-test.list", "-test.memprofile", "-test.memprofilerate", "-test.mutexprofile",
             "-test.mutexprofilefraction", "-test.outputdir", "-test.parallel", "-test.run", "-test.shuffle",
             "-test.skip", "-test.timeout", "-test.trace"]
  }

  predicate IsTestBoolFlag(name: string) {
    name in ["-artifacts", "-benchmem", "-c", "-failfast", "-fullpath", "-short"]
  }

  predicate IsTestAliasBoolFlag(name: string) {
    name in ["-test.artifacts", "-test.benchmem", "-test.failfast", "-test.fullpath", "-test.short", "-test.v"]
  }

  function GoFlags(name: string): Class {
    if IsBuildFlagWithValue(name) then BuildValue
    else if IsBuildBoolFlag(name) then BuildBool
    else if IsTestFlagWithValue(name) || IsTestAliasFlagWithValue(name) then TestValue
    else if IsTestBoolFlag(name) || IsTestAliasBoolFlag(name) then TestBool
    else Unknown
  }

  function CutAt(s: string): (n: nat)
    ensures n <= |s| && (n < |s| ==> s[n] == '=')
    ensures forall k :: 0 <= k < n ==> s[k] != '='
  {
    if s == "" || s[0] == '=' then 0 else 1 + CutAt(s[1..])
  }

  /** The flag's name with a single dash, and its joined value. */
  function Name(arg: string): string {
    var name := arg[..CutAt(arg)];
    if |name| >= 2 && name[0] == '-' && name[1] == '-' then name[1..] else name
  }

  predicate HasValue(arg: string) { CutAt(arg) < |arg| }

  function Value(arg: string): string { if HasValue(arg) then arg[CutAt(arg) + 1..] else "" }

  predicate IsFlag(arg: string) { arg != "" && arg[0] == '-' }

  predicate IsTestDelimiter(arg: string) { arg == "--" || arg == "-args" || arg == "--args" }

  // ---------------------------------------------------------------- one token at a time

  /** What the scan remembers.  `final`: all further tokens are positional for `go build`, and belong
      to the test binary for `go test`.  `pend`: the next token is the value of a flag, or perhaps
      that of an unknown flag. */
  datatype Pend = Free | ValueOf(kind: Kind, name: string) | MaybeOf(name: string)
  datatype State = State(started: bool, closed: bool, final: bool, pend: Pend)

  const INIT := State(false, false, false, Free)

  function FlagKind(isTest: bool, cls: Class): Kind {
    if !isTest || cls.BuildValue? || cls.BuildBool? then BuildFlag
    else if cls.Unknown? then TestBinary
    else TestFlag
  }

  function FlagStep(tbl: Table, isTest: bool, st: State, arg: string): (Role, State) {
    var cls := tbl(Name(arg));
    var role := Role(FlagKind(isTest, cls), Name(arg), HasValue(arg), Value(arg));
    var st1 := if isTest && st.started then st.(closed := true, pend := Free) else st.(pend := Free);
    if cls.BuildValue? && !HasValue(arg) then (role, st1.(pend := ValueOf(BuildFlagValue, Name(arg))))
    else if isTest && cls.TestValue? && !HasValue(arg) then (role, st1.(pend := ValueOf(TestFlagValue, Name(arg))))
    else if isTest && cls.Unknown?
      then (role, st1.(closed := true, pend := if HasValue(arg) then Free else MaybeOf(Name(arg))))
    else (role, st1)
  }

  function Step(tbl: Table, isTest: bool, st: State, arg: string): (Role, State) {
    if st.pend.ValueOf? then (Role(st.pend.kind, st.pend.name, false, arg), st.(pend := Free))
    else if st.final then (Role(if isTest then TestBinary else Target, "", false, ""), st.(pend := Free))
    else if isTest && IsTestDelimiter(arg) then (Role(TestDelimiter, "", false, ""), st.(final := true, pend := Free))
    else if !isTest && arg == "--" then (Role(FlagTerminator, "", false, ""), st.(final := true, pend := Free))
    else if IsFlag(arg) then FlagStep(tbl, isTest, st, arg)
    else if !isTest then (Role(Target, "", false, ""), st.(pend := Free))
    else if st.closed then
      if st.pend.MaybeOf? then (Role(TestBinary, st.pend.name, false, arg), st.(pend := Free))
      else (Role(TestBinary, "", false, ""), st.(final := true))
    else (Role(Target, "", false, ""), st.(started := true, pend := Free))
  }

  type Stepper = (State, string) -> (Role, State)

  function Go(tbl: Table, isTest: bool): Stepper {
    (st: State, arg: string) => Step(tbl, isTest, st, arg)
  }

  // ---------------------------------------------------------------- all tokens in order

  /** Starting in the given state with the given index; for any stepper. */
  function Scan(step: Stepper, st: State, i: nat, args: seq<string>): (r: seq<Arg>)
    ensures |r| == |args|
    decreases |args|
  {
    if args == [] then []
    else
      var (role, st1) := step(st, args[0]);
      [Arg(i, args[0], role)] + Scan(step, st1, i + 1, args[1..])
  }

  function After(step: Stepper, st: State, args: seq<string>): State
    decreases |args|
  {
    if args == [] then st else After(step, step(st, args[0]).1, args[1..])
  }

  lemma {:induction false} AfterConcat(step: Stepper, st: State, a: seq<string>, b: seq<string>)
    ensures After(step, st, a + b) == After(step, After(step, st, a), b)
    decreases |a|
  {
    if a == [] {
      assert a + b == b;
    } else {
      assert (a + b)[1..] == a[1..] + b;
      AfterConcat(step, step(st, a[0]).1, a[1..], b);
    }
  }

  /** Item k stands for token k, keeps its text, and depends only on the tokens before it. */
  lemma {:induction false} ScanIsLossless(step: Stepper, st: State, i: nat, args: seq<string>, k: nat)
    requires k < |args|
    ensures Scan(step, st, i, args)[k] == Arg(i + k, args[k], step(After(step, st, args[..k]), args[k]).0)
    decreases k
  {
    if k == 0 {
      assert args[..0] == [];
    } else {
      var st1 := step(st, args[0]).1;
      ScanIsLossless(step, st1, i + 1, args[1..], k - 1);
      assert args[..k][1..] == args[1..][..k - 1];
    }
  }

  // ---------------------------------------------------------------- the loops with lookahead

  class TestArgState {
    var packageListStarted: bool
    var pkgDiscoveryClosed: bool
    var testArgsFinalized: bool

    constructor ()
      ensures !packageListStarted && !pkgDiscoveryClosed && !testArgsFinalized
    {
      packageListStarted, pkgDiscoveryClosed, testArgsFinalized := false, false, false;
    }

    /** The state of the automaton that this and the pending unknown flag stand for. */
    function Now(unknown: bool, name: string): State
      reads this
    {
      State(packageListStarted, pkgDiscoveryClosed, testArgsFinalized, if unknown then MaybeOf(name) else Free)
    }
  }

  /** What one round of a loop consumes and how the scan goes on. */
  ghost predicate Consumes(step: Stepper, st: State, args: seq<string>, i: nat, items: seq<Arg>, st': State) {
    && 0 < |items| && i + |items| <= |args|
    && Scan(step, st, i, args[i..]) == items + Scan(step, st', i + |items|, args[i + |items|..])
  }

  /** The state behind a flag with a value, and the value. */
  function Behind(isTest: bool, st: State): State {
    st.(closed := st.closed || (isTest && st.started), pend := Free)
  }

  ghost predicate IsValueFlag(tbl: Table, isTest: bool, isTestFlag: bool, st: State, arg: string) {
    && Step(tbl, isTest, st, arg) == FlagStep(tbl, isTest, st, arg)
    && if isTestFlag then isTest && tbl(Name(arg)).TestValue? else tbl(Name(arg)).BuildValue?
  }

  lemma {:induction false} ValueFlagStep(tbl: Table, isTest: bool, isTestFlag: bool, st: State, arg: string)
    requires IsValueFlag(tbl, isTest, isTestFlag, st, arg)
    ensures var (role, st1) := Step(tbl, isTest, st, arg);
            && role == Role(if isTestFlag then TestFlag else BuildFlag, Name(arg), HasValue(arg), Value(arg))
            && st1 == Behind(isTest, st).(pend := if HasValue(arg) then Free
              else ValueOf(if isTestFlag then TestFlagValue else BuildFlagValue, Name(arg)))
  {
  }

  method ClassifyValueFlag(tbl: Table, args: seq<string>, i: nat, isTestFlag: bool, ghost isTest: bool, ghost st: State)
      returns (consumed: nat, items: seq<Arg>)
    requires i < |args| && IsValueFlag(tbl, isTest, isTestFlag, st, args[i])
    ensures consumed == |items| && Consumes(Go(tbl, isTest), st, args, i, items, Behind(isTest, st))
  {
    var arg := args[i];
    var flagKind := if isTestFlag then TestFlag else BuildFlag;
    var valKind := if isTestFlag then TestFlagValue else BuildFlagValue;
    ValueFlagStep(tbl, isTest, isTestFlag, st, arg);
    if HasValue(arg) {
      return 1, [Arg(i, arg, Role(flagKind, Name(arg), true, Value(arg)))];
    }
    items := [Arg(i, arg, Role(flagKind, Name(arg), false, ""))];
    ConsumesValue(tbl, isTest, isTestFlag, st, args, i);
    if i + 1 < |args| {
      items := items + [Arg(i + 1, args[i + 1], Role(valKind, Name(arg), false, args[i + 1]))];
    }
    consumed := |items|;
  }

  /** A value flag without a joined value takes the next token, if there is one. */
  lemma {:induction false} ConsumesValue(tbl: Table, isTest: bool, isTestFlag: bool, st: State,
      args: seq<string>, i: nat)
    requires i < |args| && IsValueFlag(tbl, isTest, isTestFlag, st, args[i]) && !HasValue(args[i])
    ensures var flag := Arg(i, args[i], Role(if isTestFlag then TestFlag else BuildFlag, Name(args[i]), false, ""));
            var valKind := if isTestFlag then TestFlagValue else BuildFlagValue;
            var items := if i + 1 < |args|
              then [flag, Arg(i + 1, args[i + 1], Role(valKind, Name(args[i]), false, args[i + 1]))] else [flag];
            Consumes(Go(tbl, isTest), st, args, i, items, Behind(isTest, st))
  {
    ValueFlagStep(tbl, isTest, isTestFlag, st, args[i]);
    if i + 1 < |args| {
    } else {
    }
  }

  method ClassifyBuildFlagToken(tbl: Table, args: seq<string>, i: nat) returns (consumed: nat, items: seq<Arg>)
    requires i < |args| && IsFlag(args[i]) && args[i] != "--"
    ensures consumed == |items| && Consumes(Go(tbl, false), INIT, args, i, items, INIT)
  {
    if tbl(Name(args[i])).BuildValue? {
      consumed, items := ClassifyValueFlag(tbl, args, i, false, false, INIT);
    } else {
      return 1, [Arg(i, args[i], Role(BuildFlag, Name(args[i]), HasValue(args[i]), Value(args[i])))];
    }
  }

  method ClassifyTestFlagToken(tbl: Table, args: seq<string>, i: nat, state: TestArgState, ghost st: State)
      returns (consumed: nat, items: seq<Arg>, unknown: bool, name: string)
    requires i < |args| && IsFlag(args[i]) && !IsTestDelimiter(args[i]) && !st.final && !st.pend.ValueOf?
    requires state.Now(false, "") == st.(closed := st.closed || st.started, pend := Free)
    modifies state
    ensures consumed == |items| && Consumes(Go(tbl, true), st, args, i, items, state.Now(unknown, name))
  {
    var arg := args[i];
    match tbl(Name(arg)) {
      case BuildValue =>
        consumed, items := ClassifyValueFlag(tbl, args, i, false, true, st);
        unknown, name := false, "";
      case TestValue =>
        consumed, items := ClassifyValueFlag(tbl, args, i, true, true, st);
        unknown, name := false, "";
      case BuildBool =>
        return 1, [Arg(i, arg, Role(BuildFlag, Name(arg), HasValue(arg), Value(arg)))], false, "";
      case TestBool =>
        return 1, [Arg(i, arg, Role(TestFlag, Name(arg), HasValue(arg), Value(arg)))], false, "";
      case Unknown =>
        state.pkgDiscoveryClosed := true;
        return 1, [Arg(i, arg, Role(TestBinary, Name(arg), HasValue(arg), Value(arg)))], !HasValue(arg), Name(arg);
    }
  }

  method ClassifyPositionalTestArg(tbl: Table, arg: string, i: nat, state: TestArgState, wasAfterUnknown: bool,
      unknownName: string)
      returns (item: Arg)
    requires !IsFlag(arg) && !IsTestDelimiter(arg) && !state.testArgsFinalized
    modifies state
    ensures (item.role, state.Now(false, "")) == Step(tbl, true, old(state.Now(wasAfterUnknown, unknownName)), arg)
            && item.index == i && item.raw == arg
  {
    if state.pkgDiscoveryClosed {
      if wasAfterUnknown { return Arg(i, arg, Role(TestBinary, unknownName, false, arg)); }
      state.testArgsFinalized := true;
      return Arg(i, arg, Role(TestBinary, "", false, ""));
    }
    state.packageListStarted := true;
    item := Arg(i, arg, Role(Target, "", false, ""));
  }

  /** Glue for the loops: what was collected and what is still to come make up the whole scan. */
  lemma {:induction false} Glue<T>(done: seq<T>, items: seq<T>, rest: seq<T>)
    ensures done + (items + rest) == done + items + rest
  {
  }

  /** One round of the loop over the arguments of `go build`. */
  method ClassifyNextBuildArg(tbl: Table, args: seq<string>, i: nat, closed0: bool)
      returns (items: seq<Arg>, flagParsingClosed: bool)
    requires i < |args|
    ensures Consumes(Go(tbl, false), INIT.(final := closed0), args, i, items, INIT.(final := flagParsingClosed))
  {
    var arg := args[i];
    flagParsingClosed := closed0;
    if flagParsingClosed {
      items := [Arg(i, arg, Role(Target, "", false, ""))];
    } else if arg == "--" {
      items := [Arg(i, arg, Role(FlagTerminator, "", false, ""))];
      flagParsingClosed := true;
    } else if IsFlag(arg) {
      var consumed;
      consumed, items := ClassifyBuildFlagToken(tbl, args, i);
    } else {
      items := [Arg(i, arg, Role(Target, "", false, ""))];
    }
  }

  method ClassifyBuildArgs(tbl: Table, args: seq<string>) returns (classified: seq<Arg>)
    ensures classified == Scan(Go(tbl, false), INIT, 0, args)
  {
    classified := [];
    var flagParsingClosed := false;
    var i := 0;
    assert args[0..] == args;
    while i < |args|
      invariant i <= |args|
      invariant classified + Scan(Go(tbl, false), INIT.(final := flagParsingClosed), i, args[i..])
                == Scan(Go(tbl, false), INIT, 0, args)
    {
      var items;
      items, flagParsingClosed := ClassifyNextBuildArg(tbl, args, i, flagParsingClosed);
      Glue(classified, items,
           Scan(Go(tbl, false), INIT.(final := flagParsingClosed), i + |items|, args[i + |items|..]));
      classified := classified + items;
      i := i + |items|;
    }
    assert args[i..] == [];
  }

  /** One round of the loop over the arguments of `go test`. */
  method ClassifyNextTestArg(tbl: Table, args: seq<string>, i: nat, state: TestArgState, wasAfterUnknown: bool,
      lastUnknownName: string)
      returns (items: seq<Arg>, unknown: bool, unknownName: string)
    requires i < |args|
    modifies state
    ensures Consumes(Go(tbl, true), old(state.Now(wasAfterUnknown, lastUnknownName)), args, i, items,
            state.Now(unknown, unknownName))
  {
    var arg := args[i];
    ghost var st := state.Now(wasAfterUnknown, lastUnknownName);
    unknown, unknownName := false, "";
    if state.testArgsFinalized {
      items := [Arg(i, arg, Role(TestBinary, "", false, ""))];
    } else if IsTestDelimiter(arg) {
      items := [Arg(i, arg, Role(TestDelimiter, "", false, ""))];
      state.testArgsFinalized := true;
    } else if IsFlag(arg) {
      if state.packageListStarted { state.pkgDiscoveryClosed := true; }
      var consumed;
      consumed, items, unknown, unknownName := ClassifyTestFlagToken(tbl, args, i, state, st);
    } else {
      var item := ClassifyPositionalTestArg(tbl, arg, i, state, wasAfterUnknown, lastUnknownName);
      items := [item];
    }
  }

  method ClassifyTestArgs(tbl: Table, args: seq<string>) returns (classified: seq<Arg>)
    ensures classified == Scan(Go(tbl, true), INIT, 0, args)
  {
    classified := [];
    var state := new TestArgState();
    var unknown, unknownName := false, "";
    var i := 0;
    assert args[0..] == args;
    while i < |args|
      invariant i <= |args|
      invariant classified + Scan(Go(tbl, true), state.Now(unknown, unknownName), i, args[i..])
                == Scan(Go(tbl, true), INIT, 0, args)
    {
      var items;
      items, unknown, unknownName := ClassifyNextTestArg(tbl, args, i, state, unknown, unknownName);
      Glue(classified, items, Scan(Go(tbl, true), state.Now(unknown, unknownName), i + |items|, args[i + |items|..]));
      classified := classified + items;
      i := i + |items|;
    }
    assert args[i..] == [];
  }

  method ClassifyArgs(tbl: Table, isTest: bool, args: seq<string>) returns (classified: seq<Arg>)
    ensures classified == Scan(Go(tbl, isTest), INIT, 0, args)
  {
    if isTest { classified := ClassifyTestArgs(tbl, args); } else { classified := ClassifyBuildArgs(tbl, args); }
  }
}
