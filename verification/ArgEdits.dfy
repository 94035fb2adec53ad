/** The edits made on a classified command line, and what they leave alone. */
module ArgEdits {
  import opened Args
  import opened Basics
  import Paths

  /** The roles of the tokens, without their places. */
  function Kinds(step: Stepper, st: State, args: seq<string>): (r: seq<Kind>)
    ensures |r| == |args|
    decreases |args|
  {
    if args == [] then [] else [step(st, args[0]).0.kind] + Kinds(step, step(st, args[0]).1, args[1..])
  }

  lemma {:induction false} KindsAt(step: Stepper, st: State, args: seq<string>, k: nat)
    requires k < |args|
    ensures Kinds(step, st, args)[k] == Scan(step, st, 0, args)[k].role.kind
    decreases k
  {
    ScanIsLossless(step, st, 0, args, k);
    if k > 0 {
      KindsAt(step, step(st, args[0]).1, args[1..], k - 1);
      ScanIsLossless(step, step(st, args[0]).1, 0, args[1..], k - 1);
      assert args[..k][1..] == args[1..][..k - 1];
    } else {
      assert args[..0] == [];
    }
  }

  lemma {:induction false} KindsConcat(step: Stepper, st: State, a: seq<string>, b: seq<string>)
    ensures Kinds(step, st, a + b) == Kinds(step, st, a) + Kinds(step, After(step, st, a), b)
    decreases |a|
  {
    if a == [] {
      assert a + b == b;
    } else {
      assert (a + b)[1..] == a[1..] + b;
      KindsConcat(step, step(st, a[0]).1, a[1..], b);
      Glue([step(st, a[0]).0.kind], Kinds(step, step(st, a[0]).1, a[1..]), Kinds(step, After(step, st, a), b));
    }
  }

  lemma {:induction false} AfterSplit(step: Stepper, st: State, args: seq<string>, i: nat, k: nat)
    requires i <= k <= |args|
    ensures After(step, st, args[..k]) == After(step, After(step, st, args[..i]), args[i..k])
  {
    assert args[..k] == args[..i] + args[i..k];
    AfterConcat(step, st, args[..i], args[i..k]);
  }

  lemma {:induction false} AfterNext(step: Stepper, st: State, args: seq<string>, i: nat)
    requires i < |args|
    ensures After(step, st, args[..i + 1]) == step(After(step, st, args[..i]), args[i]).1
  {
    AfterSplit(step, st, args, i, i + 1);
    var one := args[i..i + 1];
    assert one == [args[i]] && one[1..] == [];
  }

  // ---------------------------------------------------------------- the package list of go test

  /** What the states of a `go test` scan have in common. */
  predicate Reachable(st: State) {
    && (st.pend.ValueOf? ==> !st.final && (st.started ==> st.closed) && st.pend.kind != Target)
    && (st.pend.MaybeOf? ==> st.closed)
  }

  /** No further token can be a package. */
  predicate Over(st: State) { st.closed || st.final }

  lemma {:induction false} ListStep(tbl: Table, st: State, arg: string)
    requires Reachable(st)
    ensures var (role, st') := Step(tbl, true, st, arg);
            && Reachable(st') && (Over(st) ==> Over(st') && role.kind != Target) && (st.started ==> st'.started)
            && (role.kind == Target ==> st'.started && !Over(st') && st'.pend.Free?)
            && (st.started && role.kind != Target ==> Over(st'))
  {
  }

  lemma {:induction false} ListAfter(tbl: Table, st: State, args: seq<string>)
    requires Reachable(st)
    ensures var st' := After(Go(tbl, true), st, args);
            Reachable(st') && (Over(st) ==> Over(st')) && (st.started ==> st'.started)
    decreases |args|
  {
    if args != [] {
      ListStep(tbl, st, args[0]);
      ListAfter(tbl, Step(tbl, true, st, args[0]).1, args[1..]);
    }
  }

  /** The state in which token k is looked at, and what it is taken for. */
  function At(tbl: Table, isTest: bool, args: seq<string>, k: nat): State
    requires k <= |args|
  {
    After(Go(tbl, isTest), INIT, args[..k])
  }

  function Items(tbl: Table, isTest: bool, args: seq<string>): (r: seq<Arg>)
    ensures |r| == |args|
  {
    Scan(Go(tbl, isTest), INIT, 0, args)
  }

  lemma {:induction false} ItemAt(tbl: Table, isTest: bool, args: seq<string>, k: nat)
    requires k < |args|
    ensures Items(tbl, isTest, args)[k] == Arg(k, args[k], Step(tbl, isTest, At(tbl, isTest, args, k), args[k]).0)
  {
    ScanIsLossless(Go(tbl, isTest), INIT, 0, args, k);
  }

  function KindOf(tbl: Table, args: seq<string>, k: nat): Kind
    requires k < |args|
  {
    Items(tbl, true, args)[k].role.kind
  }

  lemma {:induction false} TokenAt(tbl: Table, args: seq<string>, k: nat)
    requires k < |args|
    ensures KindOf(tbl, args, k) == Target ==> At(tbl, true, args, k + 1).started && !Over(At(tbl, true, args, k))
    ensures KindOf(tbl, args, k) != Target && At(tbl, true, args, k).started ==> Over(At(tbl, true, args, k + 1))
  {
    ItemAt(tbl, true, args, k);
    AfterNext(Go(tbl, true), INIT, args, k);
    ListAfter(tbl, INIT, args[..k]);
    ListStep(tbl, At(tbl, true, args, k), args[k]);
  }

  lemma {:induction false} Later(tbl: Table, args: seq<string>, k: nat, m: nat)
    requires k <= m <= |args|
    ensures At(tbl, true, args, k).started ==> At(tbl, true, args, m).started
    ensures Over(At(tbl, true, args, k)) ==> Over(At(tbl, true, args, m))
  {
    ListAfter(tbl, INIT, args[..k]);
    AfterSplit(Go(tbl, true), INIT, args, k, m);
    ListAfter(tbl, At(tbl, true, args, k), args[k..m]);
  }

  /** The packages of `go test` are one contiguous run of tokens. */
  lemma {:induction false} TestTargetsAreContiguous(tbl: Table, args: seq<string>, i: nat, j: nat, k: nat)
    requires i < j < k < |args| && KindOf(tbl, args, i) == Target && KindOf(tbl, args, k) == Target
    ensures KindOf(tbl, args, j) == Target
  {
    TokenAt(tbl, args, i);
    Later(tbl, args, i + 1, j);
    TokenAt(tbl, args, j);
    Later(tbl, args, j + 1, k);
    TokenAt(tbl, args, k);
  }

  // ---------------------------------------------------------------- replacing tokens

  /** Token b can stand where token a stood. */
  predicate Harmless(step: Stepper, st: State, a: string, b: string) {
    step(st, a).1 == step(st, b).1 && step(st, a).0.kind == step(st, b).0.kind
      && step(st, a).0.flagName == step(st, b).0.flagName
  }

  ghost predicate AllHarmless(step: Stepper, st: State, args: seq<string>, out: seq<string>) {
    |out| == |args| && forall k :: 0 <= k < |args| ==> Harmless(step, After(step, st, args[..k]), args[k], out[k])
  }

  lemma {:induction false} ReplacingKeepsKinds(step: Stepper, st: State, args: seq<string>, out: seq<string>)
    requires AllHarmless(step, st, args, out)
    ensures Kinds(step, st, out) == Kinds(step, st, args)
    ensures forall k :: 0 <= k <= |args| ==> After(step, st, out[..k]) == After(step, st, args[..k])
    decreases |args|
  {
    if args != [] {
      var st1 := step(st, args[0]).1;
      assert args[..0] == [] && Harmless(step, After(step, st, args[..0]), args[0], out[0]);
      forall k | 0 <= k < |args| - 1
        ensures Harmless(step, After(step, st1, args[1..][..k]), args[1..][k], out[1..][k]) {
        assert args[..k + 1][1..] == args[1..][..k];
        assert Harmless(step, After(step, st, args[..k + 1]), args[k + 1], out[k + 1]);
      }
      ReplacingKeepsKinds(step, st1, args[1..], out[1..]);
      forall k | 0 < k <= |args| ensures After(step, st, out[..k]) == After(step, st, args[..k]) {
        assert args[..k][1..] == args[1..][..k - 1] && out[..k][1..] == out[1..][..k - 1];
      }
    }
  }

  /** A flag, and too long to be a delimiter. */
  predicate PlainFlag(b: string) { |b| > 6 && b[0] == '-' }

  /** A value is never mistaken for a flag. */
  lemma {:induction false} ValuesAreValues(tbl: Table, isTest: bool, st: State, args: seq<string>)
    requires st.pend.ValueOf? ==> st.pend.kind == BuildFlagValue || st.pend.kind == TestFlagValue
    ensures var st' := After(Go(tbl, isTest), st, args);
            st'.pend.ValueOf? ==> st'.pend.kind == BuildFlagValue || st'.pend.kind == TestFlagValue
    decreases |args|
  {
    if args != [] { ValuesAreValues(tbl, isTest, Step(tbl, isTest, st, args[0]).1, args[1..]); }
  }

  /** Replacing a build flag of the command line. */
  lemma {:induction false} ReplaceFlag(tbl: Table, isTest: bool, args: seq<string>, k: nat, b: string)
    requires k < |args| && PlainFlag(b)
    requires var role := Items(tbl, isTest, args)[k].role;
             role.kind == BuildFlag && role.flagName == Name(b)
               && (tbl(Name(b)).BuildBool? || (tbl(Name(b)).BuildValue? && role.hasValue && HasValue(b)))
    ensures Harmless(Go(tbl, isTest), At(tbl, isTest, args, k), args[k], b)
    ensures Step(tbl, isTest, At(tbl, isTest, args, k), b).0.hasValue == HasValue(b)
  {
    ItemAt(tbl, isTest, args, k);
    ValuesAreValues(tbl, isTest, INIT, args[..k]);
  }

  /** Replacing the separate value of a flag. */
  lemma {:induction false} ReplaceValue(tbl: Table, isTest: bool, args: seq<string>, k: nat, b: string)
    requires k < |args| && Items(tbl, isTest, args)[k].role.kind == BuildFlagValue
    ensures Harmless(Go(tbl, isTest), At(tbl, isTest, args, k), args[k], b)
    ensures Step(tbl, isTest, At(tbl, isTest, args, k), b).0.kind == BuildFlagValue
  {
    ItemAt(tbl, isTest, args, k);
  }

  // ---------------------------------------------------------------- module mode instead of vendoring

  predicate IsModVendorToken(tok: string) { tok == "-mod=vendor" || tok == "--mod=vendor" }

  predicate IsModFlag(item: Arg) { item.role.kind == BuildFlag && item.role.flagName == "-mod" }

  predicate JoinedVendor(items: seq<Arg>, k: nat)
    requires k < |items|
  {
    IsModFlag(items[k]) && items[k].role.hasValue && IsModVendorToken(items[k].raw)
  }

  /** Token k is the separate value `vendor` of the `-mod` before it. */
  predicate SeparateVendor(items: seq<Arg>, k: nat)
    requires k < |items|
  {
    && k > 0 && IsModFlag(items[k - 1]) && !items[k - 1].role.hasValue
    && items[k].role.kind == BuildFlagValue && items[k].raw == "vendor"
  }

  function ModMode(items: seq<Arg>, k: nat): string
    requires k < |items|
  {
    if JoinedVendor(items, k) then "-mod=mod" else if SeparateVendor(items, k) then "mod" else items[k].raw
  }

  function WithModMode(items: seq<Arg>): (r: seq<string>)
    ensures |r| == |items| && forall k :: 0 <= k < |items| ==> r[k] == ModMode(items, k)
  {
    seq(|items|, k requires 0 <= k < |items| => ModMode(items, k))
  }

  method RewriteModVendor(tbl: Table, isTest: bool, args: seq<string>) returns (out: seq<string>)
    ensures out == WithModMode(Items(tbl, isTest, args))
  {
    var classified := ClassifyArgs(tbl, isTest, args);
    forall k | 0 <= k < |args| ensures classified[k].raw == args[k] && classified[k].index == k {
      ItemAt(tbl, isTest, args, k);
    }
    out := ReplaceVendor(classified, args);
  }

  method ReplaceVendor(classified: seq<Arg>, args: seq<string>) returns (out: seq<string>)
    requires |classified| == |args|
    requires forall k :: 0 <= k < |args| ==> classified[k].raw == args[k] && classified[k].index == k
    ensures out == WithModMode(classified)
  {
    out := args;
    for i := 0 to |classified|
      invariant |out| == |args|
      invariant forall k :: 0 <= k < |args| ==>
                  out[k] == if k < i || (k == i && SeparateVendor(classified, k)) then ModMode(classified, k)
                    else args[k]
    {
      var a := classified[i];
      if a.role.kind == BuildFlag && a.role.flagName == "-mod" {
        if a.role.hasValue && IsModVendorToken(a.raw) {
          out := out[a.index := "-mod=mod"];
        } else if !a.role.hasValue && i + 1 < |classified| && classified[i + 1].role.kind == BuildFlagValue
          && classified[i + 1].raw == "vendor" {
          out := out[classified[i + 1].index := "mod"];
        }
      }
    }
  }

  lemma {:induction false} CutAtIs(s: string, n: nat)
    requires n < |s| && s[n] == '=' && forall k :: 0 <= k < n ==> s[k] != '='
    ensures CutAt(s) == n
    decreases n
  {
    if n > 0 { CutAtIs(s[1..], n - 1); }
  }

  lemma {:induction false} JoinedVendorAt(tbl: Table, isTest: bool, args: seq<string>, k: nat)
    requires tbl("-mod").BuildValue? && k < |args| && JoinedVendor(Items(tbl, isTest, args), k)
    ensures var st := At(tbl, isTest, args, k);
            Harmless(Go(tbl, isTest), st, args[k], "-mod=mod") && Step(tbl, isTest, st, "-mod=mod").0.hasValue
  {
    ItemAt(tbl, isTest, args, k);
    ReplaceFlag(tbl, isTest, args, k, "-mod=mod");
  }

  lemma {:induction false} SeparateVendorAt(tbl: Table, isTest: bool, args: seq<string>, k: nat)
    requires tbl("-mod").BuildValue? && k < |args| && SeparateVendor(Items(tbl, isTest, args), k)
    ensures var st := At(tbl, isTest, args, k);
            Harmless(Go(tbl, isTest), st, args[k], "mod") && Step(tbl, isTest, st, "mod").0.kind == BuildFlagValue
  {
    ItemAt(tbl, isTest, args, k);
    ReplaceValue(tbl, isTest, args, k, "mod");
  }

  /** The item of a token after the rewrite: the same unless it was a vendor selection. */
  lemma {:induction false} ModModeAt(tbl: Table, isTest: bool, args: seq<string>, k: nat)
    requires tbl("-mod").BuildValue? && k < |args|
    ensures var items, st := Items(tbl, isTest, args), At(tbl, isTest, args, k);
            && Harmless(Go(tbl, isTest), st, args[k], ModMode(items, k))
            && (if JoinedVendor(items, k) then Step(tbl, isTest, st, ModMode(items, k)).0.hasValue
                else if SeparateVendor(items, k) then Step(tbl, isTest, st, ModMode(items, k)).0.kind == BuildFlagValue
                else ModMode(items, k) == args[k] && Step(tbl, isTest, st, args[k]).0 == items[k].role)
  {
    var items := Items(tbl, isTest, args);
    if JoinedVendor(items, k) {
      JoinedVendorAt(tbl, isTest, args, k);
    } else if SeparateVendor(items, k) {
      SeparateVendorAt(tbl, isTest, args, k);
    } else {
      ItemAt(tbl, isTest, args, k);
    }
  }

  /** Rewriting the vendor selection keeps the meaning of every token ... */
  lemma {:induction false} ModModeKeepsKinds(tbl: Table, isTest: bool, args: seq<string>)
    requires tbl("-mod").BuildValue?
    ensures var out := WithModMode(Items(tbl, isTest, args));
            && Kinds(Go(tbl, isTest), INIT, out) == Kinds(Go(tbl, isTest), INIT, args)
            && forall k :: 0 <= k <= |args| ==> At(tbl, isTest, out, k) == At(tbl, isTest, args, k)
  {
    var out := WithModMode(Items(tbl, isTest, args));
    forall k | 0 <= k < |args|
      ensures Harmless(Go(tbl, isTest), After(Go(tbl, isTest), INIT, args[..k]), args[k], out[k]) {
      ModModeAt(tbl, isTest, args, k);
    }
    ReplacingKeepsKinds(Go(tbl, isTest), INIT, args, out);
  }

  lemma {:induction false} ModModeItem(tbl: Table, isTest: bool, args: seq<string>, k: nat)
    requires tbl("-mod").BuildValue? && k < |args|
    ensures var items := Items(tbl, isTest, args);
            var after := Items(tbl, isTest, WithModMode(items))[k];
            after.raw == ModMode(items, k) && after.role.kind == items[k].role.kind
              && after.role.flagName == items[k].role.flagName
            && (if JoinedVendor(items, k) then after.role.hasValue else !SeparateVendor(items, k) ==> after == items[k])
  {
    var items := Items(tbl, isTest, args);
    ModModeKeepsKinds(tbl, isTest, args);
    ModModeAt(tbl, isTest, args, k);
    ItemAt(tbl, isTest, args, k);
    ItemAt(tbl, isTest, WithModMode(items), k);
  }

  /** ... and no vendor selection is left, joined or separate. */
  lemma {:induction false} ModModeIsComplete(tbl: Table, isTest: bool, args: seq<string>, k: nat)
    requires tbl("-mod").BuildValue? && k < |args|
    ensures var after := Items(tbl, isTest, WithModMode(Items(tbl, isTest, args)));
            !JoinedVendor(after, k) && !SeparateVendor(after, k)
  {
    ModModeItem(tbl, isTest, args, k);
    if k > 0 { ModModeItem(tbl, isTest, args, k - 1); }
  }

  // ---------------------------------------------------------------- no JSON output

  predicate IsJson(item: Arg) { item.role.kind == BuildFlag && item.role.flagName == "-json" }

  function WithoutJson(items: seq<Arg>): (r: seq<string>)
    ensures |r| == |items| && forall k :: 0 <= k < |items| ==>
            r[k] == if IsJson(items[k]) then "-json=false" else items[k].raw
  {
    seq(|items|, k requires 0 <= k < |items| => if IsJson(items[k]) then "-json=false" else items[k].raw)
  }

  method DisableJSONOutput(tbl: Table, isTest: bool, args: seq<string>) returns (out: seq<string>)
    ensures out == WithoutJson(Items(tbl, isTest, args))
  {
    var classified := ClassifyArgs(tbl, isTest, args);
    forall k | 0 <= k < |args| ensures classified[k].raw == args[k] && classified[k].index == k {
      ItemAt(tbl, isTest, args, k);
    }
    out := SilenceJSON(classified, args);
  }

  method SilenceJSON(classified: seq<Arg>, args: seq<string>) returns (out: seq<string>)
    requires |classified| == |args|
    requires forall k :: 0 <= k < |args| ==> classified[k].raw == args[k] && classified[k].index == k
    ensures out == WithoutJson(classified)
  {
    out := args;
    for i := 0 to |classified|
      invariant |out| == |args|
      invariant forall k :: 0 <= k < |args| ==>
                out[k] == if k < i && IsJson(classified[k]) then "-json=false" else args[k]
    {
      if IsJson(classified[i]) { out := out[classified[i].index := "-json=false"]; }
    }
  }

  lemma {:induction false} JsonToken()
    ensures Name("-json=false") == "-json" && HasValue("-json=false") && PlainFlag("-json=false")
  {
    CutAtIs("-json=false", 5);
    assert "-json=false"[..5] == "-json";
  }

  /** Each JSON flag is switched off where it stands, and every token keeps its meaning. */
  lemma {:induction false} WithoutJsonKeepsKinds(tbl: Table, isTest: bool, args: seq<string>)
    requires tbl("-json").BuildBool?
    ensures Kinds(Go(tbl, isTest), INIT, WithoutJson(Items(tbl, isTest, args))) == Kinds(Go(tbl, isTest), INIT, args)
  {
    var items := Items(tbl, isTest, args);
    var out := WithoutJson(items);
    forall k | 0 <= k < |args|
      ensures Harmless(Go(tbl, isTest), After(Go(tbl, isTest), INIT, args[..k]), args[k], out[k]) {
      ItemAt(tbl, isTest, args, k);
      if IsJson(items[k]) {
        JsonToken();
        ReplaceFlag(tbl, isTest, args, k, "-json=false");
      }
    }
    ReplacingKeepsKinds(Go(tbl, isTest), INIT, args, out);
  }

  // ---------------------------------------------------------------- inserting tokens

  /** The tokens stay in the state they are looked at in. */
  ghost predicate Passes(step: Stepper, st: State, xs: seq<string>) {
    forall k :: 0 <= k < |xs| ==> step(st, xs[k]).1 == st
  }

  lemma {:induction false} PassesThrough(step: Stepper, st: State, xs: seq<string>)
    requires Passes(step, st, xs)
    ensures After(step, st, xs) == st
    ensures forall k :: 0 <= k < |xs| ==> Kinds(step, st, xs)[k] == step(st, xs[k]).0.kind
    decreases |xs|
  {
    if xs != [] {
      assert step(st, xs[0]).1 == st;
      PassesThrough(step, st, xs[1..]);
    }
  }

  /** Tokens that pass can be inserted without changing the meaning of the others. */
  lemma {:induction false} InsertingKeepsKinds(step: Stepper, args: seq<string>, n: nat, xs: seq<string>)
    requires n <= |args| && Passes(step, After(step, INIT, args[..n]), xs)
    ensures var ks := Kinds(step, INIT, args);
            Kinds(step, INIT, args[..n] + xs + args[n..])
              == ks[..n] + Kinds(step, After(step, INIT, args[..n]), xs) + ks[n..]
  {
    var st, a, b := After(step, INIT, args[..n]), args[..n], args[n..];
    assert args == a + b && args[..n] + xs + args[n..] == a + xs + b;
    KindsConcat(step, INIT, a, b);
    KindsConcat(step, INIT, a + xs, b);
    KindsConcat(step, INIT, a, xs);
    AfterConcat(step, INIT, a, xs);
    PassesThrough(step, st, xs);
  }

  predicate IsC(arg: string) { arg == "-C" || arg == "--C" }

  predicate IsJoinedC(arg: string) {
    (|arg| >= 3 && arg[..3] == "-C=") || (|arg| >= 4 && arg[..4] == "--C=")
  }

  /** Behind a leading `-C`, which must stay first. */
  function InsertPoint(args: seq<string>): (n: nat)
    ensures n <= |args|
  {
    if |args| > 1 && IsC(args[0]) then 2 else if |args| > 0 && IsJoinedC(args[0]) then 1 else 0
  }

  function AddBuildFlags(args: seq<string>, flags: seq<string>): seq<string> {
    args[..InsertPoint(args)] + flags + args[InsertPoint(args)..]
  }

  /** A flag that leaves nothing pending. */
  predicate Complete(tbl: Table, f: string) {
    IsFlag(f) && f != "--" && !IsTestDelimiter(f)
      && (tbl(Name(f)).BuildBool? || (tbl(Name(f)).BuildValue? && HasValue(f)))
  }

  lemma {:induction false} NameOfC(arg: string)
    requires IsC(arg) || IsJoinedC(arg)
    ensures Name(arg) == "-C" && HasValue(arg) == IsJoinedC(arg) && IsFlag(arg) && !IsTestDelimiter(arg) && arg != "--"
  {
    if IsC(arg) {
    } else {
      var n := if arg[..3] == "-C=" then 2 else 3;
      assert arg[0] == '-' && (n == 2 ==> arg[1] == 'C' && arg[2] == '=') && (n == 3 ==> arg == arg[..4] + arg[4..]);
      assert n == 3 ==> arg[..4][1] == '-' && arg[..4][2] == 'C' && arg[..4][3] == '=';
      CutAtIs(arg, n);
    }
  }

  lemma {:induction false} StartAgain(tbl: Table, isTest: bool, args: seq<string>)
    requires tbl("-C").BuildValue?
    ensures At(tbl, isTest, args, InsertPoint(args)) == INIT
  {
    var n := InsertPoint(args);
    if n == 0 {
      assert args[..0] == [];
    } else {
      NameOfC(args[0]);
      AfterNext(Go(tbl, isTest), INIT, args, 0);
      assert args[..0] == [];
      if n == 2 { AfterNext(Go(tbl, isTest), INIT, args, 1); }
    }
  }

  /** The added flags are build flags, and all original tokens keep their meaning. */
  lemma {:induction false} AddedFlagsKeepKinds(tbl: Table, isTest: bool, args: seq<string>, flags: seq<string>)
    requires tbl("-C").BuildValue? && forall f :: f in flags ==> Complete(tbl, f)
    ensures var ks, n := Kinds(Go(tbl, isTest), INIT, args), InsertPoint(args);
            Kinds(Go(tbl, isTest), INIT, AddBuildFlags(args, flags)) == ks[..n] + seq(|flags|, _ => BuildFlag) + ks[n..]
  {
    var step, n := Go(tbl, isTest), InsertPoint(args);
    StartAgain(tbl, isTest, args);
    forall k | 0 <= k < |flags| ensures step(INIT, flags[k]).1 == INIT && step(INIT, flags[k]).0.kind == BuildFlag {
      assert flags[k] in flags;
    }
    InsertingKeepsKinds(step, args, n, flags);
    PassesThrough(step, INIT, flags);
    assert Kinds(step, INIT, flags) == seq(|flags|, _ => BuildFlag);
  }

  // ---------------------------------------------------------------- the runtime file

  predicate IsGoFile(raw: string) { |raw| >= 3 && raw[|raw| - 3..] == ".go" }

  predicate IsFileTarget(item: Arg) { item.role.kind == Target && IsGoFile(item.raw) }

  method LastFileTargetIndex(tbl: Table, isTest: bool, args: seq<string>) returns (last: int)
    ensures -1 <= last < |args|
    ensures last >= 0 ==> IsFileTarget(Items(tbl, isTest, args)[last])
    ensures forall k :: last < k < |args| ==> !IsFileTarget(Items(tbl, isTest, args)[k])
  {
    var classified := ClassifyArgs(tbl, isTest, args);
    last := -1;
    for i := 0 to |classified|
      invariant -1 <= last < i && (last >= 0 ==> IsFileTarget(classified[last]))
      invariant forall k :: last < k < i ==> !IsFileTarget(classified[k])
    {
      ItemAt(tbl, isTest, args, i);
      if classified[i].role.kind == Target && IsGoFile(classified[i].raw) { last := classified[i].index; }
    }
  }

  /** Behind a target the next positional token is a target again; so is any token once `go build`
      has seen `--`. */
  lemma {:induction false} BehindTarget(tbl: Table, isTest: bool, st: State, arg: string, path: string)
    requires Step(tbl, isTest, st, arg).0.kind == Target && (st.pend.ValueOf? ==> st.pend.kind != Target)
    ensures var st1 := Step(tbl, isTest, st, arg).1;
            var (role, st2) := Step(tbl, isTest, st1, path);
            (role.kind == Target <==> !IsFlag(path) || (!isTest && st1.final)) && (role.kind == Target ==> st2 == st1)
  {
  }

  /** Inserted right behind the last file target, the runtime file becomes a target and leaves every
      other token alone, if and only if its path does not look like a flag (or flags are over). */
  lemma {:induction false} RuntimeFileIsTarget(tbl: Table, isTest: bool, args: seq<string>, last: nat, path: string)
    requires last < |args| && IsFileTarget(Items(tbl, isTest, args)[last])
    ensures var ks, st := Kinds(Go(tbl, isTest), INIT, args), At(tbl, isTest, args, last + 1);
            var out := args[..last + 1] + [path] + args[last + 1..];
            Kinds(Go(tbl, isTest), INIT, out) == ks[..last + 1] + [Target] + ks[last + 1..]
            <==> !IsFlag(path) || (!isTest && st.final)
  {
    var step, n := Go(tbl, isTest), last + 1;
    var st, out := At(tbl, isTest, args, n), args[..n] + [path] + args[n..];
    ItemAt(tbl, isTest, args, last);
    AfterNext(step, INIT, args, last);
    ValuesAreValues(tbl, isTest, INIT, args[..last]);
    BehindTarget(tbl, isTest, At(tbl, isTest, args, last), args[last], path);
    if step(st, path).0.kind == Target {
      InsertingKeepsKinds(step, args, n, [path]);
      assert Kinds(step, st, [path]) == [Target];
    } else {
      assert out[..n] == args[..n] && out[n] == path;
      KindsAt(step, INIT, out, n);
      ItemAt(tbl, isTest, out, n);
    }
  }

  // ---------------------------------------------------------------- the real flags

  /** What the lemmas above ask of a table holds of the go command's. */
  lemma {:induction false} GoFlagsFit()
    ensures GoFlags("-mod").BuildValue? && GoFlags("-C").BuildValue? && GoFlags("-toolexec").BuildValue?
    ensures GoFlags("-json").BuildBool? && GoFlags("-work").BuildBool?
  {
    assert !IsBuildFlagWithValue("-json") && !IsBuildFlagWithValue("-work");
  }

  lemma {:induction false} WorkToken()
    ensures Name("-work") == "-work" && IsFlag("-work") && !IsTestDelimiter("-work")
  {
  }

  lemma {:induction false} ToolexecToken(toolexec: string)
    requires |toolexec| >= 10 && toolexec[..10] == "-toolexec="
    ensures PlainFlag(toolexec) && Name(toolexec) == "-toolexec" && HasValue(toolexec)
  {
    assert forall k :: 0 <= k < 10 ==> toolexec[k] == toolexec[..10][k];
    CutAtIs(toolexec, 9);
    assert toolexec[..9] == toolexec[..10][..9];
  }

  /** A joined toolexec flag and `-work` leave nothing pending, in any table that knows them. */
  lemma {:induction false} AddedFlagsComplete(tbl: Table, toolexec: string)
    requires |toolexec| >= 10 && toolexec[..10] == "-toolexec=" && tbl("-work").BuildBool?
             && tbl("-toolexec").BuildValue?
    ensures Complete(tbl, "-work") && Complete(tbl, toolexec)
  {
    WorkToken();
    ToolexecToken(toolexec);
  }

  /** The command line of an instrumented build without file targets: the added flags, and every
      original token with its old meaning. */
  lemma {:induction false} BuildArgsKeepKinds(isTest: bool, args: seq<string>, toolexec: string)
    requires |toolexec| >= 10 && toolexec[..10] == "-toolexec="
    ensures var rest := WithModMode(Items(GoFlags, isTest, args));
            var ks, n := Kinds(Go(GoFlags, isTest), INIT, args), InsertPoint(rest);
            Kinds(Go(GoFlags, isTest), INIT, AddBuildFlags(rest, ["-work", toolexec]))
              == ks[..n] + seq(2, _ => BuildFlag) + ks[n..]
  {
    GoFlagsFit();
    ModModeKeepsKinds(GoFlags, isTest, args);
    AddedFlagsComplete(GoFlags, toolexec);
    AddedFlagsKeepKinds(GoFlags, isTest, WithModMode(Items(GoFlags, isTest, args)), ["-work", toolexec]);
  }

  // ---------------------------------------------------------------- the whole line with file targets

  const RUNTIME_FILE := "otelc.runtime.go"

  /** A name for a generated file. */
  predicate FileName(name: string) { Paths.Plain(name) && name != ".." && name[0] != '-' }

  lemma {:induction false} RuntimeName(name: string)
    requires name == RUNTIME_FILE
    ensures FileName(name)
  {
    NoSlash(name);
  }

  lemma {:induction false} NoSlash(name: string)
    requires name == RUNTIME_FILE
    ensures Paths.SlashAt(name) == |name|
  {
    Paths.SlashNowhere(name);
  }

  /** The generated file next to a target. */
  function RuntimePath(target: string, name: string): string { Paths.Join(Paths.Dir(target), name) }

  /** The target's directory, once cleaned, begins with a dash. */
  predicate DashDirectory(target: string) {
    var dir := Paths.DirPart(target);
    !Paths.Rooted(dir) && Paths.Resolved(dir) != [] && HasPrefix(Paths.Resolved(dir)[0], "-")
  }

  lemma {:induction false} RuntimePathDash(target: string, name: string)
    requires FileName(name)
    ensures IsFlag(RuntimePath(target, name)) <==> DashDirectory(target)
  {
    Paths.SiblingDash(target, name);
  }

  /** A `--` stands in front of token k. */
  predicate Terminated(tbl: Table, args: seq<string>, k: nat)
    requires k <= |args|
  {
    exists j :: 0 <= j < k && Items(tbl, false, args)[j].role.kind == FlagTerminator
  }

  lemma {:induction false} FlagsAreOver(tbl: Table, args: seq<string>, k: nat)
    requires k <= |args|
    ensures At(tbl, false, args, k).final <==> Terminated(tbl, args, k)
    decreases k
  {
    if k == 0 {
      assert args[..0] == [];
    } else {
      FlagsAreOver(tbl, args, k - 1);
      ItemAt(tbl, false, args, k - 1);
      AfterNext(Go(tbl, false), INIT, args, k - 1);
      ValuesAreValues(tbl, false, INIT, args[..k - 1]);
    }
  }

  /** First and last file target of a command line. */
  ghost predicate FileTargets(items: seq<Arg>, first: nat, last: nat) {
    && first <= last < |items| && IsFileTarget(items[first]) && IsFileTarget(items[last])
    && forall k :: 0 <= k < |items| && IsFileTarget(items[k]) ==> first <= k <= last
  }

  /** The arguments with the runtime file put right behind the last file target. */
  function WithRuntimeFile(isTest: bool, args: seq<string>, first: nat, last: nat, name: string): seq<string>
    requires first <= last < |args|
  {
    var rest := WithModMode(Items(GoFlags, isTest, args));
    rest[..last + 1] + [RuntimePath(rest[first], name)] + rest[last + 1..]
  }

  /** The command line with file targets: the runtime file is one more target, the added flags are
      build flags and every original token keeps its meaning, if and only if the directory of the
      first file target does not begin with a dash once cleaned, or `go build` has seen `--`. */
  lemma {:induction false} FileBuildArgsKeepKinds(isTest: bool, args: seq<string>, first: nat, last: nat,
      name: string, toolexec: string)
    requires FileName(name) && |toolexec| >= 10 && toolexec[..10] == "-toolexec="
    requires FileTargets(Items(GoFlags, isTest, args), first, last)
    ensures var ks, out := Kinds(Go(GoFlags, isTest), INIT, args), WithRuntimeFile(isTest, args, first, last, name);
            var with, n := ks[..last + 1] + [Target] + ks[last + 1..], InsertPoint(out);
            Kinds(Go(GoFlags, isTest), INIT, AddBuildFlags(out, ["-work", toolexec]))
              == with[..n] + seq(2, _ => BuildFlag) + with[n..]
            <==> !DashDirectory(args[first]) || (!isTest && Terminated(GoFlags, args, last + 1))
  {
    var out := WithRuntimeFile(isTest, args, first, last, name);
    RuntimeFilePlaced(isTest, args, first, last, name);
    GoFlagsFit();
    AddedFlagsComplete(GoFlags, toolexec);
    AddedFlagsKeepKinds(GoFlags, isTest, out, ["-work", toolexec]);
    var ks := Kinds(Go(GoFlags, isTest), INIT, args);
    SameAround(Kinds(Go(GoFlags, isTest), INIT, out), ks[..last + 1] + [Target] + ks[last + 1..],
               InsertPoint(out), seq(2, _ => BuildFlag));
  }

  lemma {:induction false} RuntimeFilePlaced(isTest: bool, args: seq<string>, first: nat, last: nat, name: string)
    requires FileName(name) && FileTargets(Items(GoFlags, isTest, args), first, last)
    ensures var ks, out := Kinds(Go(GoFlags, isTest), INIT, args), WithRuntimeFile(isTest, args, first, last, name);
            Kinds(Go(GoFlags, isTest), INIT, out) == ks[..last + 1] + [Target] + ks[last + 1..]
            <==> !DashDirectory(args[first]) || (!isTest && Terminated(GoFlags, args, last + 1))
  {
    var rest := WithModMode(Items(GoFlags, isTest, args));
    GoFlagsFit();
    ModModeKeepsKinds(GoFlags, isTest, args);
    NoModFile(isTest, args, first);
    NoModFile(isTest, args, last);
    RuntimeFileIsTarget(GoFlags, isTest, rest, last, RuntimePath(rest[first], name));
    RuntimePathDash(args[first], name);
    if !isTest { FlagsAreOver(GoFlags, args, last + 1); }
  }

  /** What is put into two lists at the same place tells nothing about whether they are equal. */
  lemma {:induction false} SameAround<T>(a: seq<T>, b: seq<T>, n: nat, xs: seq<T>)
    requires n <= |a| == |b|
    ensures a[..n] + xs + a[n..] == b[..n] + xs + b[n..] <==> a == b
  {
    var u, v := a[..n] + xs + a[n..], b[..n] + xs + b[n..];
    if u == v {
      assert a[..n] == u[..n] && a[n..] == u[n + |xs|..];
      assert b[..n] == v[..n] && b[n..] == v[n + |xs|..];
      assert a == a[..n] + a[n..] && b == b[..n] + b[n..];
    }
  }

  /** A build of one file in a directory below whose name begins with a dash, as of ./-d/a.go: the
      runtime file is read as a flag. */
  lemma {:induction false} DashTarget(dir: string, file: string, name: string)
    requires Paths.Plain(dir) && dir[0] == '-' && Paths.SlashAt(file) == |file| && IsGoFile(file) && FileName(name)
    ensures var target := Paths.Below(dir, file);
            && RuntimePath(target, name) == dir + "/" + name && DashDirectory(target)
            && FileTargets(Items(GoFlags, false, [target]), 0, 0) && !Terminated(GoFlags, [target], 1)
            && Kinds(Go(GoFlags, false), INIT, [target, RuntimePath(target, name)]) == [Target, BuildFlag]
  {
    var target := Paths.Below(dir, file);
    Paths.BelowSibling(dir, file, name);
    assert target[|target| - 3..] == file[|file| - 3..];
    var path := dir + "/" + name;
    assert path[2..] != "" ==> path != "--";
    assert |path| >= 3;
    TargetThenFlag(GoFlags, target, path);
  }

  lemma {:induction false} TargetThenFlag(tbl: Table, target: string, path: string)
    requires target != "" && !IsFlag(target) && IsFlag(path) && path != "--"
    ensures Items(tbl, false, [target])[0].role.kind == Target && Items(tbl, false, [target])[0].raw == target
    ensures Kinds(Go(tbl, false), INIT, [target, path]) == [Target, BuildFlag]
  {
    ItemAt(tbl, false, [target], 0);
    assert [target][..0] == [];
    assert [target, path][1..] == [path] && [path][1..] == [];
  }

  lemma {:induction false} DashExample(dir: string, file: string)
    requires dir == "-d" && file == "a.go"
    ensures Paths.Plain(dir) && dir[0] == '-' && Paths.SlashAt(file) == |file| && IsGoFile(file)
    ensures Paths.Below(dir, file) == "./-d/a.go"
  {
    Paths.SlashNowhere(dir);
    Paths.SlashNowhere(file);
  }

  /** The rewrite of the vendor selection does not touch a target. */
  lemma {:induction false} NoModFile(isTest: bool, args: seq<string>, k: nat)
    requires k < |args| && IsFileTarget(Items(GoFlags, isTest, args)[k])
    ensures WithModMode(Items(GoFlags, isTest, args))[k] == args[k]
    ensures IsFileTarget(Items(GoFlags, isTest, WithModMode(Items(GoFlags, isTest, args)))[k])
  {
    GoFlagsFit();
    ItemAt(GoFlags, isTest, args, k);
    ModModeItem(GoFlags, isTest, args, k);
  }
}
