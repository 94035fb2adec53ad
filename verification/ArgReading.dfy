/** What each token of a command line means, said without a scan: from the token itself and from what
    stands in front of it.  The automaton of `Args` gives every token exactly this meaning.
 */
module ArgReading {
  import opened Basics
  import opened Args
  import opened ArgEdits

  /** The tokens behind which nothing is a flag any more. */
  predicate EndsFlags(isTest: bool, arg: string) {
    if isTest then arg == "--" || arg == "-args" || arg == "--args" else arg == "--"
  }

  predicate TakesValue(tbl: Table, isTest: bool, arg: string) {
    !HasValue(arg) && (tbl(Name(arg)).BuildValue? || (isTest && tbl(Name(arg)).TestValue?))
  }

  /** Position k holds the value of the flag in front of it. */
  ghost predicate ValueAt(tbl: Table, isTest: bool, args: seq<string>, k: nat)
    requires k <= |args|
    decreases k, 0
  {
    k > 0 && FlagAt(tbl, isTest, args, k - 1) && TakesValue(tbl, isTest, args[k - 1])
  }

  /** Token k is a flag: it looks like one, is no value, and flags are not over. */
  ghost predicate FlagAt(tbl: Table, isTest: bool, args: seq<string>, k: nat)
    requires k < |args|
    decreases k, 2
  {
    && IsFlag(args[k]) && !EndsFlags(isTest, args[k])
    && !ValueAt(tbl, isTest, args, k) && !OverAt(tbl, isTest, args, k)
  }

  /** Flags are over: a token in front of k says so, or is an argument for the test binary. */
  ghost predicate OverAt(tbl: Table, isTest: bool, args: seq<string>, k: nat)
    requires k <= |args|
    decreases k, 1
  {
    exists j :: 0 <= j < k && OverBehind(tbl, isTest, args, j)
  }

  ghost predicate OverBehind(tbl: Table, isTest: bool, args: seq<string>, j: nat)
    requires j < |args|
    decreases j, 3
  {
    !ValueAt(tbl, isTest, args, j) && (EndsFlags(isTest, args[j]) || (isTest && StrayAt(tbl, args, j)))
  }

  /** A positional token of `go test` behind the packages that no flag can claim. */
  ghost predicate StrayAt(tbl: Table, args: seq<string>, j: nat)
    requires j < |args|
    decreases j, 2
  {
    !IsFlag(args[j]) && ClosedAt(tbl, args, j) && !ClaimedAt(tbl, args, j)
  }

  /** The flag in front of k is unknown and may take token k as its value. */
  ghost predicate ClaimedAt(tbl: Table, args: seq<string>, k: nat)
    requires k <= |args|
    decreases k, 0
  {
    k > 0 && FlagAt(tbl, true, args, k - 1) && tbl(Name(args[k - 1])).Unknown? && !HasValue(args[k - 1])
  }

  /** The packages of `go test` are complete: an unknown flag, or any flag behind a package. */
  ghost predicate ClosedAt(tbl: Table, args: seq<string>, k: nat)
    requires k <= |args|
    decreases k, 1
  {
    exists i :: 0 <= i < k && ClosesAt(tbl, args, i)
  }

  ghost predicate ClosesAt(tbl: Table, args: seq<string>, i: nat)
    requires i < |args|
    decreases i, 4
  {
    FlagAt(tbl, true, args, i) && (tbl(Name(args[i])).Unknown? || StartedAt(tbl, args, i))
  }

  ghost predicate StartedAt(tbl: Table, args: seq<string>, k: nat)
    requires k <= |args|
    decreases k, 1
  {
    exists h :: 0 <= h < k && PackageAt(tbl, args, h)
  }

  ghost predicate PackageAt(tbl: Table, args: seq<string>, h: nat)
    requires h < |args|
    decreases h, 3
  {
    && !IsFlag(args[h]) && !ValueAt(tbl, true, args, h) && !OverAt(tbl, true, args, h)
    && !ClosedAt(tbl, args, h)
  }

  /** What token k means. */
  ghost function RoleAt(tbl: Table, isTest: bool, args: seq<string>, k: nat): Role
    requires k < |args|
  {
    var arg := args[k];
    if ValueAt(tbl, isTest, args, k) then
      var name := Name(args[k - 1]);
      Role(if tbl(name).BuildValue? then BuildFlagValue else TestFlagValue, name, false, arg)
    else if OverAt(tbl, isTest, args, k) then Role(if isTest then TestBinary else Target, "", false, "")
    else if EndsFlags(isTest, arg) then Role(if isTest then TestDelimiter else FlagTerminator, "", false, "")
    else if IsFlag(arg) then
      var kind := if !isTest then BuildFlag
                  else match tbl(Name(arg))
                    case BuildValue => BuildFlag
                    case BuildBool => BuildFlag
                    case TestValue => TestFlag
                    case TestBool => TestFlag
                    case Unknown => TestBinary;
      Role(kind, Name(arg), HasValue(arg), Value(arg))
    else if !isTest then Role(Target, "", false, "")
    else if ClaimedAt(tbl, args, k) then Role(TestBinary, Name(args[k - 1]), false, arg)
    else Role(if ClosedAt(tbl, args, k) then TestBinary else Target, "", false, "")
  }

  // ---------------------------------------------------------------- the automaton agrees

  /** What the scan remembers in front of token k. */
  ghost predicate Remembers(tbl: Table, isTest: bool, args: seq<string>, k: nat, st: State)
    requires k <= |args|
  {
    && (st.final <==> OverAt(tbl, isTest, args, k))
    && (st.pend.ValueOf? <==> ValueAt(tbl, isTest, args, k))
    && (st.pend.ValueOf? ==>
          var name := Name(args[k - 1]);
          st.pend == ValueOf(if tbl(name).BuildValue? then BuildFlagValue else TestFlagValue, name))
    && (isTest ==> (st.started <==> StartedAt(tbl, args, k)) && (st.closed <==> ClosedAt(tbl, args, k)))
    && (isTest ==> (st.pend.MaybeOf? <==> ClaimedAt(tbl, args, k)))
    && (isTest && st.pend.MaybeOf? ==> st.pend == MaybeOf(Name(args[k - 1])))
    && (!isTest ==> !st.pend.MaybeOf?)
  }

  lemma {:induction false} StepsOf(tbl: Table, isTest: bool, args: seq<string>, k: nat)
    requires k < |args|
    ensures OverAt(tbl, isTest, args, k + 1) <==> OverAt(tbl, isTest, args, k) || OverBehind(tbl, isTest, args, k)
    ensures ClosedAt(tbl, args, k + 1) <==> ClosedAt(tbl, args, k) || ClosesAt(tbl, args, k)
    ensures StartedAt(tbl, args, k + 1) <==> StartedAt(tbl, args, k) || PackageAt(tbl, args, k)
  {
  }

  /** An unknown flag without a value closes the packages, so a claimed token is no package. */
  lemma {:induction false} ClaimedIsClosed(tbl: Table, args: seq<string>, k: nat)
    requires k <= |args| && ClaimedAt(tbl, args, k)
    ensures ClosedAt(tbl, args, k) && !ValueAt(tbl, true, args, k)
  {
    assert ClosesAt(tbl, args, k - 1);
  }

  lemma {:induction false} StepRemembers(tbl: Table, isTest: bool, args: seq<string>, k: nat, st: State)
    requires k < |args| && Remembers(tbl, isTest, args, k, st)
    ensures var (role, st1) := Step(tbl, isTest, st, args[k]);
            role == RoleAt(tbl, isTest, args, k) && Remembers(tbl, isTest, args, k + 1, st1)
  {
    StepsOf(tbl, isTest, args, k);
    if FlagAt(tbl, isTest, args, k) {
      FlagRemembers(tbl, isTest, args, k, st);
    } else {
      OtherRemembers(tbl, isTest, args, k, st);
    }
  }

  lemma {:induction false} FlagRemembers(tbl: Table, isTest: bool, args: seq<string>, k: nat, st: State)
    requires k < |args| && Remembers(tbl, isTest, args, k, st) && FlagAt(tbl, isTest, args, k)
    ensures var (role, st1) := Step(tbl, isTest, st, args[k]);
            role == RoleAt(tbl, isTest, args, k) && Remembers(tbl, isTest, args, k + 1, st1)
  {
    StepsOf(tbl, isTest, args, k);
  }

  lemma {:induction false} OtherRemembers(tbl: Table, isTest: bool, args: seq<string>, k: nat, st: State)
    requires k < |args| && Remembers(tbl, isTest, args, k, st) && !FlagAt(tbl, isTest, args, k)
    ensures var (role, st1) := Step(tbl, isTest, st, args[k]);
            role == RoleAt(tbl, isTest, args, k) && Remembers(tbl, isTest, args, k + 1, st1)
  {
    StepsOf(tbl, isTest, args, k);
    if isTest && ClaimedAt(tbl, args, k) { ClaimedIsClosed(tbl, args, k); }
  }

  lemma {:induction false} ScanRemembers(tbl: Table, isTest: bool, args: seq<string>, k: nat)
    requires k <= |args|
    ensures Remembers(tbl, isTest, args, k, After(Go(tbl, isTest), INIT, args[..k]))
    decreases k
  {
    var step := Go(tbl, isTest);
    if k == 0 {
      assert args[..0] == [];
    } else {
      ScanRemembers(tbl, isTest, args, k - 1);
      StepRemembers(tbl, isTest, args, k - 1, After(step, INIT, args[..k - 1]));
      var last := [args[k - 1]];
      assert args[..k] == args[..k - 1] + last && last[1..] == [];
      AfterConcat(step, INIT, args[..k - 1], last);
    }
  }

  /** Every token has the meaning that it and the tokens in front of it give it. */
  lemma {:induction false} ScanReads(tbl: Table, isTest: bool, args: seq<string>, k: nat)
    requires k < |args|
    ensures Scan(Go(tbl, isTest), INIT, 0, args)[k] == Arg(k, args[k], RoleAt(tbl, isTest, args, k))
  {
    ScanRemembers(tbl, isTest, args, k);
    ScanIsLossless(Go(tbl, isTest), INIT, 0, args, k);
    StepRemembers(tbl, isTest, args, k, After(Go(tbl, isTest), INIT, args[..k]));
  }

  /** Behind an unknown flag and the token it claims flags go on: only a positional token that no flag
      claims hands everything over to the test binary. */
  lemma {:induction false} ClaimedGoesOn(tbl: Table, args: seq<string>, k: nat)
    requires k < |args| && ClaimedAt(tbl, args, k) && !EndsFlags(true, args[k])
    ensures OverAt(tbl, true, args, k + 1) <==> OverAt(tbl, true, args, k)
  {
    StepsOf(tbl, true, args, k);
  }

  // ---------------------------------------------------------------- the edits, token by token

  lemma {:induction false} ItemReads(tbl: Table, isTest: bool, args: seq<string>, k: nat)
    requires k < |args|
    ensures Items(tbl, isTest, args)[k] == Arg(k, args[k], RoleAt(tbl, isTest, args, k))
  {
    ScanReads(tbl, isTest, args, k);
  }

  /** A flag token with this name and no value is the name with one dash or two. */
  lemma {:induction false} BareFlag(arg: string, name: string)
    requires |name| >= 2 && name[0] == '-' && name[1] != '-' && CutAt(name) == |name|
    ensures Name(arg) == name && !HasValue(arg) <==> arg == name || arg == "-" + name
  {
    if arg == "-" + name {
      NoCut(name, 1);
      assert arg[1..] == name;
    }
    if !HasValue(arg) { assert arg[..CutAt(arg)] == arg; }
    if Name(arg) == name && !HasValue(arg) && arg != name { assert arg == "-" + arg[1..]; }
  }

  lemma {:induction false} NoCut(name: string, n: nat)
    requires CutAt(name) == |name|
    ensures CutAt("-" + name) == |name| + 1
  {
    assert ("-" + name)[1..] == name;
  }

  /** A flag token with this name is the name with one dash or two, alone or with a value. */
  lemma {:induction false} NamedFlag(arg: string, name: string)
    requires |name| >= 2 && name[0] == '-' && name[1] != '-' && CutAt(name) == |name|
    ensures Name(arg) == name <==>
            arg[..CutAt(arg)] == name || arg[..CutAt(arg)] == "-" + name
  {
    var head := arg[..CutAt(arg)];
    if head == "-" + name { assert head[1..] == name; }
    if Name(arg) == name && head != name { assert head == "-" + head[1..]; }
  }

  lemma {:induction false} VendorText(arg: string)
    requires arg == "-mod=vendor" || arg == "--mod=vendor"
    ensures Name(arg) == "-mod" && HasValue(arg)
  {
    if arg == "-mod=vendor" {
      CutAtIs(arg, 4);
      assert arg[..4] == "-mod";
    } else {
      CutAtIs(arg, 5);
      assert arg[..5] == "--mod";
    }
  }

  /** A build flag carries its own name and value. */
  predicate FlagItem(item: Arg) {
    item.role.kind == BuildFlag ==> item.role.flagName == Name(item.raw) && item.role.hasValue == HasValue(item.raw)
  }

  lemma {:induction false} JoinedText(items: seq<Arg>, k: nat)
    requires k < |items| && FlagItem(items[k])
    ensures JoinedVendor(items, k) <==>
            items[k].role.kind == BuildFlag && (items[k].raw == "-mod=vendor" || items[k].raw == "--mod=vendor")
  {
    if items[k].raw == "-mod=vendor" || items[k].raw == "--mod=vendor" { VendorText(items[k].raw); }
  }

  lemma {:induction false} SeparateText(items: seq<Arg>, k: nat)
    requires 0 < k < |items| && FlagItem(items[k - 1])
    ensures SeparateVendor(items, k) <==>
            && items[k - 1].role.kind == BuildFlag && (items[k - 1].raw == "-mod" || items[k - 1].raw == "--mod")
            && items[k].role.kind == BuildFlagValue && items[k].raw == "vendor"
  {
    assert CutAt("-mod") == 4;
    BareFlag(items[k - 1].raw, "-mod");
  }

  lemma {:induction false} ItemIsFlagItem(tbl: Table, isTest: bool, args: seq<string>, k: nat)
    requires k < |args|
    ensures FlagItem(Items(tbl, isTest, args)[k])
  {
    ItemReads(tbl, isTest, args, k);
  }

  /** Exactly these tokens are rewritten: a build flag that reads `-mod=vendor`, with one dash or two,
      and `vendor` as the value of a build flag that reads `-mod`. */
  lemma {:induction false} RewriteReads(tbl: Table, isTest: bool, args: seq<string>, k: nat)
    requires k < |args|
    ensures WithModMode(Items(tbl, isTest, args))[k] ==
            if RoleAt(tbl, isTest, args, k).kind == BuildFlag && (args[k] == "-mod=vendor" || args[k] == "--mod=vendor")
            then "-mod=mod"
            else if k > 0 && (args[k - 1] == "-mod" || args[k - 1] == "--mod") && args[k] == "vendor"
                    && RoleAt(tbl, isTest, args, k - 1).kind == BuildFlag
                    && RoleAt(tbl, isTest, args, k).kind == BuildFlagValue
            then "mod"
            else args[k]
  {
    var items := Items(tbl, isTest, args);
    ItemIsFlagItem(tbl, isTest, args, k);
    JoinedText(items, k);
    if k > 0 {
      ItemIsFlagItem(tbl, isTest, args, k - 1);
      SeparateText(items, k);
      ItemReads(tbl, isTest, args, k - 1);
    }
    ItemReads(tbl, isTest, args, k);
  }

  /** Exactly the build flags that read `-json`, with one dash or two and any value, are switched off. */
  lemma {:induction false} JsonReads(tbl: Table, isTest: bool, args: seq<string>, k: nat)
    requires k < |args|
    ensures var name := args[k][..CutAt(args[k])];
            WithoutJson(Items(tbl, isTest, args))[k] ==
            if RoleAt(tbl, isTest, args, k).kind == BuildFlag && (name == "-json" || name == "--json")
            then "-json=false" else args[k]
  {
    ItemIsFlagItem(tbl, isTest, args, k);
    ItemReads(tbl, isTest, args, k);
    assert CutAt("-json") == 5;
    NamedFlag(args[k], "-json");
  }

  /** Added flags stand first, or right behind a leading -C and its directory. */
  lemma {:induction false} AddedBehindC(args: seq<string>, flags: seq<string>)
    ensures var out := AddBuildFlags(args, flags);
            var n := if |args| > 1 && (args[0] == "-C" || args[0] == "--C") then 2
                     else if |args| > 0 && (HasPrefix(args[0], "-C=") || HasPrefix(args[0], "--C=")) then 1 else 0;
            out == args[..n] + flags + args[n..]
  {
  }
}
