/** The optimizer of trampoline jumps, editing nodes and declarations in place. */
module Optimize {
  import opened TJumpSemantics
  import opened TJumpChain
  import opened GoAst
  import opened Instrument
  import Naming
  import HookLang
  import Decimal

  // ---------------------------------------------------------------- declarations

  function DeclMap(decls: seq<Decl>): Decls {
    if decls == [] then map[]
    else
      var rest := DeclMap(decls[1..]);
      match decls[0]
      case Trampoline(n, h) => rest[n := h]
      case OtherDecl(_) => rest
  }

  predicate Names(d: Decl, n: TrampName) { d.Trampoline? && d.name == n }

  ghost predicate Unique(decls: seq<Decl>) {
    forall i, j :: 0 <= i < j < |decls| && decls[i].Trampoline? && decls[j].Trampoline? ==>
      decls[i].name != decls[j].name
  }

  lemma {:induction false} DeclMapFinds(decls: seq<Decl>, n: TrampName)
    ensures n in DeclMap(decls) <==> exists i :: 0 <= i < |decls| && Names(decls[i], n)
    decreases |decls|
  {
    if decls != [] {
      DeclMapFinds(decls[1..], n);
      if Names(decls[0], n) {
      } else if exists i :: 0 <= i < |decls| && Names(decls[i], n) {
        var i :| 0 <= i < |decls| && Names(decls[i], n);
        assert Names(decls[1..][i - 1], n);
      }
    }
  }

  lemma {:induction false} DropDecl(decls: seq<Decl>, k: nat)
    requires k < |decls| && decls[k].Trampoline? && Unique(decls)
    ensures var rest := decls[..k] + decls[k + 1..];
            Unique(rest) && DeclMap(rest) == DeclMap(decls) - {decls[k].name}
    decreases k
  {
    var rest := decls[..k] + decls[k + 1..];
    if k == 0 {
      assert rest == decls[1..];
      DeclMapFinds(decls[1..], decls[0].name);
    } else {
      var tail := decls[1..];
      assert Unique(tail);
      DropDecl(tail, k - 1);
      assert rest[1..] == tail[..k - 1] + tail[k..];
      assert rest[0] == decls[0];
      if decls[0].Trampoline? { assert decls[0].name != decls[k].name; }
    }
  }

  /** Remove the first declaration with the given name. */
  method RemoveDecl(file: File, n: TrampName) returns (found: bool)
    requires Unique(file.decls)
    modifies file
    ensures found <==> n in DeclMap(old(file.decls))
    ensures Unique(file.decls) && DeclMap(file.decls) == DeclMap(old(file.decls)) - {n}
  {
    var decls := file.decls;
    for i := 0 to |decls|
      invariant file.decls == decls
      invariant forall j :: 0 <= j < i ==> !Names(decls[j], n)
    {
      if decls[i].Trampoline? && decls[i].name == n {
        assert Names(decls[i], n);
        DeclMapFinds(decls, n);
        DropDecl(decls, i);
        file.decls := decls[..i] + decls[i + 1..];
        return true;
      }
    }
    DeclMapFinds(decls, n);
    return false;
  }

  // ---------------------------------------------------------------- the rewrites of one jump

  /** What may follow the first statement of an else-block. */
  predicate Followers(els: seq<Item>) {
    forall i :: 1 <= i < |els| ==> els[i].Nested? || els[i] == Plain(Empty)
  }

  method RemoveAfterTrampolineCall(n: IfNode)
    requires |n.body| > 0 && n.body[0].ExprStmt? && n.init.Define?
    requires n.els != [] && n.els[0].Plain? && n.els[0].s.DeferStmt? && Followers(n.els)
    modifies n`init, n`body, n`els
    ensures n.init == old(n.init).(ctx := Blank)
    ensures n.body == old(n.body)[0 := Empty]
    ensures n.els == old(n.els)[0 := Plain(Empty)]
  {
    n.body := n.body[0 := Empty];
    ghost var els0, init0, body := n.els, n.init, n.body;
    for i := 0 to |n.els|
      invariant n.init == init0 && n.body == body
      invariant n.els == (if i == 0 then els0 else els0[0 := Plain(Empty)])
    {
      match n.els[i]
      case Plain(DeferStmt(_)) => n.els := n.els[i := Plain(Empty)];
      case Plain(Empty) =>
      case Nested(_) =>
      case _ => assert false;
    }
    n.init := n.init.(ctx := Blank);
  }

  /** The context an After-only rule passes on: a literal with the target's arguments and results. */
  method NewHookContextImpl(tj: TJump) returns (ctx: CtxArg)
    requires Naming.ValidDecl(tj.target) && Naming.AllGiven(Naming.Signature(tj.target))
    modifies tj.target`recv, tj.target`params, tj.target`results
    ensures tj.target.recv == old(tj.target.recv) && tj.target.params == old(tj.target.params)
            && tj.target.results == old(tj.target.results)
    ensures ctx == CtxLit(FuncOf(tj.target).args, FuncOf(tj.target).rets)
  {
    var hash := Decimal.Itoa(tj.rule.id);
    AllGivenParts(tj.target);
    var params := Naming.CollectArguments(tj.target, hash);
    var returnVals := [];
    if tj.target.results != [] {
      returnVals := Naming.CollectReturnValues(tj.target, hash);
    }
    ctx := CtxLit(params, returnVals);
  }

  lemma AllGivenParts(f: FuncDecl)
    requires Naming.AllGiven(Naming.Signature(f))
    ensures Naming.AllGiven(Naming.Slots(f.recv) + Naming.Slots(f.params)) && Naming.AllGiven(Naming.Slots(f.results))
  {
    assert forall x :: x in Naming.Slots(f.results) ==> x in Naming.Signature(f);
    assert forall x :: x in Naming.Slots(f.recv) + Naming.Slots(f.params) ==> x in Naming.Signature(f);
  }

  method RemoveBeforeTrampolineCall(file: File, tj: TJump) returns (ok: bool)
    requires Naming.ValidDecl(tj.target) && Naming.AllGiven(Naming.Signature(tj.target)) && Unique(file.decls)
    requires var els := tj.ifStmt.els; els != [] && els[0].Plain? && els[0].s.DeferStmt? && els[0].s.call.AfterCall?
    modifies file, tj.ifStmt`init, tj.ifStmt`cond, tj.ifStmt`body, tj.ifStmt`els, tj.target`recv, tj.target`params,
             tj.target`results
    ensures tj.target.recv == old(tj.target.recv) && tj.target.params == old(tj.target.params)
            && tj.target.results == old(tj.target.results)
    ensures tj.ifStmt.init == NoInit && tj.ifStmt.cond == False && tj.ifStmt.body == [Empty]
    ensures tj.ifStmt.els == old(tj.ifStmt.els)[0 := Plain(DeferStmt(
              old(tj.ifStmt.els[0].s.call).(ctx := CtxLit(FuncOf(tj.target).args, FuncOf(tj.target).rets))))]
    ensures var n := MakeName(tj.rule, tj.target.name, true);
            (ok <==> n in DeclMap(old(file.decls))) && Unique(file.decls)
              && DeclMap(file.decls) == DeclMap(old(file.decls)) - {n}
  {
    var n: IfNode := tj.ifStmt;
    var ctx := NewHookContextImpl(tj);
    ghost var els0 := n.els;
    var found, i := false, 0;
    while i < |n.els| && !found
      invariant !found ==> i == 0 && n.els == els0
      modifies n`els
      invariant found ==> n.els == els0[0 := Plain(DeferStmt(els0[0].s.call.(ctx := ctx)))]
    {
      if n.els[i].Plain? && n.els[i].s.DeferStmt? {
        n.els := n.els[i := Plain(DeferStmt(n.els[i].s.call.(ctx := ctx)))];
        found := true;
      }
      i := i + 1;
    }
    assert found;
    n.init, n.cond, n.body := NoInit, False, [Empty];
    ok := RemoveDecl(file, MakeName(tj.rule, tj.target.name, true));
  }

  method FlattenTJump(n: IfNode, removedOnExit: bool)
    requires n.init.Define?
    modifies n`init, n`cond, n`body
    ensures n.cond == False && n.body == [Empty]
    ensures n.init == if removedOnExit then Discard(old(n.init.call)) else old(n.init).(skip := Blank)
  {
    n.cond, n.body := False, [Empty];
    if removedOnExit {
      n.init := Discard(n.init.call);
    } else {
      n.init := n.init.(skip := Blank);
    }
  }

  // ---------------------------------------------------------------- one candidate

  function FlatOf(hooks: map<nat, HookLang.Hook>, r: Rule): bool {
    r.before != "" && r.id in hooks && HookLang.CanFlatten(hooks[r.id])
  }

  function ModeOf(hooks: map<nat, HookLang.Hook>, r: Rule): Mode { Optimized(FlatOf(hooks, r)) }

  /** The trampolines a rule does not need. */
  function Dropped(r: Rule, fn: string): set<TrampName> {
    (if r.after == "" then {MakeName(r, fn, false)} else {}) + (if r.before == "" then {MakeName(r, fn, true)} else {})
  }

  /** A candidate whose target is `fn` and whose else-block goes on with `rest`, before or after
      its optimization. */
  ghost predicate JumpIn(hooks: map<nat, HookLang.Hook>, tj: TJump, fn: Func, rest: seq<Item>, optimized: bool)
    reads tj.ifStmt, tj.target`recv, tj.target`params, tj.target`results
  {
    && ValidRule(tj.rule) && fn == FuncOf(tj.target)
    && Naming.ValidDecl(tj.target) && Naming.AllGiven(Naming.Signature(tj.target))
    && IsJump(tj.ifStmt, tj.rule, fn, if optimized then ModeOf(hooks, tj.rule) else Generated)
    && Followers(tj.ifStmt.els) && tj.ifStmt.els[1..] == rest
  }

  ghost predicate BothDeclared(decls: Decls, tj: TJump) {
    MakeName(tj.rule, tj.target.name, true) in decls && MakeName(tj.rule, tj.target.name, false) in decls
  }

  /** A jump that no longer branches: it always enters, and binds nothing to skip with. */
  ghost predicate Straight(n: IfNode)
    reads n
  {
    n.cond == False && n.body == [Empty] && (n.init.Define? ==> n.init.skip == Blank)
  }

  /** The jump is straight exactly when its rule has no Before hook, or one that uses nothing but other
      methods of its context; without an After hook nothing is deferred and nothing called to skip. */
  ghost predicate Simplified(hooks: map<nat, HookLang.Hook>, r: Rule, n: IfNode)
    reads n
  {
    && HookFound(hooks, r)
    && (Straight(n) <==> r.before == "" || HookLang.OnlyOtherMethods(hooks[r.id]))
    && (!Straight(n) ==> n.init.Define? && n.init.skip == SkipName(r.id) && n.cond == NameCond(SkipName(r.id)))
    && (r.before == "" ==> n.init == NoInit)
    && (r.after == "" ==> n.els != [] && n.els[0] == Plain(Empty) && forall s :: s in n.body ==> !s.ExprStmt?)
  }

  lemma {:induction false} OptimizedIsSimplified(hooks: map<nat, HookLang.Hook>, tj: TJump, fn: Func, rest: seq<Item>)
    requires JumpIn(hooks, tj, fn, rest, true) && HookFound(hooks, tj.rule)
    ensures Simplified(hooks, tj.rule, tj.ifStmt)
  {
    if tj.rule.before != "" { HookLang.AcceptsExactly(hooks[tj.rule.id]); }
  }

  /** The jump without its label and, if there is no After hook, without any call of After. */
  ghost predicate WithoutAfter(n: IfNode, r: Rule, fn: Func, rest: seq<Item>)
    reads n
  {
    var after := AfterOf(r, fn, CtxVar(CtxName(r.id)));
    && n.labels == [] && n.cond == NameCond(SkipName(r.id)) && Followers(n.els) && n.els != [] && n.els[1..] == rest
    && n.init == Define(if r.after == "" then Blank else CtxName(r.id), SkipName(r.id), BeforeOf(r, fn))
    && n.body == [if r.after == "" then Empty else ExprStmt(after), ReturnStmt(fn.rets)]
    && n.els[0] == Plain(if r.after == "" then Empty else DeferStmt(after))
  }

  /** Strip the label and what is there only for an After hook. */
  method StripAfter(p: Phase, tj: TJump, ghost fn: Func, ghost rest: seq<Item>) returns (removedOnExit: bool)
    requires JumpIn(p.hooks, tj, fn, rest, false) && Unique(p.file.decls) && BothDeclared(DeclMap(p.file.decls), tj)
    modifies tj.ifStmt, p.file
    ensures removedOnExit == (tj.rule.after == "") && WithoutAfter(tj.ifStmt, tj.rule, fn, rest)
    ensures Unique(p.file.decls)
    ensures DeclMap(p.file.decls) == DeclMap(old(p.file.decls))
            - if removedOnExit then {MakeName(tj.rule, tj.target.name, false)} else {}
  {
    var n, r := tj.ifStmt, tj.rule;
    assert n.labels == [T_JUMP_LABEL];
    n.labels := [];
    removedOnExit := false;
    if r.after == "" {
      RemoveAfterTrampolineCall(n);
      var found := RemoveDecl(p.file, MakeName(r, tj.target.name, false));
      assert found;
      removedOnExit := true;
    }
  }

  /** Optimize one jump; it fails only when the Before hook cannot be found. */
  method OptimizeTJump(p: Phase, tj: TJump, ghost fn: Func, ghost rest: seq<Item>) returns (ok: bool)
    requires JumpIn(p.hooks, tj, fn, rest, false) && Unique(p.file.decls) && BothDeclared(DeclMap(p.file.decls), tj)
    modifies tj.ifStmt, p.file, tj.target`recv, tj.target`params, tj.target`results
    ensures tj.target.recv == old(tj.target.recv) && tj.target.params == old(tj.target.params)
            && tj.target.results == old(tj.target.results)
    ensures ok <==> tj.rule.before == "" || tj.rule.id in p.hooks
    ensures ok ==> JumpIn(p.hooks, tj, fn, rest, true) && Simplified(p.hooks, tj.rule, tj.ifStmt)
    ensures Unique(p.file.decls) && DeclMap(p.file.decls)
            == DeclMap(old(p.file.decls)) - Dropped(tj.rule, tj.target.name)
    ensures forall isBefore: bool ::
              MakeName(tj.rule, tj.target.name, isBefore) in DeclMap(p.file.decls)
              <==> (if isBefore then tj.rule.before else tj.rule.after) != ""
  {
    var n, r := tj.ifStmt, tj.rule;
    var removedOnExit := StripAfter(p, tj, fn, rest);
    if r.before == "" {
      var found := RemoveBeforeTrampolineCall(p.file, tj);
      assert found;
      OptimizedIsSimplified(p.hooks, tj, fn, rest);
      return true;
    }
    if r.id !in p.hooks { return false; }
    if HookLang.CanFlatten(p.hooks[r.id]) {
      FlattenTJump(n, removedOnExit);
    }
    OptimizedIsSimplified(p.hooks, tj, fn, rest);
    return true;
  }

  // ---------------------------------------------------------------- all candidates of a file

  function DroppedAll(tjumps: seq<TJump>): set<TrampName> {
    if tjumps == [] then {}
    else DroppedAll(tjumps[..|tjumps| - 1]) + Dropped(tjumps[|tjumps| - 1].rule, tjumps[|tjumps| - 1].target.name)
  }

  /** Nothing one candidate's optimization touches belongs to another. */
  ghost predicate Separate(tjumps: seq<TJump>) {
    forall i, j :: 0 <= i < j < |tjumps| ==>
      tjumps[i].ifStmt != tjumps[j].ifStmt && tjumps[i].rule.id != tjumps[j].rule.id
  }

  lemma {:induction false} DroppedElsewhere(tjumps: seq<TJump>, n: TrampName)
    requires forall i :: 0 <= i < |tjumps| ==> tjumps[i].rule.id != n.id
    ensures n !in DroppedAll(tjumps)
    decreases |tjumps|
  {
    if tjumps != [] { DroppedElsewhere(tjumps[..|tjumps| - 1], n); }
  }

  lemma StillDeclared(before: Decls, tjumps: seq<TJump>, i: nat)
    requires i < |tjumps| && Separate(tjumps) && BothDeclared(before, tjumps[i])
    ensures BothDeclared(before - DroppedAll(tjumps[..i]), tjumps[i])
  {
    DroppedElsewhere(tjumps[..i], MakeName(tjumps[i].rule, tjumps[i].target.name, true));
    DroppedElsewhere(tjumps[..i], MakeName(tjumps[i].rule, tjumps[i].target.name, false));
  }

  /** The candidates before position `done` are optimized, the others are as generated. */
  ghost predicate Progress(hooks: map<nat, HookLang.Hook>, tjumps: seq<TJump>, fns: seq<Func>, rests: seq<seq<Item>>,
      done: nat)
    reads (set tj | tj in tjumps :: tj.ifStmt)
    reads (set tj | tj in tjumps :: tj.target)`recv, (set tj | tj in tjumps :: tj.target)`params,
          (set tj | tj in tjumps :: tj.target)`results
  {
    && |fns| == |rests| == |tjumps|
    && forall j :: 0 <= j < |tjumps| ==> JumpIn(hooks, tjumps[j], fns[j], rests[j], j < done)
  }

  /** What is left of the declarations after the candidates before position `done`. */
  ghost predicate DeclsAt(decls: seq<Decl>, decls0: Decls, tjumps: seq<TJump>, done: nat)
    requires done <= |tjumps|
  {
    Unique(decls) && DeclMap(decls) == decls0 - DroppedAll(tjumps[..done])
  }

  lemma DropMore(decls: seq<Decl>, decls': seq<Decl>, decls0: Decls, tjumps: seq<TJump>, i: nat)
    requires i < |tjumps| && DeclsAt(decls, decls0, tjumps, i) && Unique(decls')
    requires DeclMap(decls') == DeclMap(decls) - Dropped(tjumps[i].rule, tjumps[i].target.name)
    ensures DeclsAt(decls', decls0, tjumps, i + 1)
  {
    assert tjumps[..i + 1][..i] == tjumps[..i];
  }

  /** One step through the candidates. */
  method OptimizeNext(p: Phase, tjumps: seq<TJump>, ghost fns: seq<Func>, ghost rests: seq<seq<Item>>,
      ghost decls0: Decls, i: nat)
      returns (ok: bool)
    requires i < |tjumps| && Separate(tjumps) && Progress(p.hooks, tjumps, fns, rests, i)
    requires DeclsAt(p.file.decls, decls0, tjumps, i) && BothDeclared(decls0, tjumps[i])
    modifies p.file, tjumps[i].ifStmt, tjumps[i].target`recv, tjumps[i].target`params, tjumps[i].target`results
    ensures ok <==> HookFound(p.hooks, tjumps[i].rule)
    ensures ok ==> Progress(p.hooks, tjumps, fns, rests, i + 1) && DeclsAt(p.file.decls, decls0, tjumps, i + 1)
  {
    StillDeclared(decls0, tjumps, i);
    ghost var decls := p.file.decls;
    ok := OptimizeTJump(p, tjumps[i], fns[i], rests[i]);
    if ok {
      forall j | 0 <= j < |tjumps| ensures JumpIn(p.hooks, tjumps[j], fns[j], rests[j], j < i + 1) {
        if j != i {
          assert old(JumpIn(p.hooks, tjumps[j], fns[j], rests[j], j < i));
          assert tjumps[j].ifStmt != tjumps[i].ifStmt;
        }
      }
      DropMore(decls, p.file.decls, decls0, tjumps, i);
    }
  }

  /** Optimize every jump of the file.  On success each node has its optimized form, targets and
      nesting are untouched, and exactly the trampolines nobody needs are gone. */
  method OptimizeTJumps(p: Phase, ghost fns: seq<Func>, ghost rests: seq<seq<Item>>) returns (ok: bool)
    requires Separate(p.tjumps) && Progress(p.hooks, p.tjumps, fns, rests, 0) && Unique(p.file.decls)
    requires forall i :: 0 <= i < |p.tjumps| ==> BothDeclared(DeclMap(p.file.decls), p.tjumps[i])
    modifies p.file, (set tj | tj in p.tjumps :: tj.ifStmt)
    modifies (set tj | tj in p.tjumps :: tj.target)`recv, (set tj | tj in p.tjumps :: tj.target)`params,
             (set tj | tj in p.tjumps :: tj.target)`results
    ensures ok <==> forall i :: 0 <= i < |p.tjumps| ==> HookFound(p.hooks, p.tjumps[i].rule)
    ensures ok ==> Progress(p.hooks, p.tjumps, fns, rests, |p.tjumps|)
    ensures ok ==> DeclMap(p.file.decls) == DeclMap(old(p.file.decls)) - DroppedAll(p.tjumps)
  {
    var tjumps := p.tjumps;
    ghost var decls0 := DeclMap(p.file.decls);
    assert tjumps[..0] == [];
    for i := 0 to |tjumps|
      invariant DeclsAt(p.file.decls, decls0, tjumps, i) && Progress(p.hooks, tjumps, fns, rests, i)
      invariant forall j :: 0 <= j < i ==> HookFound(p.hooks, tjumps[j].rule)
    {
      assert BothDeclared(decls0, tjumps[i]);
      ok := OptimizeNext(p, tjumps, fns, rests, decls0, i);
      if !ok { return; }
    }
    assert tjumps[..|tjumps|] == tjumps;
    ok := true;
  }

  predicate HookFound(hooks: map<nat, HookLang.Hook>, r: Rule) {
    r.before == "" || r.id in hooks
  }
}
