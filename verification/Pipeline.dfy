/** Applying the rules of one function and optimizing the result, end to end; and what the
    optimized function does when the Before hooks are programs rather than assumptions. */
module Pipeline {
  import opened TJumpSemantics
  import opened TJumpChain
  import opened GoAst
  import opened Instrument
  import opened Optimize
  import Naming
  import HL = HookLang

  // ---------------------------------------------------------------- declarations of a chain

  predicate OnlyOthers(decls: seq<Decl>) { forall d :: d in decls ==> d.OtherDecl? }

  lemma {:induction false} TrampolinesAt(rules: seq<Rule>, fn: string, i: nat)
    requires i < |rules|
    ensures var ts := TrampolinesOfAll(rules, fn);
            |ts| == 2 * |rules| && ts[2 * i..2 * i + 2] == TrampolinesOf(rules[i], fn)
    decreases |rules|
  {
    var n := |rules| - 1;
    if i < n {
      TrampolinesAt(rules[..n], fn, i);
      assert rules[..n][i] == rules[i];
    } else if n > 0 {
      TrampolinesAt(rules[..n], fn, 0);
    } else {
      assert rules[..n] == [];
    }
  }

  lemma {:induction false} DeclMapValue(decls: seq<Decl>, k: nat)
    requires k < |decls| && decls[k].Trampoline? && Unique(decls)
    ensures decls[k].name in DeclMap(decls) && DeclMap(decls)[decls[k].name] == decls[k].hooked
    decreases k
  {
    if k > 0 {
      assert Unique(decls[1..]);
      DeclMapValue(decls[1..], k - 1);
      if decls[0].Trampoline? { assert decls[0].name != decls[k].name; }
    }
  }

  /** The two trampolines of rule i sit side by side after the declarations that were there before. */
  lemma {:induction false} DeclAt(decls0: seq<Decl>, rules: seq<Rule>, fn: string, k: nat)
    requires k < 2 * |rules|
    ensures var all := decls0 + TrampolinesOfAll(rules, fn);
            |all| == |decls0| + 2 * |rules| && all[|decls0| + k] == TrampolinesOf(rules[k / 2], fn)[k % 2]
  {
    var ts := TrampolinesOfAll(rules, fn);
    TrampolinesAt(rules, fn, k / 2);
    assert ts[k] == ts[2 * (k / 2)..2 * (k / 2) + 2][k % 2];
  }

  lemma {:induction false} ChainUnique(decls0: seq<Decl>, rules: seq<Rule>, fn: string)
    requires OnlyOthers(decls0) && DistinctIds(rules)
    ensures Unique(decls0 + TrampolinesOfAll(rules, fn))
  {
    var all, n := decls0 + TrampolinesOfAll(rules, fn), |decls0|;
    if rules != [] { DeclAt(decls0, rules, fn, 0); }
    forall i, j | 0 <= i < j < |all| && all[i].Trampoline? && all[j].Trampoline? ensures all[i].name != all[j].name {
      assert all[i] !in decls0 && all[j] !in decls0;
      DeclAt(decls0, rules, fn, i - n);
      DeclAt(decls0, rules, fn, j - n);
      if (i - n) / 2 != (j - n) / 2 { assert rules[(i - n) / 2].id != rules[(j - n) / 2].id; }
    }
  }

  lemma {:induction false} ChainDeclared(decls0: seq<Decl>, rules: seq<Rule>, fn: Func)
    requires OnlyOthers(decls0) && DistinctIds(rules)
    ensures var all := decls0 + TrampolinesOfAll(rules, fn.name);
            Unique(all) && Declares(DeclMap(all), rules, AllGenerated(|rules|), fn)
  {
    var all, n := decls0 + TrampolinesOfAll(rules, fn.name), |decls0|;
    ChainUnique(decls0, rules, fn.name);
    forall i | 0 <= i < |rules| ensures DeclaresJump(DeclMap(all), rules[i], fn, Generated) {
      DeclAt(decls0, rules, fn.name, 2 * i);
      DeclAt(decls0, rules, fn.name, 2 * i + 1);
      DeclMapValue(all, n + 2 * i);
      DeclMapValue(all, n + 2 * i + 1);
    }
  }

  function ModesOf(hooks: map<nat, HL.Hook>, rules: seq<Rule>): (ms: seq<Mode>)
    ensures |ms| == |rules|
  {
    seq(|rules|, i requires 0 <= i < |rules| => ModeOf(hooks, rules[i]))
  }

  /** Every trampoline a rewritten jump still calls keeps its declaration. */
  lemma {:induction false} NeededStay(decls: Decls, tjumps: seq<TJump>, hooks: map<nat, HL.Hook>, rules: seq<Rule>,
      fn: Func)
    requires |tjumps| == |rules| && DistinctIds(rules)
    requires forall i :: 0 <= i < |rules| ==> tjumps[i].rule == rules[i] && tjumps[i].target.name == fn.name
    requires Declares(decls, rules, AllGenerated(|rules|), fn)
    ensures Declares(decls - DroppedAll(tjumps), rules, ModesOf(hooks, rules), fn)
  {
    forall i | 0 <= i < |rules|
      ensures DeclaresJump(decls - DroppedAll(tjumps), rules[i], fn, ModesOf(hooks, rules)[i]) {
      assert DeclaresJump(decls, rules[i], fn, AllGenerated(|rules|)[i]);
      forall b: bool | (if b then rules[i].before else rules[i].after) != ""
        ensures MakeName(rules[i], fn.name, b) !in DroppedAll(tjumps) {
        var n := MakeName(rules[i], fn.name, b);
        forall j | 0 <= j < |tjumps| ensures n !in Dropped(tjumps[j].rule, tjumps[j].target.name) {
          if j != i { assert rules[i].id != rules[j].id; }
        }
        NotDropped(tjumps, n);
      }
    }
  }

  lemma {:induction false} NotDropped(tjumps: seq<TJump>, n: TrampName)
    requires forall j :: 0 <= j < |tjumps| ==> n !in Dropped(tjumps[j].rule, tjumps[j].target.name)
    ensures n !in DroppedAll(tjumps)
    decreases |tjumps|
  {
    if tjumps != [] { NotDropped(tjumps[..|tjumps| - 1], n); }
  }

  // ---------------------------------------------------------------- one function, end to end

  /** Jumps inserted, nothing optimized yet. */
  ghost predicate Ready(p: Phase, f: FuncDecl, nodes: seq<IfNode>, rs: seq<Rule>)
    reads p`tjumps, p.file, f`recv, f`params, f`results, nodes
  {
    && Linked(nodes) && AreJumps(nodes, rs, FuncOf(f), AllGenerated(|rs|)) && DistinctIds(rs) && ValidRules(rs)
    && p.tjumps == JumpsOf(f, nodes, rs)
    && Naming.ValidDecl(f) && (nodes != [] ==> Naming.AllGiven(Naming.Signature(f)))
    && Unique(p.file.decls) && Declares(DeclMap(p.file.decls), rs, AllGenerated(|rs|), FuncOf(f))
  }

  /** Jumps optimized: the chain of the rules in their optimized forms, and the declarations it needs. */
  ghost predicate Optimal(p: Phase, f: FuncDecl, nodes: seq<IfNode>, rs: seq<Rule>)
    reads p.file, f`recv, f`params, f`results, nodes
  {
    && Linked(nodes) && Value(nodes, 0) == Chain(rs, ModesOf(p.hooks, rs), FuncOf(f))
    && Declares(DeclMap(p.file.decls), rs, ModesOf(p.hooks, rs), FuncOf(f))
  }

  method ApplyRules(p: Phase, f: FuncDecl, rules: seq<Rule>) returns (nodes: seq<IfNode>)
    requires p.tjumps == [] && p.applied == {} && OnlyOthers(p.file.decls) && ValidRules(rules)
    requires Naming.ValidDecl(f) && Naming.NoClash(Naming.Signature(f)) && NoJumpYet(f.body)
    modifies p, p.file, f
    ensures Ready(p, f, nodes, NewRules(rules, {})) && forall n :: n in nodes ==> fresh(n)
    ensures f.body == if nodes == [] then old(f.body)
                      else [Nested(nodes[0])] + (if old(f.body) == [] then [Plain(Empty)] else old(f.body))
  {
    ghost var decls0, rs := p.file.decls, NewRules(rules, {});
    nodes := ApplyFuncRules(p, f, rules);
    NewRulesDistinct(rules, {});
    forall r | r in rs ensures ValidRule(r) { NewRulesCover(rules, {}, r); }
    ChainDeclared(decls0, rs, FuncOf(f));
  }

  function RestsOf(nodes: seq<IfNode>): (rests: seq<seq<Item>>)
    ensures |rests| == |nodes|
  {
    seq(|nodes|, i requires 0 <= i < |nodes| => Rest(nodes, i))
  }

  function Copies(fn: Func, n: nat): (fns: seq<Func>)
    ensures |fns| == n
    ensures forall i :: 0 <= i < n ==> fns[i] == fn
  {
    seq(n, _ => fn)
  }

  method OptimizeChain(p: Phase, f: FuncDecl, nodes: seq<IfNode>, ghost rs: seq<Rule>) returns (ok: bool)
    requires Ready(p, f, nodes, rs)
    modifies p.file, (set n | n in nodes), f`recv, f`params, f`results
    ensures ok <==> forall r :: r in rs ==> HookFound(p.hooks, r)
    ensures ok ==> Optimal(p, f, nodes, rs) && FuncOf(f) == old(FuncOf(f))
  {
    ghost var fn, decls := FuncOf(f), DeclMap(p.file.decls);
    ReadyToOptimize(p, f, nodes, rs);
    ok := OptimizeTJumps(p, Copies(fn, |nodes|), RestsOf(nodes));
    AllFound(p.hooks, p.tjumps, rs);
    if ok { IsOptimal(p, f, nodes, rs, fn, decls); }
  }

  /** Apply the rules and optimize.  When every Before hook is found, the function starts with the
      optimized chain of its rules, and the file declares what that chain calls. */
  method InstrumentFunction(p: Phase, f: FuncDecl, rules: seq<Rule>) returns (ok: bool, nodes: seq<IfNode>)
    requires p.tjumps == [] && p.applied == {} && OnlyOthers(p.file.decls) && ValidRules(rules)
    requires Naming.ValidDecl(f) && Naming.NoClash(Naming.Signature(f)) && NoJumpYet(f.body)
    modifies p, p.file, f
    ensures ok <==> forall r :: r in NewRules(rules, {}) ==> HookFound(p.hooks, r)
    ensures ok ==> Optimal(p, f, nodes, NewRules(rules, {}))
    ensures f.body == if nodes == [] then old(f.body)
                      else [Nested(nodes[0])] + (if old(f.body) == [] then [Plain(Empty)] else old(f.body))
  {
    nodes := ApplyRules(p, f, rules);
    ok := OptimizeChain(p, f, nodes, NewRules(rules, {}));
  }

  lemma {:induction false} AllFound(hooks: map<nat, HL.Hook>, tjumps: seq<TJump>, rs: seq<Rule>)
    requires |tjumps| == |rs| && forall i :: 0 <= i < |rs| ==> tjumps[i].rule == rs[i]
    ensures (forall i :: 0 <= i < |tjumps| ==> HookFound(hooks, tjumps[i].rule)) <==>
            (forall r :: r in rs ==> HookFound(hooks, r))
  {
    if forall r :: r in rs ==> HookFound(hooks, r) {
      forall i | 0 <= i < |tjumps| ensures HookFound(hooks, tjumps[i].rule) { assert rs[i] in rs; }
    }
  }

  lemma {:induction false} ReadyToOptimize(p: Phase, f: FuncDecl, nodes: seq<IfNode>, rs: seq<Rule>)
    requires Ready(p, f, nodes, rs)
    ensures Separate(p.tjumps) && Progress(p.hooks, p.tjumps, Copies(FuncOf(f), |nodes|), RestsOf(nodes), 0)
    ensures forall i :: 0 <= i < |p.tjumps| ==> BothDeclared(DeclMap(p.file.decls), p.tjumps[i])
    ensures forall tj :: tj in p.tjumps ==> tj.ifStmt in nodes && tj.target == f
  {
    ghost var fns, rests := Copies(FuncOf(f), |nodes|), RestsOf(nodes);
    forall i | 0 <= i < |nodes|
      ensures JumpIn(p.hooks, p.tjumps[i], fns[i], rests[i], false) && BothDeclared(DeclMap(p.file.decls), p.tjumps[i])
    {
      JumpReady(p, f, nodes, rs, i);
    }
  }

  lemma {:induction false} JumpReady(p: Phase, f: FuncDecl, nodes: seq<IfNode>, rs: seq<Rule>, i: nat)
    requires Ready(p, f, nodes, rs) && i < |nodes|
    ensures JumpIn(p.hooks, p.tjumps[i], FuncOf(f), Rest(nodes, i), false)
            && BothDeclared(DeclMap(p.file.decls), p.tjumps[i])
  {
    assert JumpAt(nodes, rs, FuncOf(f), AllGenerated(|rs|), i) && LinkAt(nodes, i);
    assert DeclaresJump(DeclMap(p.file.decls), rs[i], FuncOf(f), AllGenerated(|rs|)[i]);
    assert ValidRule(rs[i]);
  }

  lemma {:induction false} IsOptimal(p: Phase, f: FuncDecl, nodes: seq<IfNode>, rs: seq<Rule>, fn: Func, decls: Decls)
    requires |nodes| == |rs| && p.tjumps == JumpsOf(f, nodes, rs) && DistinctIds(rs)
    requires forall i, j :: 0 <= i < j < |nodes| ==> nodes[i] != nodes[j]
    requires Progress(p.hooks, p.tjumps, Copies(fn, |nodes|), RestsOf(nodes), |p.tjumps|)
    requires Declares(decls, rs, AllGenerated(|rs|), fn) && DeclMap(p.file.decls) == decls - DroppedAll(p.tjumps)
    ensures Optimal(p, f, nodes, rs) && (nodes != [] ==> fn == FuncOf(f))
  {
    StillLinked(p, f, nodes, rs, fn);
    if nodes != [] { NeededStay(decls, p.tjumps, p.hooks, rs, fn); }
    ValueIsChain(nodes, rs, FuncOf(f), ModesOf(p.hooks, rs), 0);
    assert rs[0..] == rs && ModesOf(p.hooks, rs)[0..] == ModesOf(p.hooks, rs);
  }

  lemma {:induction false} StillLinked(p: Phase, f: FuncDecl, nodes: seq<IfNode>, rs: seq<Rule>, fn: Func)
    requires |nodes| == |rs| && p.tjumps == JumpsOf(f, nodes, rs)
    requires forall i, j :: 0 <= i < j < |nodes| ==> nodes[i] != nodes[j]
    requires Progress(p.hooks, p.tjumps, Copies(fn, |nodes|), RestsOf(nodes), |p.tjumps|)
    ensures Linked(nodes) && AreJumps(nodes, rs, FuncOf(f), ModesOf(p.hooks, rs)) && (nodes != [] ==> fn == FuncOf(f))
  {
    forall i | 0 <= i < |nodes| ensures LinkAt(nodes, i) && JumpAt(nodes, rs, FuncOf(f), ModesOf(p.hooks, rs), i) {
      assert JumpIn(p.hooks, p.tjumps[i], Copies(fn, |nodes|)[i], RestsOf(nodes)[i], true);
    }
    if nodes != [] { assert JumpIn(p.hooks, p.tjumps[0], Copies(fn, |nodes|)[0], RestsOf(nodes)[0], true); }
  }
}
