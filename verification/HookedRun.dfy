/** Running an instrumented function whose Before hooks are programs of the hook language: here the
    optimizer's flattening needs no assumption about skipping. */
module HookedRun {
  import opened TJumpSemantics
  import opened TJumpChain
  import opened GoAst
  import Instrument
  import Naming
  import Optimize
  import Pipeline
  import HL = HookLang

  /** The memory hooks work on; the skip flags are kept with the contexts of the world. */
  datatype Mem = Mem(store: seq<HL.Value>, globals: HL.Env, data: map<nat, HL.Value>, slots: map<nat, seq<nat>>)

  type Hooks = map<nat, HL.Hook>

  function SkipsOf(ctxs: seq<Ctx>): (r: seq<bool>)
    ensures |r| == |ctxs|
    ensures forall i :: 0 <= i < |ctxs| ==> r[i] == ctxs[i].skip
  {
    seq(|ctxs|, i requires 0 <= i < |ctxs| => ctxs[i].skip)
  }

  function WithSkips(ctxs: seq<Ctx>, skips: seq<bool>): (r: seq<Ctx>)
    requires |skips| == |ctxs|
    ensures |r| == |ctxs|
    ensures SkipsOf(r) == skips
  {
    seq(|ctxs|, i requires 0 <= i < |ctxs| => ctxs[i].(skip := skips[i]))
  }

  function ToState(w: World<Mem>): HL.State {
    HL.State(w.mem.store, w.mem.globals, w.mem.data, w.mem.slots, SkipsOf(w.ctxs))
  }

  function FromState(w: World<Mem>, s: HL.State): World<Mem>
    requires |s.skips| == |w.ctxs|
  {
    w.(mem := Mem(s.store, s.globals, s.data, s.slots), ctxs := WithSkips(w.ctxs, s.skips))
  }

  /** The call compiles: the arguments exist and the hook takes a context and at most all of them. */
  predicate Callable(h: HL.Hook, k: nat, locs: seq<nat>, s: HL.State) {
    k < |s.skips| && |h.params| <= 1 + |locs| && forall i :: 0 <= i < |locs| ==> locs[i] < |s.store|
  }

  /** Point the context at the target's arguments, then call the hook with the context and them. */
  function CallHook(h: HL.Hook, k: nat, locs: seq<nat>, s: HL.State, fuel: nat): (HL.State, bool)
    requires Callable(h, k, locs, s)
  {
    HL.RunHook(h, k, seq(|locs|, i requires 0 <= i < |locs| => s.store[locs[i]]), s.(slots := s.slots[k := locs]), fuel)
  }

  /** The part of a Before trampoline that runs the hook of rule `id` on context number k. */
  function RunOwnHook(hooks: Hooks, locs: (nat, World<Mem>) -> seq<nat>, fuel: nat, id: nat, k: nat,
      w: World<Mem>): (World<Mem>, bool) {
    var s := ToState(w);
    if id !in hooks || !Callable(hooks[id], k, locs(id, w), s) then (w, true)
    else
      var (s1, panicked) := CallHook(hooks[id], k, locs(id, w), s, fuel);
      if |s1.skips| == |w.ctxs| then (FromState(w, s1), panicked) else (w, true)
  }

  /** Everything else about the run stays arbitrary. */
  function WithHooks(env: Env<Mem>, hooks: Hooks, locs: (nat, World<Mem>) -> seq<nat>, fuel: nat): Env<Mem> {
    env.(before := (id: nat, k: nat, w: World<Mem>) => RunOwnHook(hooks, locs, fuel, id, k, w))
  }

  // ---------------------------------------------------------------- the world stays closed

  lemma {:induction false} MoreContexts(v: HL.Value, size: nat, ctxs: nat)
    requires HL.ValueOk(HL.NoWatch, size, ctxs, v)
    ensures HL.ValueOk(HL.NoWatch, size, ctxs + 1, v)
    decreases v
  {
    if v.List? {
      forall i | 0 <= i < |v.elems| ensures HL.ValueOk(HL.NoWatch, size, ctxs + 1, v.elems[i]) {
        MoreContexts(v.elems[i], size, ctxs);
      }
    }
  }

  lemma {:induction false} AllocKeepsClosed(w: World<Mem>, params: seq<string>, named: bool)
    requires HL.Closed(ToState(w))
    ensures ToState(Alloc(w, params, named)) == ToState(w).(skips := ToState(w).skips + [false])
    ensures HL.Closed(ToState(Alloc(w, params, named)))
  {
    var s, s1 := ToState(w), ToState(Alloc(w, params, named));
    assert s1.skips == s.skips + [false];
    forall i | 0 <= i < |s.store| ensures HL.ValueOk(HL.NoWatch, |s.store|, |s1.skips|, s.store[i]) {
      MoreContexts(s.store[i], |s.store|, |s.skips|);
    }
    forall d | d in s.data ensures HL.ValueOk(HL.NoWatch, |s.store|, |s1.skips|, s.data[d]) {
      MoreContexts(s.data[d], |s.store|, |s.skips|);
    }
  }

  lemma {:induction false} HookWorldClosed(hooks: Hooks, locs: (nat, World<Mem>) -> seq<nat>, fuel: nat, id: nat,
      k: nat, w: World<Mem>)
    requires HL.Closed(ToState(w))
    ensures HL.Closed(ToState(RunOwnHook(hooks, locs, fuel, id, k, w).0))
  {
    var s := ToState(w);
    if id in hooks && Callable(hooks[id], k, locs(id, w), s) {
      var ls := locs(id, w);
      var args := seq(|ls|, i requires 0 <= i < |ls| => s.store[ls[i]]);
      HL.HookKeepsClosed(hooks[id], k, args, s.(slots := s.slots[k := ls]), fuel);
    }
  }

  lemma {:induction false} FlatHookNeverSkips(hooks: Hooks, locs: (nat, World<Mem>) -> seq<nat>, fuel: nat, id: nat,
      w: World<Mem>, params: seq<string>)
    requires HL.Closed(ToState(w)) && id in hooks && HL.CanFlatten(hooks[id])
    ensures var (w2, panicked) := RunOwnHook(hooks, locs, fuel, id, |w.ctxs|, Alloc(w, params, true));
            panicked || !SkipSet(w2, |w.ctxs|)
  {
    var k, w1 := |w.ctxs|, Alloc(w, params, true);
    AllocKeepsClosed(w, params, true);
    var s, s1 := ToState(w), ToState(w1);
    var ls := locs(id, w1);
    if Callable(hooks[id], k, ls, s1) {
      var args := seq(|ls|, i requires 0 <= i < |ls| => s1.store[ls[i]]);
      var entry := s.(slots := s.slots[k := ls]);
      assert s1.(slots := s1.slots[k := ls]) == entry.(skips := entry.skips + [false]);
      HL.CanFlattenIsSound(hooks[id], args, entry, fuel);
      var (s2, _) := CallHook(hooks[id], k, ls, s1, fuel);
      assert SkipsOf(FromState(w1, s2).ctxs) == s2.skips;
    }
  }

  // ---------------------------------------------------------------- main result

  /** With hooks that are programs, the world stays closed and flattened hooks do not skip. */
  lemma {:induction false} HooksAreSound(env: Env<Mem>, hooks: Hooks, locs: (nat, World<Mem>) -> seq<nat>, fuel: nat,
      rules: seq<Rule>)
    ensures var e, inv := WithHooks(env, hooks, locs, fuel), (v: World<Mem>) => HL.Closed(ToState(v));
            BeforeKeeps(e, inv) && FlatIsSound(e, rules, Pipeline.ModesOf(hooks, rules), inv)
  {
    var e, modes := WithHooks(env, hooks, locs, fuel), Pipeline.ModesOf(hooks, rules);
    var inv := (v: World<Mem>) => HL.Closed(ToState(v));
    forall v: World<Mem>, params: seq<string>, named: bool | inv(v) ensures inv(Alloc(v, params, named)) {
      AllocKeepsClosed(v, params, named);
    }
    forall id: nat, k: nat, v: World<Mem> | inv(v) && k < |v.ctxs| ensures inv(e.before(id, k, v).0) {
      HookWorldClosed(hooks, locs, fuel, id, k, v);
    }
    forall i | 0 <= i < |rules| && modes[i].flat && rules[i].before != "" ensures NeverSkips(e, rules[i].id, inv) {
      forall v: World<Mem>, params: seq<string> | inv(v)
        ensures var (w2, panicked) := e.before(rules[i].id, |v.ctxs|, Alloc(v, params, true));
                panicked || !SkipSet(w2, |v.ctxs|)
      {
        FlatHookNeverSkips(hooks, locs, fuel, rules[i].id, v, params);
      }
    }
  }

  /** For any hooks, however they use their contexts, and anything else the program may do: the
      optimized function behaves as the generated one. */
  lemma {:induction false} FlatteningIsInvisible(
      env: Env<Mem>, hooks: Hooks, locs: (nat, World<Mem>) -> seq<nat>, fuel: nat,
      fn: Func, before: Decls, after: Decls, rules: seq<Rule>, body: seq<Stmt>, w: World<Mem>)
    requires ValidRules(rules) && UserOnly(body) && HL.Closed(ToState(w))
    requires Declares(before, rules, AllGenerated(|rules|), fn)
             && Declares(after, rules, Pipeline.ModesOf(hooks, rules), fn)
    ensures var e, modes := WithHooks(env, hooks, locs, fuel), Pipeline.ModesOf(hooks, rules);
            RunFunc(e, fn, after, Chain(rules, modes, fn) + body, w, [])
            == RunFunc(e, fn, before, Chain(rules, AllGenerated(|rules|), fn) + body, w, [])
  {
    var inv := (v: World<Mem>) => HL.Closed(ToState(v));
    HooksAreSound(env, hooks, locs, fuel, rules);
    OptimizedRunsAlike(WithHooks(env, hooks, locs, fuel), fn, before, after, rules, Pipeline.ModesOf(hooks, rules),
      body, inv, w);
  }

  // ---------------------------------------------------------------- the edited tree itself

  /** The statements of the edited body: the chain of jumps, then what follows it. */
  ghost function Statements(nodes: seq<IfNode>, body: seq<Stmt>): seq<Stmt>
    requires Instrument.Linked(nodes)
    reads nodes
  {
    Instrument.Value(nodes, 0) + body
  }

  /** Calling the target as the file stands now. */
  ghost function Call(e: Env<Mem>, p: Instrument.Phase, f: FuncDecl, nodes: seq<IfNode>, body: seq<Stmt>,
      w: World<Mem>): Outcome<Mem>
    requires Instrument.Linked(nodes)
    reads p.file, f`recv, f`params, f`results, nodes
  {
    RunFunc(e, Instrument.FuncOf(f), Optimize.DeclMap(p.file.decls), Statements(nodes, body), w, [])
  }

  /** Optimizing the jumps of a function in place changes no call of it: with programs as Before
      hooks and everything else arbitrary, it ends as it did before. */
  method OptimizeChain(
      p: Instrument.Phase, f: FuncDecl, nodes: seq<IfNode>, ghost rs: seq<Rule>, ghost body: seq<Stmt>,
      ghost env: Env<Mem>, ghost locs: (nat, World<Mem>) -> seq<nat>, ghost fuel: nat, ghost w: World<Mem>)
      returns (ok: bool)
    requires Pipeline.Ready(p, f, nodes, rs) && UserOnly(body) && HL.Closed(ToState(w))
    modifies p.file, (set n | n in nodes), f`recv, f`params, f`results
    ensures ok <==> forall r :: r in rs ==> Optimize.HookFound(p.hooks, r)
    ensures ok ==> Pipeline.Optimal(p, f, nodes, rs)
    ensures ok ==>
              (Call(WithHooks(env, p.hooks, locs, fuel), p, f, nodes, body, w)
               == old(Call(WithHooks(env, p.hooks, locs, fuel), p, f, nodes, body, w)))
  {
    ghost var fn, before := Instrument.FuncOf(f), Optimize.DeclMap(p.file.decls);
    Generated(nodes, rs, fn);
    ok := Pipeline.OptimizeChain(p, f, nodes, rs);
    if ok {
      FlatteningIsInvisible(env, p.hooks, locs, fuel, fn, before, Optimize.DeclMap(p.file.decls), rs, body, w);
    }
  }

  lemma {:induction false} Generated(nodes: seq<IfNode>, rs: seq<Rule>, fn: Func)
    requires Instrument.Linked(nodes) && Instrument.AreJumps(nodes, rs, fn, AllGenerated(|rs|))
    ensures Instrument.Value(nodes, 0) == Chain(rs, AllGenerated(|rs|), fn)
  {
    Instrument.ValueIsChain(nodes, rs, fn, AllGenerated(|rs|), 0);
    assert rs[0..] == rs && AllGenerated(|rs|)[0..] == AllGenerated(|rs|);
  }

  /** The target's own statements, as a tree and as they are run. */
  predicate IsBody(items: seq<Item>) {
    forall i :: 0 <= i < |items| ==> items[i].Plain? && (items[i].s.User? || items[i].s.Empty?)
  }

  function StmtsOf(items: seq<Item>): (body: seq<Stmt>)
    requires IsBody(items)
    ensures UserOnly(body)
  {
    seq(|items|, i requires 0 <= i < |items| => items[i].s)
  }

  /** The whole tool on one function: apply the rules, optimize, and call the result.  The call is
      the advice of the new rules, nested in order, around the target's own statements. */
  method InstrumentFunction(
      p: Instrument.Phase, f: FuncDecl, rules: seq<Rule>,
      ghost env: Env<Mem>, ghost locs: (nat, World<Mem>) -> seq<nat>, ghost fuel: nat, ghost w: World<Mem>)
      returns (ok: bool, nodes: seq<IfNode>)
    requires p.tjumps == [] && p.applied == {} && Pipeline.OnlyOthers(p.file.decls) && ValidRules(rules)
    requires Naming.ValidDecl(f) && Naming.NoClash(Naming.Signature(f)) && IsBody(f.body) && HL.Closed(ToState(w))
    modifies p, p.file, f
    ensures ok <==> forall r :: r in Instrument.NewRules(rules, {}) ==> r.before == "" || r.id in p.hooks
    ensures f.body == (if nodes == [] then [] else [Nested(nodes[0])]) + Padded(old(f.body), nodes != [])
    ensures ok ==> Instrument.Linked(nodes)
    ensures ok ==>
              (Call(WithHooks(env, p.hooks, locs, fuel), p, f, nodes, StmtsOf(Padded(old(f.body), nodes != [])), w)
               == Advice(WithHooks(env, p.hooks, locs, fuel), Instrument.FuncOf(f), Instrument.NewRules(rules, {}),
                         StmtsOf(Padded(old(f.body), nodes != [])), w, []))
  {
    ok, nodes := Pipeline.InstrumentFunction(p, f, rules);
    if ok {
      ghost var rs := Instrument.NewRules(rules, {});
      forall r | r in rs ensures ValidRule(r) { Instrument.NewRulesCover(rules, {}, r); }
      HooksAreSound(env, p.hooks, locs, fuel, rs);
      ChainIsAdvice(WithHooks(env, p.hooks, locs, fuel), Instrument.FuncOf(f), Optimize.DeclMap(p.file.decls), rs,
                    Pipeline.ModesOf(p.hooks, rs), StmtsOf(Padded(old(f.body), nodes != [])),
                    (v: World<Mem>) => HL.Closed(ToState(v)), w);
    }
  }

  /** An empty body gets an empty statement before a jump goes in front of it. */
  function Padded(items: seq<Item>, jumps: bool): (r: seq<Item>)
    ensures IsBody(items) ==> IsBody(r)
  {
    if jumps && items == [] then [Plain(Empty)] else items
  }
}
