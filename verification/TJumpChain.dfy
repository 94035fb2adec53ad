/** The chain of trampoline jumps at the entry of a target, in its generated and in its
    optimized form, and the proof that both run as nested advice around the target's body.
 */
module TJumpChain {
  import opened TJumpSemantics

  // ---------------------------------------------------------------- the two forms of one jump

  /** How one jump of the chain looks: as generated, or after the optimizer, which flattens it
      when `flat` says that its Before hook cannot request a skip. */
  datatype Mode = Generated | Optimized(flat: bool)

  function BeforeOf(r: Rule, fn: Func): Call {
    BeforeCall(MakeName(r, fn.name, true), fn.args)
  }

  function AfterOf(r: Rule, fn: Func, ctx: CtxArg): Call {
    AfterCall(MakeName(r, fn.name, false), ctx, fn.rets)
  }

  function JumpInit(r: Rule, fn: Func, mode: Mode): Init {
    var full := Define(CtxName(r.id), SkipName(r.id), BeforeOf(r, fn));
    if mode.Generated? then full
    else if r.before == "" then NoInit
    else if r.after == "" then
      if mode.flat then Discard(BeforeOf(r, fn)) else full.(ctx := Blank)
    else
      if mode.flat then full.(skip := Blank) else full
  }

  predicate CondDropped(r: Rule, mode: Mode) {
    mode.Optimized? && (r.before == "" || mode.flat)
  }

  function JumpCond(r: Rule, mode: Mode): Cond {
    if CondDropped(r, mode) then False else NameCond(SkipName(r.id))
  }

  function JumpBody(r: Rule, fn: Func, mode: Mode): seq<Stmt> {
    if CondDropped(r, mode) then [Empty]
    else
      [if mode.Optimized? && r.after == "" then Empty else ExprStmt(AfterOf(r, fn, CtxVar(CtxName(r.id)))),
       ReturnStmt(fn.rets)]
  }

  function JumpDefer(r: Rule, fn: Func, mode: Mode): Stmt {
    if mode.Generated? then DeferStmt(AfterOf(r, fn, CtxVar(CtxName(r.id))))
    else if r.after == "" then Empty
    else if r.before == "" then DeferStmt(AfterOf(r, fn, CtxLit(fn.args, fn.rets)))
    else DeferStmt(AfterOf(r, fn, CtxVar(CtxName(r.id))))
  }

  /** The else-block: the deferred After call, then, once another rule applies, `;` and its jump. */
  function JumpElse(r: Rule, fn: Func, mode: Mode, inner: seq<Stmt>): seq<Stmt> {
    [JumpDefer(r, fn, mode)] + (if inner == [] then [] else [Empty] + inner)
  }

  function Jump(r: Rule, fn: Func, mode: Mode, inner: seq<Stmt>): Stmt {
    IfStmt(mode.Generated?, JumpInit(r, fn, mode), JumpCond(r, mode), JumpBody(r, fn, mode),
      JumpElse(r, fn, mode, inner))
  }

  /** The right-nested chain; empty when there is no rule, else a single statement. */
  function Chain(rules: seq<Rule>, modes: seq<Mode>, fn: Func): (r: seq<Stmt>)
    requires |rules| == |modes|
    ensures |r| == (if rules == [] then 0 else 1)
  {
    if rules == [] then [] else [Jump(rules[0], fn, modes[0], Chain(rules[1..], modes[1..], fn))]
  }

  function AllGenerated(n: nat): (ms: seq<Mode>)
    ensures |ms| == n
    ensures forall i :: 0 <= i < n ==> ms[i] == Generated
  {
    seq(n, _ => Generated)
  }

  /** What the validation of a rule guarantees. */
  predicate ValidRule(r: Rule) {
    r.before != "" || r.after != ""
  }

  predicate ValidRules(rules: seq<Rule>) {
    forall r :: r in rules ==> ValidRule(r)
  }

  /** Every trampoline a jump still calls is declared, and hooked exactly when its rule names a hook. */
  predicate DeclaresJump(decls: Decls, r: Rule, fn: Func, mode: Mode) {
    var b := MakeName(r, fn.name, true);
    var a := MakeName(r, fn.name, false);
    && ((mode.Optimized? && r.before == "") || (b in decls && decls[b] == (r.before != "")))
    && ((mode.Optimized? && r.after == "") || (a in decls && decls[a] == (r.after != "")))
  }

  predicate Declares(decls: Decls, rules: seq<Rule>, modes: seq<Mode>, fn: Func)
    requires |rules| == |modes|
  {
    forall i :: 0 <= i < |rules| ==> DeclaresJump(decls, rules[i], fn, modes[i])
  }

  // ---------------------------------------------------------------- the reference: nested advice

  function Body<M(!new)>(env: Env<M>, fn: Func, body: seq<Stmt>, w: World<M>, trace: seq<Event>): Outcome<M> {
    RunFunc(env, fn, map[], body, w, trace)
  }

  /** What n rules on one function mean: Before of the first, then everything inside unless it
      asks to skip, then After of the first, whatever happened inside. */
  function Advice<M(!new)>(env: Env<M>, fn: Func, rules: seq<Rule>, body: seq<Stmt>, w: World<M>,
      trace: seq<Event>): Outcome<M> {
    if rules == [] then Body(env, fn, body, w, trace)
    else
      var r := rules[0];
      var b := RunBefore(env, MakeName(r, fn.name, true), r.before != "", fn.args, w, trace);
      var inner := if b.skip then Done(b.w, b.trace, false) else Advice(env, fn, rules[1..], body, b.w, b.trace);
      AfterAdvice(env, fn, r, b.ctx, inner)
  }

  function AfterAdvice<M(!new)>(env: Env<M>, fn: Func, r: Rule, ctx: nat, inner: Outcome<M>): Outcome<M> {
    if inner.Wrong? then Wrong
    else
      var (w, tr) := RunAfter(env, MakeName(r, fn.name, false), r.after != "", ctx, fn.rets, inner.w, inner.trace);
      Done(w, tr, inner.panicking)
  }

  // ---------------------------------------------------------------- assumptions on hooks and body

  /** The target's own body: any statements, none of them a generated one. */
  predicate UserOnly(body: seq<Stmt>) {
    forall s :: s in body ==> s.User? || s.Empty?
  }

  /** `inv` holds of every world a Before trampoline can leave. */
  ghost predicate BeforeKeeps<M(!new)>(env: Env<M>, inv: World<M> -> bool) {
    && (forall w: World<M>, params: seq<string>, named: bool :: inv(w) ==> inv(Alloc(w, params, named)))
    && (forall id: nat, k: nat, w: World<M> {:trigger env.before(id, k, w)} :: inv(w) && k < |w.ctxs| ==>
      inv(env.before(id, k, w).0))
  }

  /** A flattened rule's Before hook, called on a context just built, never returns with skip set. */
  ghost predicate NeverSkips<M(!new)>(env: Env<M>, id: nat, inv: World<M> -> bool) {
    forall w: World<M>, params {:trigger Alloc(w, params, true)} ::
      inv(w) ==>
        var (w2, panicked) := env.before(id, |w.ctxs|, Alloc(w, params, true));
        panicked || !SkipSet(w2, |w.ctxs|)
  }

  ghost predicate FlatIsSound<M(!new)>(env: Env<M>, rules: seq<Rule>, modes: seq<Mode>, inv: World<M> -> bool)
    requires |rules| == |modes|
  {
    forall i :: 0 <= i < |rules| && modes[i].Optimized? && modes[i].flat && rules[i].before != "" ==>
      NeverSkips(env, rules[i].id, inv)
  }

  // ---------------------------------------------------------------- the body does not see the chain

  lemma {:induction false} BodyFrame<M(!new)>(env: Env<M>, fn: Func, decls: Decls, body: seq<Stmt>, m: Machine<M>,
      base: seq<Pending>, mine: seq<Pending>)
    requires UserOnly(body)
    requires m.defers == base + mine
    ensures var (m1, f1) := ExecList(env, fn, decls, body, m);
            var (m2, f2) := ExecList(env, fn, map[], body, Machine(m.w, m.trace, map[], map[], mine));
            f1 == f2 && m1.w == m2.w && m1.trace == m2.trace && m1.defers == base + m2.defers
            && forall d :: d in m2.defers && d !in mine ==> d.PendingUser?
    decreases |body|
  {
    if body != [] {
      var m' := Machine(m.w, m.trace, map[], map[], mine);
      var (m1, f1) := ExecStmt(env, fn, decls, body[0], m);
      var (m2, f2) := ExecStmt(env, fn, map[], body[0], m');
      assert m1.defers == base + m2.defers;
      if f1 == Next {
        BodyFrame(env, fn, decls, body[1..], m1, base, m2.defers);
        assert Machine(m1.w, m1.trace, map[], map[], m2.defers) == m2;
      }
    }
  }

  lemma {:induction false} UserDefersIgnoreDecls<M(!new)>(env: Env<M>, decls: Decls, ds: seq<Pending>, w: World<M>,
      trace: seq<Event>, p: bool)
    requires forall d :: d in ds ==> d.PendingUser?
    ensures RunDefers(env, decls, ds, w, trace, p) == RunDefers(env, map[], ds, w, trace, p)
    decreases |ds|
  {
    if ds != [] {
      var (w1, p1) := env.deferred(ds[|ds| - 1].uid, w, p);
      UserDefersIgnoreDecls(env, decls, ds[..|ds| - 1], w1, trace + [Deferred(ds[|ds| - 1].uid)], p1);
    }
  }

  /** Running `o` and then the calls deferred earlier. */
  function ThenDefers<M(!new)>(env: Env<M>, decls: Decls, o: Outcome<M>, ds: seq<Pending>): Outcome<M> {
    if o.Wrong? then Wrong else RunDefers(env, decls, ds, o.w, o.trace, o.panicking)
  }

  lemma BodyInPlace<M(!new)>(env: Env<M>, fn: Func, decls: Decls, body: seq<Stmt>, m: Machine<M>)
    requires UserOnly(body)
    ensures Finish(env, decls, ExecList(env, fn, decls, body, m))
         == ThenDefers(env, decls, Body(env, fn, body, m.w, m.trace), m.defers)
  {
    assert m.defers == m.defers + [];
    BodyFrame(env, fn, decls, body, m, m.defers, []);
    var (m2, f) := ExecList(env, fn, map[], body, Machine(m.w, m.trace, map[], map[], []));
    if f != Stuck {
      RunDefersSplit(env, decls, m.defers, m2.defers, m2.w, m2.trace, f == Panicked);
      UserDefersIgnoreDecls(env, decls, m2.defers, m2.w, m2.trace, f == Panicked);
    }
  }

  // ---------------------------------------------------------------- one jump

  /** Execute the chain and, when it falls through, the body after it. */
  function Continue<M(!new)>(env: Env<M>, fn: Func, decls: Decls, body: seq<Stmt>, mf: (Machine<M>, Flow)): Outcome<M> {
    Finish(env, decls, if mf.1 == Next then ExecList(env, fn, decls, body, mf.0) else mf)
  }

  /** The machine on entry to the inner chain of a jump that does not skip. */
  function Entered<M(!new)>(env: Env<M>, fn: Func, r: Rule, mode: Mode, m: Machine<M>): Machine<M> {
    var b := RunBefore(env, MakeName(r, fn.name, true), r.before != "", fn.args, m.w, m.trace);
    var drop := mode.Optimized? && r.before == "";
    var noCtx := drop || (mode.Optimized? && r.after == "");
    var noSkip := drop || CondDropped(r, mode);
    Machine(b.w, b.trace,
      if noCtx then m.ctxVars else m.ctxVars[CtxName(r.id) := b.ctx],
      if noSkip then m.skipVars else m.skipVars[SkipName(r.id) := b.skip],
      m.defers + (if mode.Optimized? && r.after == "" then []
        else [PendingAfter(MakeName(r, fn.name, false), b.ctx, fn.rets)]))
  }

  lemma JumpSkips<M(!new)>(env: Env<M>, fn: Func, decls: Decls, r: Rule, mode: Mode, inner: seq<Stmt>, m: Machine<M>)
    requires DeclaresJump(decls, r, fn, mode) && !CondDropped(r, mode)
    requires RunBefore(env, MakeName(r, fn.name, true), r.before != "", fn.args, m.w, m.trace).skip
    ensures var b := RunBefore(env, MakeName(r, fn.name, true), r.before != "", fn.args, m.w, m.trace);
            var (w, tr) := RunAfter(env, MakeName(r, fn.name, false), r.after != "", b.ctx, fn.rets, b.w, b.trace);
            var (m1, f) := ExecStmt(env, fn, decls, Jump(r, fn, mode, inner), m);
            f == Returned && m1.w == w && m1.trace == tr && m1.defers == m.defers
  {
    var body := JumpBody(r, fn, mode);
    var (m1, f1) := ExecInit(env, decls, JumpInit(r, fn, mode), m);
    var (m2, f2) := ExecStmt(env, fn, decls, body[0], m1);
    assert body[1..] == [ReturnStmt(fn.rets)];
    ReturnKeepsResults(m2.w.results, fn.rets);
    assert ExecList(env, fn, decls, body[1..], m2) == ExecStmt(env, fn, decls, ReturnStmt(fn.rets), m2);
    assert ExecList(env, fn, decls, body, m1) == ExecList(env, fn, decls, body[1..], m2);
  }

  lemma JumpEnters<M(!new)>(env: Env<M>, fn: Func, decls: Decls, r: Rule, mode: Mode, inner: seq<Stmt>, m: Machine<M>)
    requires DeclaresJump(decls, r, fn, mode) && ValidRule(r)
    requires !RunBefore(env, MakeName(r, fn.name, true), r.before != "", fn.args, m.w, m.trace).skip
    ensures ExecStmt(env, fn, decls, Jump(r, fn, mode, inner), m)
            == ExecList(env, fn, decls, inner, Entered(env, fn, r, mode, m))
  {
    var els := JumpElse(r, fn, mode, inner);
    var (m1, f1) := ExecInit(env, decls, JumpInit(r, fn, mode), m);
    assert f1 == Next;
    assert ExecStmt(env, fn, decls, Jump(r, fn, mode, inner), m) == ExecList(env, fn, decls, els, m1);
    var (m2, f2) := ExecStmt(env, fn, decls, els[0], m1);
    assert f2 == Next && m2 == Entered(env, fn, r, mode, m);
    assert ExecList(env, fn, decls, els, m1) == ExecList(env, fn, decls, els[1..], m2);
    if inner == [] {
      assert els[1..] == [];
    } else {
      assert els[1..] == [Empty] + inner;
      assert els[1..][1..] == inner;
      assert els[1..][0] == Empty;
      assert ExecList(env, fn, decls, els[1..], m2) == ExecList(env, fn, decls, els[1..][1..], m2);
    }
  }

  // ---------------------------------------------------------------- the whole chain

  lemma {:induction false} ChainRuns<M(!new)>(
      env: Env<M>, fn: Func, decls: Decls, rules: seq<Rule>, modes: seq<Mode>, body: seq<Stmt>, inv: World<M> -> bool,
      m: Machine<M>)
    requires |rules| == |modes| && ValidRules(rules) && Declares(decls, rules, modes, fn) && UserOnly(body)
    requires BeforeKeeps(env, inv) && FlatIsSound(env, rules, modes, inv) && inv(m.w)
    ensures Continue(env, fn, decls, body, ExecList(env, fn, decls, Chain(rules, modes, fn), m))
         == ThenDefers(env, decls, Advice(env, fn, rules, body, m.w, m.trace), m.defers)
    decreases |rules|
  {
    if rules == [] {
      BodyInPlace(env, fn, decls, body, m);
    } else {
      var r, mode := rules[0], modes[0];
      var inner := Chain(rules[1..], modes[1..], fn);
      var chain := Chain(rules, modes, fn);
      var b := RunBefore(env, MakeName(r, fn.name, true), r.before != "", fn.args, m.w, m.trace);
      assert DeclaresJump(decls, rules[0], fn, modes[0]);
      assert chain[1..] == [];
      SingleStatement(env, fn, decls, Jump(r, fn, mode, inner), m);
      if CondDropped(r, mode) {
        assert r.before != "" ==> NeverSkips(env, rules[0].id, inv);
        DroppedNeverSkips(env, fn, r, mode, inv, m.w, m.trace);
      }
      if b.skip {
        JumpSkips(env, fn, decls, r, mode, inner, m);
      } else {
        JumpEnters(env, fn, decls, r, mode, inner, m);
        var m2 := Entered(env, fn, r, mode, m);
        assert Declares(decls, rules[1..], modes[1..], fn) by {
          forall i | 0 <= i < |rules| - 1 ensures DeclaresJump(decls, rules[1..][i], fn, modes[1..][i]) {
            assert DeclaresJump(decls, rules[i + 1], fn, modes[i + 1]);
          }
        }
        assert FlatIsSound(env, rules[1..], modes[1..], inv) by {
          forall i | 0 <= i < |rules| - 1 && modes[1..][i].Optimized? && modes[1..][i].flat
            && rules[1..][i].before != ""
            ensures NeverSkips(env, rules[1..][i].id, inv)
          {
            assert rules[1..][i] == rules[i + 1] && modes[1..][i] == modes[i + 1];
          }
        }
        ChainRuns(env, fn, decls, rules[1..], modes[1..], body, inv, m2);
        PopAfter(env, fn, decls, r, mode, b.ctx, Advice(env, fn, rules[1..], body, b.w, b.trace), m.defers);
      }
    }
  }

  lemma DroppedNeverSkips<M(!new)>(env: Env<M>, fn: Func, r: Rule, mode: Mode, inv: World<M> -> bool, w: World<M>,
      trace: seq<Event>)
    requires CondDropped(r, mode) && inv(w) && (r.before != "" ==> NeverSkips(env, r.id, inv))
    ensures !RunBefore(env, MakeName(r, fn.name, true), r.before != "", fn.args, w, trace).skip
  {
    var w1 := Alloc(w, fn.args, true);
    var (w2, panicked) := env.before(r.id, |w.ctxs|, w1);
    assert r.before != "" ==> panicked || !SkipSet(w2, |w.ctxs|);
  }

  lemma SingleStatement<M(!new)>(env: Env<M>, fn: Func, decls: Decls, s: Stmt, m: Machine<M>)
    ensures ExecList(env, fn, decls, [s], m) == ExecStmt(env, fn, decls, s, m)
  {
    assert [s][1..] == [];
  }

  lemma PopAfter<M(!new)>(env: Env<M>, fn: Func, decls: Decls, r: Rule, mode: Mode, ctx: nat, inner: Outcome<M>,
      ds: seq<Pending>)
    requires DeclaresJump(decls, r, fn, mode)
    ensures var mine := if mode.Optimized? && r.after == "" then []
            else [PendingAfter(MakeName(r, fn.name, false), ctx, fn.rets)];
            ThenDefers(env, decls, inner, ds + mine) == ThenDefers(env, decls, AfterAdvice(env, fn, r, ctx, inner), ds)
  {
    if mode.Optimized? && r.after == "" {
      assert ds + [] == ds;
    } else {
      var all := ds + [PendingAfter(MakeName(r, fn.name, false), ctx, fn.rets)];
      assert all[..|all| - 1] == ds;
    }
  }

  // ---------------------------------------------------------------- main results

  /** Any mixture of generated and optimized jumps runs as nested advice. */
  lemma ChainIsAdvice<M(!new)>(
      env: Env<M>, fn: Func, decls: Decls, rules: seq<Rule>, modes: seq<Mode>, body: seq<Stmt>, inv: World<M> -> bool,
      w: World<M>)
    requires |rules| == |modes| && ValidRules(rules) && Declares(decls, rules, modes, fn) && UserOnly(body)
    requires BeforeKeeps(env, inv) && FlatIsSound(env, rules, modes, inv) && inv(w)
    ensures RunFunc(env, fn, decls, Chain(rules, modes, fn) + body, w, []) == Advice(env, fn, rules, body, w, [])
  {
    var m := Machine(w, [], map[], map[], []);
    ChainRuns(env, fn, decls, rules, modes, body, inv, m);
    ExecAppend(env, fn, decls, Chain(rules, modes, fn), body, m);
    var o := Advice(env, fn, rules, body, w, []);
    assert ThenDefers(env, decls, o, []) == o;
  }

  lemma {:induction false} ExecAppend<M(!new)>(env: Env<M>, fn: Func, decls: Decls, a: seq<Stmt>, b: seq<Stmt>,
      m: Machine<M>)
    ensures var (m1, f) := ExecList(env, fn, decls, a, m);
            ExecList(env, fn, decls, a + b, m) == if f == Next then ExecList(env, fn, decls, b, m1) else (m1, f)
    decreases |a|
  {
    if a == [] {
      assert a + b == b;
    } else {
      assert (a + b)[1..] == a[1..] + b;
      var (m1, f) := ExecStmt(env, fn, decls, a[0], m);
      if f == Next { ExecAppend(env, fn, decls, a[1..], b, m1); }
    }
  }

  /** The optimizer changes neither the trace of hooks, nor the final state and results, nor
      whether the call returns or panics. */
  lemma OptimizedRunsAlike<M(!new)>(
      env: Env<M>, fn: Func, before: Decls, after: Decls, rules: seq<Rule>, modes: seq<Mode>, body: seq<Stmt>,
      inv: World<M> -> bool, w: World<M>)
    requires |rules| == |modes| && ValidRules(rules) && UserOnly(body)
    requires Declares(before, rules, AllGenerated(|rules|), fn) && Declares(after, rules, modes, fn)
    requires BeforeKeeps(env, inv) && FlatIsSound(env, rules, modes, inv) && inv(w)
    ensures RunFunc(env, fn, after, Chain(rules, modes, fn) + body, w, [])
         == RunFunc(env, fn, before, Chain(rules, AllGenerated(|rules|), fn) + body, w, [])
  {
    ChainIsAdvice(env, fn, after, rules, modes, body, inv, w);
    ChainIsAdvice(env, fn, before, rules, AllGenerated(|rules|), body, inv, w);
  }
}
