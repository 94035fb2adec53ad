/** Trampoline jumps: the statement forms the instrumenter writes at the entry of a target
    function, and what running them does.

    The semantics follows the sections "Defer statements" and "Handling panics" of the Go
    specification: deferred calls run last-in first-out when the function returns or panics,
    and their arguments are evaluated when the `defer` statement runs.  A trampoline recovers
    the panics of its own hook, and only those.
 */
module TJumpSemantics {

  /** `id` is the content-derived identity of the rule; an empty hook name means "no hook". */
  datatype Rule = Rule(id: nat, before: string, after: string)

  /** The instrumented function: its name and the names of its arguments and results. */
  datatype Func = Func(name: string, args: seq<string>, rets: seq<string>)

  // ---------------------------------------------------------------- syntax

  datatype TrampName = TrampName(isBefore: bool, fn: string, id: nat)

  datatype Name = CtxName(id: nat) | SkipName(id: nat) | Blank

  /** The context handed to the After trampoline: a variable, or a literal built on the spot. */
  datatype CtxArg = CtxVar(name: Name) | CtxLit(params: seq<string>, returnVals: seq<string>)

  datatype Call =
    | BeforeCall(tramp: TrampName, args: seq<string>)
    | AfterCall(tramp: TrampName, ctx: CtxArg, rets: seq<string>)

  datatype Init = NoInit | Define(ctx: Name, skip: Name, call: Call) | Discard(call: Call)

  datatype Cond = NameCond(name: Name) | False

  datatype Stmt =
    | Empty
    | ExprStmt(call: Call)
    | DeferStmt(call: Call)
    | ReturnStmt(results: seq<string>)
    | User(uid: nat)  // any statement of the target function itself
    | IfStmt(labelled: bool, init: Init, cond: Cond, body: seq<Stmt>, els: seq<Stmt>)

  function MakeName(r: Rule, fn: string, isBefore: bool): TrampName {
    TrampName(isBefore, fn, r.id)
  }

  // ---------------------------------------------------------------- state

  /** A hook context.  `data` stands for whatever the hooks store in it. */
  datatype Ctx = Ctx(params: seq<string>, named: bool, skip: bool, data: int)

  /** `mem` is all the program state the hooks and the target can touch besides the results. */
  datatype World<M> = World(mem: M, results: map<string, int>, ctxs: seq<Ctx>)

  datatype Event = BeforeHook(id: nat, ran: bool) | AfterHook(id: nat, ran: bool) | Stmt(uid: nat) | Deferred(uid: nat)

  datatype Flow = Next | Returned | Panicked | Stuck

  datatype Pending = PendingAfter(tramp: TrampName, ctx: nat, rets: seq<string>) | PendingUser(uid: nat)

  datatype UserStep<M> = UserStep(w: World<M>, flow: Flow, defers: seq<nat>)

  /** What the hooks and the target do.  Every field is an arbitrary function.
      - `guard`: is the hook linked in and not suppressed right now
      - `before`, `after`: run a hook on context number k; the flag says that it panicked
      - `user`: run a statement of the target; it may register deferred calls
      - `deferred`: run such a call; in and out flags say whether a panic is in flight */
  datatype Env<!M(!new)> = Env(
    guard: (TrampName, World<M>) -> bool,
    before: (nat, nat, World<M>) -> (World<M>, bool),
    after: (nat, nat, seq<string>, World<M>) -> (World<M>, bool),
    user: (nat, World<M>) -> UserStep<M>,
    deferred: (nat, World<M>, bool) -> (World<M>, bool))

  datatype Machine<M> = Machine(
    w: World<M>, trace: seq<Event>, ctxVars: map<Name, nat>, skipVars: map<Name, bool>, defers: seq<Pending>)

  /** The outcome of a whole call of the target. */
  datatype Outcome<M> = Done(w: World<M>, trace: seq<Event>, panicking: bool) | Wrong

  // ---------------------------------------------------------------- trampolines

  function Alloc<M>(w: World<M>, params: seq<string>, named: bool): World<M> {
    w.(ctxs := w.ctxs + [Ctx(params, named, false, 0)])
  }

  predicate SkipSet<M>(w: World<M>, k: nat) {
    k < |w.ctxs| && w.ctxs[k].skip
  }

  datatype BeforeResult<M> = BeforeResult(w: World<M>, trace: seq<Event>, ctx: nat, skip: bool)

  /** The Before trampoline: build a context, run the hook under the guard, recover its panic.
      The second result is only assigned by the final `return`, so a panicking hook never skips. */
  function RunBefore<M(!new)>(env: Env<M>, t: TrampName, hooked: bool, args: seq<string>, w: World<M>,
      trace: seq<Event>)
    : BeforeResult<M>
  {
    var k := |w.ctxs|;
    var w1 := Alloc(w, args, hooked);
    if !hooked then BeforeResult(w1, trace, k, false)
    else if !env.guard(t, w1) then BeforeResult(w1, trace + [BeforeHook(t.id, false)], k, false)
    else
      var (w2, panicked) := env.before(t.id, k, w1);
      BeforeResult(w2, trace + [BeforeHook(t.id, true)], k, !panicked && SkipSet(w2, k))
  }

  /** The After trampoline: run the hook under the guard and recover its panic. */
  function RunAfter<M(!new)>(env: Env<M>, t: TrampName, hooked: bool, ctx: nat, rets: seq<string>, w: World<M>,
      trace: seq<Event>)
    : (World<M>, seq<Event>)
  {
    if !hooked then (w, trace)
    else if !env.guard(t, w) then (w, trace + [AfterHook(t.id, false)])
    else (env.after(t.id, ctx, rets, w).0, trace + [AfterHook(t.id, true)])
  }

  // ---------------------------------------------------------------- statements

  /** The trampolines declared in the file; the flag says whether the body calls a hook. */
  type Decls = map<TrampName, bool>

  function IndexOf(xs: seq<string>, x: string): (i: nat)
    ensures i <= |xs|
    ensures i < |xs| ==> xs[i] == x
    ensures x in xs ==> i < |xs|
  {
    if xs == [] then 0 else if xs[0] == x then 0 else 1 + IndexOf(xs[1..], x)
  }

  /** `return a, b`: the i-th declared result receives the value of the i-th operand. */
  function AssignResults(results: map<string, int>, declared: seq<string>, operands: seq<string>): map<string, int> {
    map n | n in results ::
      var i := IndexOf(declared, n);
      if i < |declared| && i < |operands| && operands[i] in results then results[operands[i]] else results[n]
  }

  lemma ReturnKeepsResults(results: map<string, int>, declared: seq<string>)
    ensures AssignResults(results, declared, declared) == results
  {
  }

  function ExecCall<M(!new)>(env: Env<M>, decls: Decls, call: Call, m: Machine<M>): (Machine<M>, Flow) {
    if call.tramp !in decls then (m, Stuck)
    else match call
      case BeforeCall(t, args) =>
        var b := RunBefore(env, t, decls[t], args, m.w, m.trace);
        (m.(w := b.w, trace := b.trace), Next)
      case AfterCall(t, ctx, rets) =>
        match ctx
        case CtxVar(n) =>
          if n !in m.ctxVars then (m, Stuck)
          else
            var (w, tr) := RunAfter(env, t, decls[t], m.ctxVars[n], rets, m.w, m.trace);
            (m.(w := w, trace := tr), Next)
        case CtxLit(params, _) =>
          var (w, tr) := RunAfter(env, t, decls[t], |m.w.ctxs|, rets, Alloc(m.w, params, false), m.trace);
          (m.(w := w, trace := tr), Next)
  }

  function ExecDefer<M(!new)>(decls: Decls, call: Call, m: Machine<M>): (Machine<M>, Flow) {
    if call.tramp !in decls || call.BeforeCall? then (m, Stuck)
    else match call.ctx
      case CtxVar(n) =>
        if n !in m.ctxVars then (m, Stuck)
        else (m.(defers := m.defers + [PendingAfter(call.tramp, m.ctxVars[n], call.rets)]), Next)
      case CtxLit(params, _) =>
        (m.(w := Alloc(m.w, params, false), defers := m.defers
          + [PendingAfter(call.tramp, |m.w.ctxs|, call.rets)]), Next)
  }

  function ExecInit<M(!new)>(env: Env<M>, decls: Decls, init: Init, m: Machine<M>): (Machine<M>, Flow) {
    match init
    case NoInit => (m, Next)
    case Discard(call) => ExecCall(env, decls, call, m)
    case Define(ctx, skip, call) =>
      if call.AfterCall? || call.tramp !in decls then (m, Stuck)
      else
        var b := RunBefore(env, call.tramp, decls[call.tramp], call.args, m.w, m.trace);
        (Machine(b.w, b.trace,
                 if ctx.Blank? then m.ctxVars else m.ctxVars[ctx := b.ctx],
                 if skip.Blank? then m.skipVars else m.skipVars[skip := b.skip],
                 m.defers), Next)
  }

  function ExecStmt<M(!new)>(env: Env<M>, fn: Func, decls: Decls, s: Stmt, m: Machine<M>): (Machine<M>, Flow)
    decreases s, 1
  {
    match s
    case Empty => (m, Next)
    case ExprStmt(call) => ExecCall(env, decls, call, m)
    case DeferStmt(call) => ExecDefer(decls, call, m)
    case ReturnStmt(operands) =>
      (m.(w := m.w.(results := AssignResults(m.w.results, fn.rets, operands))), Returned)
    case User(uid) =>
      var u := env.user(uid, m.w);
      (m.(w := u.w, trace := m.trace + [Event.Stmt(uid)], defers := m.defers + PendingUsers(u.defers)), u.flow)
    case IfStmt(_, init, cond, body, els) =>
      var (m1, f) := ExecInit(env, decls, init, m);
      if f != Next then (m1, f)
      else match cond
        case False => ExecList(env, fn, decls, els, m1)
        case NameCond(n) =>
          if n !in m1.skipVars then (m1, Stuck)
          else if m1.skipVars[n] then ExecList(env, fn, decls, body, m1)
          else ExecList(env, fn, decls, els, m1)
  }

  function ExecList<M(!new)>(env: Env<M>, fn: Func, decls: Decls, ss: seq<Stmt>, m: Machine<M>): (Machine<M>, Flow)
    decreases ss, 0
  {
    if ss == [] then (m, Next)
    else
      var (m1, f) := ExecStmt(env, fn, decls, ss[0], m);
      if f != Next then (m1, f) else ExecList(env, fn, decls, ss[1..], m1)
  }

  function PendingUsers(ids: seq<nat>): seq<Pending> {
    seq(|ids|, i requires 0 <= i < |ids| => PendingUser(ids[i]))
  }

  /** Deferred calls run last-in first-out, whether or not a panic is in flight. */
  function RunDefers<M(!new)>(env: Env<M>, decls: Decls, ds: seq<Pending>, w: World<M>, trace: seq<Event>,
      panicking: bool): Outcome<M>
    decreases |ds|
  {
    if ds == [] then Done(w, trace, panicking)
    else
      var d := ds[|ds| - 1];
      var rest := ds[..|ds| - 1];
      match d
      case PendingUser(uid) =>
        var (w1, p1) := env.deferred(uid, w, panicking);
        RunDefers(env, decls, rest, w1, trace + [Deferred(uid)], p1)
      case PendingAfter(t, k, rets) =>
        if t !in decls then Wrong
        else
          var (w1, tr1) := RunAfter(env, t, decls[t], k, rets, w, trace);
          RunDefers(env, decls, rest, w1, tr1, panicking)
  }

  function Finish<M(!new)>(env: Env<M>, decls: Decls, mf: (Machine<M>, Flow)): Outcome<M> {
    if mf.1 == Stuck then Wrong
    else RunDefers(env, decls, mf.0.defers, mf.0.w, mf.0.trace, mf.1 == Panicked)
  }

  /** A whole call of a function with the given body. */
  function RunFunc<M(!new)>(env: Env<M>, fn: Func, decls: Decls, body: seq<Stmt>, w: World<M>,
      trace: seq<Event>): Outcome<M> {
    Finish(env, decls, ExecList(env, fn, decls, body, Machine(w, trace, map[], map[], [])))
  }

  lemma {:induction false} RunDefersSplit<M(!new)>(
      env: Env<M>, decls: Decls, lower: seq<Pending>, upper: seq<Pending>, w: World<M>, trace: seq<Event>,
      panicking: bool)
    ensures RunDefers(env, decls, lower + upper, w, trace, panicking)
         == var o := RunDefers(env, decls, upper, w, trace, panicking);
            if o.Wrong? then Wrong else RunDefers(env, decls, lower, o.w, o.trace, o.panicking)
    decreases |upper|
  {
    if upper == [] {
      assert lower + upper == lower;
    } else {
      var all := lower + upper;
      var rest := upper[..|upper| - 1];
      assert all[|all| - 1] == upper[|upper| - 1];
      assert all[..|all| - 1] == lower + rest;
      match upper[|upper| - 1]
      case PendingUser(uid) =>
        var (w1, p1) := env.deferred(uid, w, panicking);
        RunDefersSplit(env, decls, lower, rest, w1, trace + [Deferred(uid)], p1);
      case PendingAfter(t, k, rets) =>
        if t in decls {
          var (w1, tr1) := RunAfter(env, t, decls[t], k, rets, w, trace);
          RunDefersSplit(env, decls, lower, rest, w1, tr1, panicking);
        }
    }
  }

  /** A Before trampoline asks to skip exactly when its hook ran, did not panic, and set the flag of the
      context built for it; whatever happens it returns, and the event says whether the hook ran. */
  lemma {:induction false} BeforeSkips<M(!new)>(
      env: Env<M>, t: TrampName, hooked: bool, args: seq<string>, w: World<M>, trace: seq<Event>)
    ensures var b, w1 := RunBefore(env, t, hooked, args, w, trace), Alloc(w, args, hooked);
            var ran := hooked && env.guard(t, w1);
            && (b.skip <==>
                  ran && var (w2, panicked) := env.before(t.id, |w.ctxs|, w1);
                         !panicked && |w.ctxs| < |w2.ctxs| && w2.ctxs[|w.ctxs|].skip)
            && b.trace == trace + (if hooked then [BeforeHook(t.id, ran)] else [])
            && (!ran ==> b.w == w1)
  {
  }
}
