/** What bracketed functions do: the brackets, which move a counter of the goroutine up and down,
    amount to running each marked statement in a scope where hooks are suppressed, whatever loops,
    jumps, panics and recoveries happen.
 */
module BracketRuns {
  import opened Bracket

  // ---------------------------------------------------------------- state

  datatype Callee = NoCall | Fn(f: nat) | Fails
  datatype Act = Done | Fail | Pick(n: nat)

  /** Everything the program itself decides; each field is an arbitrary function of the memory.
      The flag says whether hooks are suppressed, which instrumented code can observe.
      - `callee`: what own call number j of a statement turns out to call, if it is made at all
      - `act`: how a statement ends, and which nested list it runs
      - `external`: run a function that has no body here; the flag says that it panicked
      - `recovers`: does this deferred function stop the panic in flight */
  datatype Env<!M(!new)> = Env(
    callee: (nat, nat, bool, M) -> (M, Callee),
    act: (nat, bool, M) -> (M, Act),
    external: (nat, bool, M) -> (M, bool),
    recovers: (nat, M) -> (M, bool))

  /** `count` is the suppression count at the call, `base` what it was when the calling activation began. */
  datatype Event =
    | Called(id: nat, f: nat, count: int, base: int)
    | Spawned(id: nat, f: nat)
    | RanDeferred(f: nat, count: int, base: int)

  /** `count` is the goroutine's suppression count, `base` its value when the activation began. */
  datatype World<M> = World(mem: M, count: int, base: int, trace: seq<Event>)

  datatype Pending = PendingFn(f: nat) | PendingFallback(cell: nat)

  /** One activation: `cells` are the guard variables, one for each execution of a definition. */
  datatype Frame<M> = Frame(w: World<M>, cells: seq<bool>, defers: seq<Pending>)

  datatype Flow = Next | Returned | Broke(lbl: nat) | Continued(lbl: nat) | Panicked | Cut | Stuck

  /** Function f runs list f of the table.  Statements in `scoped` are run with hooks suppressed by
      the semantics itself: this is the reference the brackets are compared with. */
  datatype Prog = Prog(table: Table, scoped: set<nat>)

  // ---------------------------------------------------------------- running

  /** A new activation. */
  function Entry<M>(w: World<M>): Frame<M> { Frame(w.(base := w.count), [], []) }

  /** `fuel` bounds nested calls and loop rounds; running out of it gives `Cut`. */
  function Call<M(!new)>(env: Env<M>, p: Prog, f: nat, w: World<M>, fuel: nat): (World<M>, Flow)
    decreases fuel, 0, 0, 0
  {
    if f >= |p.table| then
      var (m, bad) := env.external(f, w.count > 0, w.mem);
      (w.(mem := m), if bad then Panicked else Next)
    else if fuel == 0 then (w, Cut)
    else
      var (fr, flow) := ExecList(env, p, f, p.table[f], map[], Entry(w), fuel - 1);
      var (w1, flow1) :=
        if flow.Cut? || flow.Stuck? then (fr.w, flow) else RunDefers(env, p, fr, flow.Panicked?, fuel - 1);
      (w1.(base := w.base), flow1)
  }

  function RunDefers<M(!new)>(env: Env<M>, p: Prog, fr: Frame<M>, panicking: bool, fuel: nat): (World<M>, Flow)
    decreases fuel, 0, 1, |fr.defers|
  {
    if fr.defers == [] then (fr.w, if panicking then Panicked else Next)
    else
      var rest := fr.(defers := fr.defers[..|fr.defers| - 1]);
      match fr.defers[|fr.defers| - 1]
      case PendingFallback(cell) =>
        var undone := cell < |fr.cells| && !fr.cells[cell];
        RunDefers(env, p, if undone then rest.(w := fr.w.(count := fr.w.count - 1)) else rest, panicking, fuel)
      case PendingFn(f) =>
        var (w1, flow) := Call(env, p, f, fr.w.(trace := fr.w.trace + [RanDeferred(f, fr.w.count, fr.w.base)]), fuel);
        if flow.Cut? || flow.Stuck? then (w1, flow)
        else if flow.Panicked? then RunDefers(env, p, rest.(w := w1), true, fuel)
        else if panicking then
          var (m, recovered) := env.recovers(f, w1.mem);
          RunDefers(env, p, rest.(w := w1.(mem := m)), !recovered, fuel)
        else RunDefers(env, p, rest.(w := w1), false, fuel)
  }

  /** Own calls number j to n - 1 of a statement. */
  function Head<M(!new)>(env: Env<M>, p: Prog, id: nat, j: nat, n: nat, w: World<M>, fuel: nat): (World<M>, Flow)
    decreases fuel, 0, 1, if j < n then n - j else 0
  {
    if j >= n then (w, Next)
    else
      var (m, c) := env.callee(id, j, w.count > 0, w.mem);
      match c
      case NoCall => Head(env, p, id, j + 1, n, w.(mem := m), fuel)
      case Fails => (w.(mem := m), Panicked)
      case Fn(f) =>
        var (w1, flow) := Call(env, p, f, World(m, w.count, w.base, w.trace + [Called(id, f, w.count, w.base)]), fuel);
        if flow != Next then (w1, flow) else Head(env, p, id, j + 1, n, w1, fuel)
  }

  function ExecList<M(!new)>(env: Env<M>, p: Prog, k: nat, ss: seq<Stmt>, scope: map<nat, nat>, fr: Frame<M>,
      fuel: nat): (Frame<M>, Flow)
    requires k < |p.table|
    decreases fuel, |p.table| - k, 3, |ss|
  {
    if ss == [] then (fr, Next)
    else match ss[0]
      case Suppress => ExecList(env, p, k, ss[1..], scope, fr.(w := fr.w.(count := fr.w.count + 1)), fuel)
      case Unsuppress => ExecList(env, p, k, ss[1..], scope, fr.(w := fr.w.(count := fr.w.count - 1)), fuel)
      case DefineFlag(n) =>
        if n in scope then (fr, Stuck)
        else ExecList(env, p, k, ss[1..], scope[n := |fr.cells|], fr.(cells := fr.cells + [false]), fuel)
      case DeferFallback(n) =>
        if n !in scope then (fr, Stuck)
        else ExecList(env, p, k, ss[1..], scope, fr.(defers := fr.defers + [PendingFallback(scope[n])]), fuel)
      case SetFlag(n) =>
        if n !in scope || scope[n] >= |fr.cells| then (fr, Stuck)
        else ExecList(env, p, k, ss[1..], scope, fr.(cells := fr.cells[scope[n] := true]), fuel)
      case User(_, _, _) =>
        var (fr1, flow) := ExecStmt(env, p, k, ss[0], fr, fuel);
        if flow != Next then (fr1, flow) else ExecList(env, p, k, ss[1..], scope, fr1, fuel)
  }

  function ExecStmt<M(!new)>(env: Env<M>, p: Prog, k: nat, s: Stmt, fr: Frame<M>, fuel: nat): (Frame<M>, Flow)
    requires k < |p.table| && s.User?
    decreases fuel, |p.table| - k, 2, 0
  {
    if Marked(s, p.scoped) then
      var (fr1, flow) := ExecUser(env, p, k, s, fr.(w := fr.w.(count := fr.w.count + 1)), fuel);
      (fr1.(w := fr1.w.(count := fr.w.count)), flow)
    else ExecUser(env, p, k, s, fr, fuel)
  }

  predicate Registers(s: Stmt) {
    s.User? && (s.kind.GoCall? || s.kind.DeferCall?)
  }

  /** The calls a statement makes itself; `go` and `defer` only register their last one. */
  function OwnCalls(s: Stmt): nat
    requires s.User?
  {
    if Registers(s) && s.own > 0 then s.own - 1 else s.own
  }

  function ExecUser<M(!new)>(env: Env<M>, p: Prog, k: nat, s: Stmt, fr: Frame<M>, fuel: nat): (Frame<M>, Flow)
    requires k < |p.table| && s.User?
    decreases fuel, |p.table| - k, 1, 1
  {
    var (w1, flow) := Head(env, p, s.id, 0, OwnCalls(s), fr.w, fuel);
    var fr1 := fr.(w := w1);
    if flow != Next then (fr1, flow)
    else match s.kind
      case ReturnStmt => (fr1, Returned)
      case Break(lbl) => (fr1, Broke(lbl))
      case Continue(lbl) => (fr1, Continued(lbl))
      case _ => if Registers(s) then Register(env, s, fr1) else Finish(env, p, k, s, fr1, fuel)
  }

  /** The statement after its own calls. */
  function Finish<M(!new)>(env: Env<M>, p: Prog, k: nat, s: Stmt, fr: Frame<M>, fuel: nat): (Frame<M>, Flow)
    requires k < |p.table| && s.User?
    decreases fuel, |p.table| - k, 1, 0
  {
    var (m, act) := env.act(s.id, fr.w.count > 0, fr.w.mem);
    var fr1 := fr.(w := fr.w.(mem := m));
    if act.Fail? then (fr1, Panicked)
    else if act.Done? then (fr1, Next)
    else match s.kind
      case Choice(lbl, kids) => if act.n >= |kids| then (fr1, Next) else Choose(env, p, k, lbl, kids[act.n], fr1, fuel)
      case Loop(_, _) => Round(env, p, k, s, fr1, fuel)
      case _ => (fr1, Next)
  }

  /** Run one of the lists of a block, an `if`, a `switch` or a `select`. */
  function Choose<M(!new)>(env: Env<M>, p: Prog, k: nat, lbl: nat, c: nat, fr: Frame<M>, fuel: nat): (Frame<M>, Flow)
    requires k < |p.table|
    decreases fuel, |p.table| - k, 0, 1
  {
    if c <= k || c >= |p.table| then (fr, Stuck)
    else
      var (fr1, flow) := ExecList(env, p, c, p.table[c], map[], fr, fuel);
      (fr1, if flow == Broke(lbl) then Next else flow)
  }

  /** One more round of a loop, then its header again. */
  function Round<M(!new)>(env: Env<M>, p: Prog, k: nat, s: Stmt, fr: Frame<M>, fuel: nat): (Frame<M>, Flow)
    requires k < |p.table| && s.User? && s.kind.Loop?
    decreases fuel, |p.table| - k, 0, 1
  {
    var c := s.kind.body;
    if c <= k || c >= |p.table| then (fr, Stuck)
    else if fuel == 0 then (fr, Cut)
    else
      var (fr1, flow) := ExecList(env, p, c, p.table[c], map[], fr, fuel - 1);
      if flow == Broke(s.kind.lbl) then (fr1, Next)
      else if flow == Next || flow == Continued(s.kind.lbl) then ExecUser(env, p, k, s, fr1, fuel - 1)
      else (fr1, flow)
  }

  /** `go` starts a goroutine, which has a count of its own; `defer` pushes the call. */
  function Register<M(!new)>(env: Env<M>, s: Stmt, fr: Frame<M>): (Frame<M>, Flow)
    requires Registers(s)
  {
    var (m, c) := env.callee(s.id, OwnCalls(s), fr.w.count > 0, fr.w.mem);
    var fr1 := fr.(w := fr.w.(mem := m));
    match c
    case NoCall => (fr1, Next)
    case Fails => (fr1, Panicked)
    case Fn(f) =>
      if s.kind.GoCall? then (fr1.(w := fr1.w.(trace := fr1.w.trace + [Spawned(s.id, f)])), Next)
      else (fr1.(defers := fr1.defers + [PendingFn(f)]), Next)
  }

  // ---------------------------------------------------------------- relating two runs

  function UserDefers(ds: seq<Pending>): seq<Pending> {
    if ds == [] then []
    else UserDefers(ds[..|ds| - 1]) + (if ds[|ds| - 1].PendingFn? then [ds[|ds| - 1]] else [])
  }

  /** The fallback is a no-op: its bracket was closed. */
  predicate Closed(d: Pending, cells: seq<bool>) {
    d.PendingFallback? ==> d.cell < |cells| && cells[d.cell]
  }

  ghost predicate AllClosed(ds: seq<Pending>, cells: seq<bool>) {
    forall i :: 0 <= i < |ds| ==> Closed(ds[i], cells)
  }

  /** The bracketed activation `a` and the reference activation `r`, with suppression count c. */
  ghost predicate Matches<M>(a: Frame<M>, r: Frame<M>, c: int) {
    a.w == r.w && a.w.count == c && UserDefers(a.defers) == r.defers && AllClosed(a.defers, a.cells)
  }

  /** A panic left a bracket open: its fallback is on top and the count is one too high. */
  ghost predicate OneOpen<M>(a: Frame<M>, r: Frame<M>, c: int) {
    && a.defers != []
    && (var n := |a.defers| - 1;
        && a.defers[n].PendingFallback? && a.defers[n].cell < |a.cells| && !a.cells[a.defers[n].cell]
        && Matches(a.(w := a.w.(count := a.w.count - 1), defers := a.defers[..n]), r, c))
  }

  ghost predicate Ends<M>(a: (Frame<M>, Flow), r: (Frame<M>, Flow), c: int) {
    && a.1 == r.1
    && (!a.1.Cut? && !a.1.Stuck? ==> Matches(a.0, r.0, c) || (a.1.Panicked? && OneOpen(a.0, r.0, c)))
  }

  /** The same for worlds. */
  ghost predicate SameEnd<M>(a: (World<M>, Flow), r: (World<M>, Flow), c: int) {
    a.1 == r.1 && (!a.1.Cut? && !a.1.Stuck? ==> a.0 == r.0 && a.0.count == c)
  }

  /** Statements of the program itself; a `go` or `defer` statement has a call. */
  ghost predicate UserList(ss: seq<Stmt>) {
    UserOnly(ss) && forall i :: 0 <= i < |ss| && Registers(ss[i]) ==> ss[i].own > 0
  }

  /** A rewrite of a file that succeeds: its lists, the ignored statements, the first flag number. */
  datatype Rewrite = Rewrite(table: Table, ignored: set<nat>, flag: nat) {
    ghost predicate Valid() {
      Accepted(table, ignored) && forall k :: 0 <= k < |table| ==> UserList(table[k])
    }

    /** The bracketed program. */
    function Actual(): (p: Prog)
      ensures |p.table| == |table|
    {
      Prog(ExpandAll(table, ignored, flag), {})
    }

    /** The source, read with marked statements in a suppressed scope. */
    function Reference(): Prog { Prog(table, ignored) }
  }

  // ---------------------------------------------------------------- the shape of expanded lists

  lemma {:induction false} CountHead(ss: seq<Stmt>, ignored: set<nat>)
    requires ss != []
    ensures CountMarked(ss, ignored) == (if Marked(ss[0], ignored) then 1 else 0) + CountMarked(ss[1..], ignored)
    decreases |ss|
  {
    var init := ss[..|ss| - 1];
    if init == [] {
      assert ss[1..] == [];
    } else {
      CountHead(init, ignored);
      assert ss[1..][..|ss| - 2] == init[1..];
    }
  }

  lemma {:induction false} PieceShifts(ss: seq<Stmt>, ignored: set<nat>, flag: nat, i: nat)
    requires i + 1 < |ss|
    ensures Pieces(ss, ignored, flag)[i + 1]
            == Pieces(ss[1..], ignored, flag + if Marked(ss[0], ignored) then 1 else 0)[i]
  {
    CountHead(ss[..i + 1], ignored);
    assert ss[..i + 1][1..] == ss[1..][..i];
  }

  lemma {:induction false} ExpandHead(ss: seq<Stmt>, ignored: set<nat>, flag: nat)
    requires ss != []
    ensures Expand(ss, ignored, flag)
         == Bracketed(ss[0], ignored, flag) + Expand(ss[1..], ignored, flag + if Marked(ss[0], ignored) then 1 else 0)
  {
    var f1 := flag + if Marked(ss[0], ignored) then 1 else 0;
    var all, tail := Pieces(ss, ignored, flag), Pieces(ss[1..], ignored, f1);
    forall i | 0 <= i < |tail| ensures all[i + 1] == tail[i] { PieceShifts(ss, ignored, flag, i); }
    assert all[1..] == tail && ss[..0] == [];
  }

  lemma {:induction false} ExpandUnmarked(ss: seq<Stmt>, ignored: set<nat>, flag: nat)
    requires forall i :: 0 <= i < |ss| ==> !Marked(ss[i], ignored)
    ensures Expand(ss, ignored, flag) == ss
    decreases |ss|
  {
    if ss != [] {
      ExpandHead(ss, ignored, flag);
      ExpandUnmarked(ss[1..], ignored, flag);
    }
  }

  lemma {:induction false} ExpandedAt(table: Table, ignored: set<nat>, flag: nat, k: nat)
    requires k < |table| && forall i :: 0 <= i < |table[k]| ==> !Marked(table[k][i], ignored)
    ensures ExpandAll(table, ignored, flag)[k] == table[k]
  {
    ExpandUnmarked(table[k], ignored, FlagAt(table, ignored, flag, k));
  }

  // ---------------------------------------------------------------- inside a bracket

  /** No calls and no jumps, so nothing that could be marked. */
  ghost predicate Quiet(table: Table, k: nat, ss: seq<Stmt>)
    requires k < |table|
  {
    UserList(ss) && ListCalls(table, k, ss) == 0 && !ListEscapes(table, k, ss)
  }

  /** No jumps, and calls at most in the statement itself. */
  ghost predicate Calm(table: Table, k: nat, s: Stmt)
    requires k < |table|
  {
    s.User? && KidsCalls(table, k, Kids(s)) == 0 && !HasEscapingControlFlow(table, k, s)
  }

  lemma {:induction false} QuietKid(table: Table, k: nat, kids: seq<nat>, i: nat)
    requires k < |table| && KidsCalls(table, k, kids) == 0 && !KidsEscape(table, k, kids)
    requires i < |kids| && k < kids[i] < |table| && UserList(table[kids[i]])
    ensures Quiet(table, kids[i], table[kids[i]])
    decreases |kids|
  {
    if i > 0 { QuietKid(table, k, kids[1..], i - 1); }
  }

  lemma {:induction false} QuietUnmarked(table: Table, ignored: set<nat>, k: nat, ss: seq<Stmt>, i: nat)
    requires k < |table| && Quiet(table, k, ss) && i < |ss|
    ensures !Marked(ss[i], ignored)
    decreases |ss|
  {
    assert Calls(table, k, ss[0]) == 0;
    if i > 0 { QuietUnmarked(table, ignored, k, ss[1..], i - 1); }
  }

  /** A quiet list is run from the same text in both programs. */
  lemma {:induction false} QuietText(x: Rewrite, k: nat)
    requires k < |x.table| && Quiet(x.table, k, x.table[k])
    ensures x.Actual().table[k] == x.table[k]
  {
    forall i | 0 <= i < |x.table[k]| ensures !Marked(x.table[k][i], x.ignored) {
      QuietUnmarked(x.table, x.ignored, k, x.table[k], i);
    }
    ExpandedAt(x.table, x.ignored, x.flag, k);
  }

  /** What running a calm statement or a quiet list leaves alone. */
  ghost predicate Undisturbed<M>(a0: Frame<M>, r0: Frame<M>, a: (Frame<M>, Flow), r: (Frame<M>, Flow)) {
    && a.1 == r.1 && (a.1 == Next || a.1.Panicked? || a.1.Cut? || a.1.Stuck?)
    && (a.1 == Next || a.1.Panicked? ==>
          a.0.w == r.0.w && a.0.w.count == a0.w.count && a.0.cells == a0.cells
          && a.0.defers == a0.defers && r.0.defers == r0.defers)
  }

  lemma {:induction false} QuietRuns<M(!new)>(
      env: Env<M>, x: Rewrite, k: nat, ss: seq<Stmt>, a: Frame<M>, r: Frame<M>, fuel: nat)
    requires x.Valid() && k < |x.table| && Quiet(x.table, k, ss) && a.w == r.w
    ensures Undisturbed(a, r, ExecList(env, x.Actual(), k, ss, map[], a, fuel),
                        ExecList(env, x.Reference(), k, ss, map[], r, fuel))
    decreases fuel, |x.table| - k, 3, |ss|
  {
    if ss != [] {
      assert Calls(x.table, k, ss[0]) == 0 && ss[0].own == 0 && Calm(x.table, k, ss[0]);
      assert !Marked(ss[0], x.ignored) && !Registers(ss[0]);
      var (a1, f) := ExecUser(env, x.Actual(), k, ss[0], a, fuel);
      var (r1, _) := ExecUser(env, x.Reference(), k, ss[0], r, fuel);
      CalmRuns(env, x, k, ss[0], a, r, fuel);
      if f == Next { QuietRuns(env, x, k, ss[1..], a1, r1, fuel); }
    }
  }

  lemma {:induction false} CalmRuns<M(!new)>(
      env: Env<M>, x: Rewrite, k: nat, s: Stmt, a: Frame<M>, r: Frame<M>, fuel: nat)
    requires x.Valid() && k < |x.table| && Calm(x.table, k, s) && !Registers(s) && a.w == r.w
    ensures Undisturbed(a, r, ExecUser(env, x.Actual(), k, s, a, fuel), ExecUser(env, x.Reference(), k, s, r, fuel))
    decreases fuel, |x.table| - k, 1, 1
  {
    var (w1, flow) := Head(env, x.Actual(), s.id, 0, OwnCalls(s), a.w, fuel);
    HeadAlike(env, x, s.id, 0, OwnCalls(s), a.w, fuel);
    if flow == Next { CalmFinish(env, x, k, s, a.(w := w1), r.(w := w1), fuel); }
  }

  lemma {:induction false} CalmFinish<M(!new)>(
      env: Env<M>, x: Rewrite, k: nat, s: Stmt, a: Frame<M>, r: Frame<M>, fuel: nat)
    requires x.Valid() && k < |x.table| && Calm(x.table, k, s) && !Registers(s) && a.w == r.w
    ensures Undisturbed(a, r, Finish(env, x.Actual(), k, s, a, fuel), Finish(env, x.Reference(), k, s, r, fuel))
    decreases fuel, |x.table| - k, 1, 0
  {
    var (m, act) := env.act(s.id, a.w.count > 0, a.w.mem);
    var a1, r1 := a.(w := a.w.(mem := m)), r.(w := r.w.(mem := m));
    if act.Pick? && s.kind.Choice? && act.n < |s.kind.kids| { CalmChoice(env, x, k, s, act.n, a1, r1, fuel); }
    if act.Pick? && s.kind.Loop? { CalmRound(env, x, k, s, a1, r1, fuel); }
  }

  lemma {:induction false} CalmChoice<M(!new)>(
      env: Env<M>, x: Rewrite, k: nat, s: Stmt, i: nat, a: Frame<M>, r: Frame<M>, fuel: nat)
    requires x.Valid() && k < |x.table| && Calm(x.table, k, s) && a.w == r.w
    requires s.kind.Choice? && i < |s.kind.kids|
    ensures var (lbl, c) := (s.kind.lbl, s.kind.kids[i]);
            Undisturbed(a, r, Choose(env, x.Actual(), k, lbl, c, a, fuel),
              Choose(env, x.Reference(), k, lbl, c, r, fuel))
    decreases fuel, |x.table| - k, 0, 1
  {
    if k < s.kind.kids[i] < |x.table| { CalmNested(env, x, k, s, i, a, r, fuel); }
  }

  lemma {:induction false} CalmRound<M(!new)>(
      env: Env<M>, x: Rewrite, k: nat, s: Stmt, a: Frame<M>, r: Frame<M>, fuel: nat)
    requires x.Valid() && k < |x.table| && Calm(x.table, k, s) && s.kind.Loop? && a.w == r.w
    ensures Undisturbed(a, r, Round(env, x.Actual(), k, s, a, fuel), Round(env, x.Reference(), k, s, r, fuel))
    decreases fuel, |x.table| - k, 0, 1
  {
    var c := s.kind.body;
    if k < c < |x.table| && fuel > 0 {
      CalmNested(env, x, k, s, 0, a, r, fuel - 1);
      var af := ExecList(env, x.Actual(), c, x.Actual().table[c], map[], a, fuel - 1);
      var rf := ExecList(env, x.Reference(), c, x.table[c], map[], r, fuel - 1);
      if af.1 == Next {
        CalmRuns(env, x, k, s, af.0, rf.0, fuel - 1);
      }
    }
  }

  lemma {:induction false} CalmNested<M(!new)>(
      env: Env<M>, x: Rewrite, k: nat, s: Stmt, i: nat, a: Frame<M>, r: Frame<M>, fuel: nat)
    requires x.Valid() && k < |x.table| && Calm(x.table, k, s) && a.w == r.w
    requires i < |Kids(s)| && k < Kids(s)[i] < |x.table|
    ensures var c := Kids(s)[i];
            Undisturbed(a, r, ExecList(env, x.Actual(), c, x.Actual().table[c], map[], a, fuel),
                        ExecList(env, x.Reference(), c, x.table[c], map[], r, fuel))
    decreases fuel, |x.table| - k, 0, 0
  {
    var c := Kids(s)[i];
    QuietKid(x.table, k, Kids(s), i);
    QuietText(x, c);
    QuietRuns(env, x, c, x.table[c], a, r, fuel);
  }

  // ---------------------------------------------------------------- the simulation

  lemma {:induction false} HeadAlike<M(!new)>(
      env: Env<M>, x: Rewrite, id: nat, j: nat, n: nat, w: World<M>, fuel: nat)
    requires x.Valid()
    ensures var a := Head(env, x.Actual(), id, j, n, w, fuel);
            SameEnd(a, Head(env, x.Reference(), id, j, n, w, fuel), w.count)
            && (a.1 == Next || a.1.Panicked? || a.1.Cut? || a.1.Stuck?)
    decreases fuel, 0, 1, if j < n then n - j else 0
  {
    if j < n {
      var (m, c) := env.callee(id, j, w.count > 0, w.mem);
      match c
      case NoCall => HeadAlike(env, x, id, j + 1, n, w.(mem := m), fuel);
      case Fails =>
      case Fn(f) =>
        var w0 := World(m, w.count, w.base, w.trace + [Called(id, f, w.count, w.base)]);
        CallAlike(env, x, f, w0, fuel);
        var (w1, flow) := Call(env, x.Actual(), f, w0, fuel);
        if flow == Next { HeadAlike(env, x, id, j + 1, n, w1, fuel); }
    }
  }

  /** Calling any function, bracketed or in the scoped reading of its source, does the same and
      leaves the count as it was. */
  lemma {:induction false} CallAlike<M(!new)>(
      env: Env<M>, x: Rewrite, f: nat, w: World<M>, fuel: nat)
    requires x.Valid()
    ensures var a := Call(env, x.Actual(), f, w, fuel);
            SameEnd(a, Call(env, x.Reference(), f, w, fuel), w.count)
            && (a.1 == Next || a.1.Panicked? || a.1.Cut? || a.1.Stuck?)
    decreases fuel, 0, 0, 0
  {
    if f < |x.table| && fuel > 0 {
      var fr := Entry(w);
      assert Matches(fr, fr, w.count);
      NestedAlike(env, x, f, fr, fr, w.count, fuel - 1);
      var (a, flow) := ExecList(env, x.Actual(), f, x.Actual().table[f], map[], fr, fuel - 1);
      var (r, _) := ExecList(env, x.Reference(), f, x.table[f], map[], fr, fuel - 1);
      if !flow.Cut? && !flow.Stuck? {
        DefersAlike(env, x, a, r, w.count, flow.Panicked?, fuel - 1);
      }
    }
  }

  lemma {:induction false} DefersAlike<M(!new)>(
      env: Env<M>, x: Rewrite, a: Frame<M>, r: Frame<M>, c: int, panicking: bool, fuel: nat)
    requires x.Valid() && (Matches(a, r, c) || OneOpen(a, r, c))
    ensures var e := RunDefers(env, x.Actual(), a, panicking, fuel);
            SameEnd(e, RunDefers(env, x.Reference(), r, panicking, fuel), c)
            && (e.1 == Next || e.1.Panicked? || e.1.Cut? || e.1.Stuck?)
    decreases fuel, 0, 1, |a.defers|
  {
    if a.defers != [] {
      var n := |a.defers| - 1;
      var rest := a.(defers := a.defers[..n]);
      match a.defers[n]
      case PendingFallback(cell) =>
        var undone := cell < |a.cells| && !a.cells[cell];
        assert undone <==> OneOpen(a, r, c);
        DefersAlike(env, x, if undone then rest.(w := a.w.(count := a.w.count - 1)) else rest, r, c, panicking, fuel);
      case PendingFn(f) =>
        var rest' := r.(defers := r.defers[..|r.defers| - 1]);
        assert rest'.defers == UserDefers(rest.defers);
        var w0 := a.w.(trace := a.w.trace + [RanDeferred(f, a.w.count, a.w.base)]);
        CallAlike(env, x, f, w0, fuel);
        var (w1, flow) := Call(env, x.Actual(), f, w0, fuel);
        if !flow.Cut? && !flow.Stuck? {
          var (m, recovered) := env.recovers(f, w1.mem);
          var w2 := if flow == Next && panicking then w1.(mem := m) else w1;
          var on := flow.Panicked? || (panicking && !recovered);
          DefersAlike(env, x, rest.(w := w2), rest'.(w := w2), c, on, fuel);
        }
    }
  }

  lemma {:induction false} ListAlike<M(!new)>(
      env: Env<M>, x: Rewrite, k: nat, ss: seq<Stmt>, f: nat, scope: map<nat, nat>,
      a: Frame<M>, r: Frame<M>, c: int, fuel: nat)
    requires x.Valid() && k < |x.table| && Brackable(x.table, x.ignored, k, ss)
    requires Matches(a, r, c) && forall n :: n in scope ==> n < f
    ensures Ends(ExecList(env, x.Actual(), k, Expand(ss, x.ignored, f), scope, a, fuel),
                 ExecList(env, x.Reference(), k, ss, map[], r, fuel), c)
    decreases fuel, |x.table| - k, 4, |ss|
  {
    if ss != [] {
      var p, s := x.Actual(), ss[0];
      ExpandHead(ss, x.ignored, f);
      if Marked(s, x.ignored) {
        var rest := Expand(ss[1..], x.ignored, f + 1);
        BracketUnfolds(env, p, k, s, x.ignored, f, rest, scope, a, fuel);
        BracketAlike(env, x, k, s, a, r, c, fuel);
        var (a1, flow) := ExecUser(env, p, k, s, Opened(a), fuel);
        var (r1, _) := ExecStmt(env, x.Reference(), k, s, r, fuel);
        if flow == Next {
          ListAlike(env, x, k, ss[1..], f + 1, scope[f := |a.cells|], Shut(a1, |a.cells|), r1, c, fuel);
        }
      } else {
        var ex := Expand(ss, x.ignored, f);
        assert ex == [s] + Expand(ss[1..], x.ignored, f) && ex[1..] == Expand(ss[1..], x.ignored, f);
        UserAlike(env, x, k, s, a, r, c, fuel);
        var (a1, flow) := ExecUser(env, p, k, s, a, fuel);
        var (r1, _) := ExecUser(env, x.Reference(), k, s, r, fuel);
        if flow == Next { ListAlike(env, x, k, ss[1..], f, scope, a1, r1, c, fuel); }
      }
    }
  }

  /** Part of a list of the source, whose marked statements the rewrite accepts. */
  ghost predicate Brackable(table: Table, ignored: set<nat>, k: nat, ss: seq<Stmt>)
    requires k < |table|
  {
    UserList(ss) && forall i :: 0 <= i < |ss| ==> !Bad(table, ignored, k, ss[i])
  }

  /** The activation after the first half of a bracket. */
  function Opened<M>(a: Frame<M>): Frame<M> {
    Frame(a.w.(count := a.w.count + 1), a.cells + [false], a.defers + [PendingFallback(|a.cells|)])
  }

  /** The activation after the second half. */
  function Shut<M>(a: Frame<M>, cell: nat): Frame<M>
    requires cell < |a.cells|
  {
    Frame(a.w.(count := a.w.count - 1), a.cells[cell := true], a.defers)
  }

  lemma {:induction false} BracketUnfolds<M(!new)>(
      env: Env<M>, p: Prog, k: nat, s: Stmt, ignored: set<nat>, f: nat, rest: seq<Stmt>, scope: map<nat, nat>,
      a: Frame<M>, fuel: nat)
    requires k < |p.table| && s.User? && p.scoped == {} && f !in scope && Marked(s, ignored)
    ensures var (a1, flow) := ExecUser(env, p, k, s, Opened(a), fuel);
            ExecList(env, p, k, Bracketed(s, ignored, f) + rest, scope, a, fuel)
            == if flow != Next then (a1, flow)
               else if |a1.cells| <= |a.cells| then (a1, Stuck)
               else ExecList(env, p, k, rest, scope[f := |a.cells|], Shut(a1, |a.cells|), fuel)
  {
    var l0 := Bracketed(s, ignored, f) + rest;
    var l3 := [s] + (After(f) + rest);
    assert l0[0] == Suppress && l0[1..][0] == DefineFlag(f) && l0[1..][1..][0] == DeferFallback(f)
           && l0[1..][1..][1..] == l3;
    var scope1 := scope[f := |a.cells|];
    var o1 := a.(w := a.w.(count := a.w.count + 1));
    var o2 := o1.(cells := a.cells + [false]);
    assert ExecList(env, p, k, l0, scope, a, fuel) == ExecList(env, p, k, l0[1..], scope, o1, fuel);
    assert ExecList(env, p, k, l0[1..], scope, o1, fuel) == ExecList(env, p, k, l0[1..][1..], scope1, o2, fuel);
    assert ExecList(env, p, k, l0[1..][1..], scope1, o2, fuel) == ExecList(env, p, k, l3, scope1, Opened(a), fuel);
    var (a1, flow) := ExecUser(env, p, k, s, Opened(a), fuel);
    var l4 := After(f) + rest;
    assert l3[1..] == l4;
    assert l4[0] == SetFlag(f) && l4[1..][0] == Unsuppress && l4[1..][1..] == rest;
    assert ExecList(env, p, k, l3, scope1, Opened(a), fuel) == if flow != Next then (a1, flow)
           else ExecList(env, p, k, l4, scope1, a1, fuel);
    if flow == Next && |a1.cells| > |a.cells| {
      var a2 := a1.(cells := a1.cells[|a.cells| := true]);
      assert ExecList(env, p, k, l4, scope1, a1, fuel) == ExecList(env, p, k, l4[1..], scope1, a2, fuel);
      assert ExecList(env, p, k, l4[1..], scope1, a2, fuel)
             == ExecList(env, p, k, rest, scope1, Shut(a1, |a.cells|), fuel);
    }
  }

  lemma {:induction false} UserDefersPush(ds: seq<Pending>, d: Pending)
    ensures UserDefers(ds + [d]) == UserDefers(ds) + if d.PendingFn? then [d] else []
  {
    assert (ds + [d])[..|ds|] == ds;
  }

  /** Closing a bracket whose statement only added the deferred calls `ds`. */
  lemma {:induction false} ShutMatches<M>(a: Frame<M>, r: Frame<M>, c: int, a1: Frame<M>, r1: Frame<M>,
      ds: seq<Pending>)
    requires Matches(a, r, c) && (ds == [] || (|ds| == 1 && ds[0].PendingFn?))
    requires a1.cells == Opened(a).cells && a1.defers == Opened(a).defers + ds && r1.defers == r.defers + ds
    requires a1.w.count == c + 1 && r1.w == a1.w.(count := c)
    ensures Matches(Shut(a1, |a.cells|), r1, c)
  {
    var top := PendingFallback(|a.cells|);
    UserDefersPush(a.defers, top);
    if ds == [] {
      assert a1.defers == a.defers + [top] && r1.defers == r.defers;
    } else {
      UserDefersPush(a.defers + [top], ds[0]);
      assert a1.defers == a.defers + [top] + [ds[0]] && r1.defers == r.defers + [ds[0]];
    }
    StaysClosed(a.defers, a.cells, top, ds);
    assert a1.cells[|a.cells| := true] == a.cells + [true];
  }

  lemma {:induction false} StaysClosed(defers: seq<Pending>, cells: seq<bool>, top: Pending, ds: seq<Pending>)
    requires AllClosed(defers, cells) && top == PendingFallback(|cells|) && forall d :: d in ds ==> d.PendingFn?
    ensures AllClosed(defers + [top] + ds, cells + [true])
  {
    var all := defers + [top] + ds;
    forall i | 0 <= i < |all| ensures Closed(all[i], cells + [true]) {
      if i < |defers| {
        assert Closed(defers[i], cells) && all[i] == defers[i];
      } else if i > |defers| {
        assert all[i] == ds[i - |defers| - 1] && all[i] in ds;
      }
    }
  }

  lemma {:induction false} PanicLeavesOpen<M>(a: Frame<M>, r: Frame<M>, c: int, a1: Frame<M>, r1: Frame<M>)
    requires Matches(a, r, c) && a1.cells == Opened(a).cells && a1.defers == Opened(a).defers && r1.defers == r.defers
    requires a1.w.count == c + 1 && r1.w == a1.w.(count := c)
    ensures OneOpen(a1, r1, c)
  {
    assert a1.defers[..|a.defers|] == a.defers;
  }

  /** One bracketed statement against the same statement in a suppressed scope. */
  lemma {:induction false} BracketAlike<M(!new)>(
      env: Env<M>, x: Rewrite, k: nat, s: Stmt, a: Frame<M>, r: Frame<M>, c: int, fuel: nat)
    requires x.Valid() && k < |x.table| && Marked(s, x.ignored) && !Rejected(x.table, k, s) && Matches(a, r, c)
    ensures var (a1, flow) := ExecUser(env, x.Actual(), k, s, Opened(a), fuel);
            var (r1, flow') := ExecStmt(env, x.Reference(), k, s, r, fuel);
            flow == flow' && (flow == Next || flow.Panicked? || flow.Cut? || flow.Stuck?)
            && (flow == Next ==> |a1.cells| > |a.cells| && Matches(Shut(a1, |a.cells|), r1, c))
            && (flow.Panicked? ==> OneOpen(a1, r1, c))
    decreases fuel, |x.table| - k, 2, 0
  {
    var a0, r0 := Opened(a), r.(w := r.w.(count := r.w.count + 1));
    var (a1, flow) := ExecUser(env, x.Actual(), k, s, a0, fuel);
    var (r1, _) := ExecStmt(env, x.Reference(), k, s, r, fuel);
    var ds := InsideAlike(env, x, k, s, a0, r0, fuel);
    if flow == Next { ShutMatches(a, r, c, a1, r1, ds); }
    if flow.Panicked? { PanicLeavesOpen(a, r, c, a1, r1); }
  }

  /** A marked statement that is accepted, run on both sides at the same count. */
  lemma {:induction false} InsideAlike<M(!new)>(
      env: Env<M>, x: Rewrite, k: nat, s: Stmt, a: Frame<M>, r: Frame<M>, fuel: nat)
      returns (ds: seq<Pending>)
    requires x.Valid() && k < |x.table| && Marked(s, x.ignored) && !Rejected(x.table, k, s) && a.w == r.w
    ensures Extended(a, r, ExecUser(env, x.Actual(), k, s, a, fuel), ExecUser(env, x.Reference(), k, s, r, fuel), ds)
    decreases fuel, |x.table| - k, 1, 2
  {
    if Registers(s) {
      ds := RegisterAlike(env, x, k, s, a, r, fuel);
    } else {
      CalmRuns(env, x, k, s, a, r, fuel);
      ds := [];
      assert a.defers + [] == a.defers && r.defers + [] == r.defers;
    }
  }

  /** Both activations ended alike, with the same few calls deferred. */
  ghost predicate Extended<M>(a0: Frame<M>, r0: Frame<M>, a: (Frame<M>, Flow), r: (Frame<M>, Flow), ds: seq<Pending>) {
    && a.1 == r.1 && (a.1 == Next || a.1.Panicked? || a.1.Cut? || a.1.Stuck?)
    && (a.1 == Next || a.1.Panicked? ==>
          a.0.w == r.0.w && a.0.w.count == a0.w.count && a.0.cells == a0.cells
          && a.0.defers == a0.defers + ds && r.0.defers == r0.defers + ds)
    && (ds == [] || (a.1 == Next && |ds| == 1 && ds[0].PendingFn?))
  }

  /** `go` and `defer`: at most one more deferred call, the same on both sides. */
  lemma {:induction false} RegisterAlike<M(!new)>(
      env: Env<M>, x: Rewrite, k: nat, s: Stmt, a: Frame<M>, r: Frame<M>, fuel: nat)
      returns (ds: seq<Pending>)
    requires x.Valid() && k < |x.table| && Registers(s) && a.w == r.w
    ensures Extended(a, r, ExecUser(env, x.Actual(), k, s, a, fuel), ExecUser(env, x.Reference(), k, s, r, fuel), ds)
    decreases fuel, |x.table| - k, 1, 0
  {
    HeadAlike(env, x, s.id, 0, OwnCalls(s), a.w, fuel);
    var (a1, _) := ExecUser(env, x.Actual(), k, s, a, fuel);
    ds := a1.defers[|a.defers|..];
    assert a.defers + [] == a.defers && r.defers + [] == r.defers;
  }

  lemma {:induction false} UserAlike<M(!new)>(
      env: Env<M>, x: Rewrite, k: nat, s: Stmt, a: Frame<M>, r: Frame<M>, c: int, fuel: nat)
    requires x.Valid() && k < |x.table| && s.User? && Matches(a, r, c)
    ensures Ends(ExecUser(env, x.Actual(), k, s, a, fuel), ExecUser(env, x.Reference(), k, s, r, fuel), c)
    decreases fuel, |x.table| - k, 1, 1
  {
    if Registers(s) {
      var ds := RegisterAlike(env, x, k, s, a, r, fuel);
      if ds != [] { UserDefersPush(a.defers, ds[0]); }
    } else {
      HeadAlike(env, x, s.id, 0, OwnCalls(s), a.w, fuel);
      var (w1, flow) := Head(env, x.Actual(), s.id, 0, OwnCalls(s), a.w, fuel);
      if flow == Next { FinishAlike(env, x, k, s, a.(w := w1), r.(w := w1), c, fuel); }
    }
  }

  lemma {:induction false} NestedAlike<M(!new)>(
      env: Env<M>, x: Rewrite, k: nat, a: Frame<M>, r: Frame<M>, c: int, fuel: nat)
    requires x.Valid() && k < |x.table| && Matches(a, r, c)
    ensures var p := x.Actual();
            Ends(ExecList(env, p, k, p.table[k], map[], a, fuel),
              ExecList(env, x.Reference(), k, x.table[k], map[], r, fuel), c)
    decreases fuel, |x.table| - k, 5
  {
    assert ListAccepted(x.table, x.ignored, k);
    ListAlike(env, x, k, x.table[k], FlagAt(x.table, x.ignored, x.flag, k), map[], a, r, c, fuel);
  }

  lemma {:induction false} FinishAlike<M(!new)>(
      env: Env<M>, x: Rewrite, k: nat, s: Stmt, a: Frame<M>, r: Frame<M>, c: int, fuel: nat)
    requires x.Valid() && k < |x.table| && s.User? && Matches(a, r, c)
    ensures Ends(Finish(env, x.Actual(), k, s, a, fuel), Finish(env, x.Reference(), k, s, r, fuel), c)
    decreases fuel, |x.table| - k, 1, 0
  {
    var (m, act) := env.act(s.id, a.w.count > 0, a.w.mem);
    var a1, r1 := a.(w := a.w.(mem := m)), r.(w := r.w.(mem := m));
    if act.Pick? && s.kind.Choice? && act.n < |s.kind.kids| {
      ChooseAlike(env, x, k, s.kind.lbl, s.kind.kids[act.n], a1, r1, c, fuel);
    }
    if act.Pick? && s.kind.Loop? { RoundAlike(env, x, k, s, a1, r1, c, fuel); }
  }

  lemma {:induction false} ChooseAlike<M(!new)>(
      env: Env<M>, x: Rewrite, k: nat, lbl: nat, kid: nat, a: Frame<M>, r: Frame<M>, c: int, fuel: nat)
    requires x.Valid() && k < |x.table| && Matches(a, r, c)
    ensures Ends(Choose(env, x.Actual(), k, lbl, kid, a, fuel), Choose(env, x.Reference(), k, lbl, kid, r, fuel), c)
    decreases fuel, |x.table| - k, 0, 1
  {
    if k < kid < |x.table| { NestedAlike(env, x, kid, a, r, c, fuel); }
  }

  lemma {:induction false} RoundAlike<M(!new)>(
      env: Env<M>, x: Rewrite, k: nat, s: Stmt, a: Frame<M>, r: Frame<M>, c: int, fuel: nat)
    requires x.Valid() && k < |x.table| && s.User? && s.kind.Loop? && Matches(a, r, c)
    ensures Ends(Round(env, x.Actual(), k, s, a, fuel), Round(env, x.Reference(), k, s, r, fuel), c)
    decreases fuel, |x.table| - k, 0, 1
  {
    var b := s.kind.body;
    if k < b < |x.table| && fuel > 0 {
      NestedAlike(env, x, b, a, r, c, fuel - 1);
      var (a1, f) := ExecList(env, x.Actual(), b, x.Actual().table[b], map[], a, fuel - 1);
      var (r1, _) := ExecList(env, x.Reference(), b, x.table[b], map[], r, fuel - 1);
      if f == Next || f == Continued(s.kind.lbl) { UserAlike(env, x, k, s, a1, r1, c, fuel - 1); }
    }
  }

  // ---------------------------------------------------------------- what the reference guarantees

  /** Inside an ignored statement the count is one higher than when the activation began; everywhere
      else, and for deferred calls, it is the same. */
  predicate EventOk(e: Event, ignored: set<nat>) {
    match e
    case Called(id, _, count, base) => count == base + if id in ignored then 1 else 0
    case RanDeferred(_, count, base) => count == base
    case Spawned(_, _) => true
  }

  ghost predicate TraceOk(trace: seq<Event>, ignored: set<nat>) {
    forall i :: 0 <= i < |trace| ==> EventOk(trace[i], ignored)
  }

  ghost predicate OnlyFns(ds: seq<Pending>) {
    forall i :: 0 <= i < |ds| ==> ds[i].PendingFn?
  }

  /** What holds behind `fr0`: the count and its base are unchanged, the trace is as it should be. */
  ghost predicate Sound<M>(fr: Frame<M>, ignored: set<nat>, fr0: Frame<M>) {
    fr.w.count == fr0.w.count && fr.w.base == fr0.w.base && TraceOk(fr.w.trace, ignored) && OnlyFns(fr.defers)
  }

  /** The count at which own calls of a statement are to be made, if it makes any. */
  predicate Level<M>(w: World<M>, id: nat, own: nat, ignored: set<nat>) {
    own > 0 ==> w.count == w.base + if id in ignored then 1 else 0
  }

  lemma {:induction false} HeadSound<M(!new)>(env: Env<M>, x: Rewrite, id: nat, j: nat, n: nat, w: World<M>, fuel: nat)
    requires x.Valid() && TraceOk(w.trace, x.ignored) && Level(w, id, n, x.ignored)
    ensures var (w1, _) := Head(env, x.Reference(), id, j, n, w, fuel);
            w1.count == w.count && w1.base == w.base && TraceOk(w1.trace, x.ignored)
    decreases fuel, 0, 1, if j < n then n - j else 0
  {
    if j < n {
      var (m, c) := env.callee(id, j, w.count > 0, w.mem);
      match c
      case NoCall => HeadSound(env, x, id, j + 1, n, w.(mem := m), fuel);
      case Fails =>
      case Fn(f) =>
        var w0 := World(m, w.count, w.base, w.trace + [Called(id, f, w.count, w.base)]);
        CallSound(env, x, f, w0, fuel);
        HeadSound(env, x, id, j + 1, n, Call(env, x.Reference(), f, w0, fuel).0, fuel);
    }
  }

  lemma {:induction false} CallSound<M(!new)>(env: Env<M>, x: Rewrite, f: nat, w: World<M>, fuel: nat)
    requires x.Valid() && TraceOk(w.trace, x.ignored)
    ensures var (w1, _) := Call(env, x.Reference(), f, w, fuel);
            w1.count == w.count && w1.base == w.base && TraceOk(w1.trace, x.ignored)
    decreases fuel, 0, 0, 0
  {
    if f < |x.table| && fuel > 0 {
      assert ListAccepted(x.table, x.ignored, f);
      ListSound(env, x, f, x.table[f], Entry(w), fuel - 1);
      var (fr, flow) := ExecList(env, x.Reference(), f, x.table[f], map[], Entry(w), fuel - 1);
      DefersSound(env, x, fr, flow.Panicked?, fuel - 1);
    }
  }

  lemma {:induction false} DefersSound<M(!new)>(env: Env<M>, x: Rewrite, fr: Frame<M>, panicking: bool, fuel: nat)
    requires x.Valid() && fr.w.count == fr.w.base && TraceOk(fr.w.trace, x.ignored) && OnlyFns(fr.defers)
    ensures var (w1, _) := RunDefers(env, x.Reference(), fr, panicking, fuel);
            w1.count == fr.w.count && w1.base == fr.w.base && TraceOk(w1.trace, x.ignored)
    decreases fuel, 0, 1, |fr.defers|
  {
    if fr.defers != [] {
      var rest, f := fr.(defers := fr.defers[..|fr.defers| - 1]), fr.defers[|fr.defers| - 1].f;
      var w0 := fr.w.(trace := fr.w.trace + [RanDeferred(f, fr.w.count, fr.w.base)]);
      CallSound(env, x, f, w0, fuel);
      var (w1, flow) := Call(env, x.Reference(), f, w0, fuel);
      var (m, recovered) := env.recovers(f, w1.mem);
      var w2 := if !flow.Panicked? && panicking then w1.(mem := m) else w1;
      DefersSound(env, x, rest.(w := w2), flow.Panicked? || (panicking && !recovered), fuel);
    }
  }

  /** Where a list may run: at the base count, or, without any calls, inside a marked statement. */
  ghost predicate MayRun<M>(x: Rewrite, k: nat, ss: seq<Stmt>, w: World<M>)
    requires k < |x.table|
  {
    Brackable(x.table, x.ignored, k, ss) && (w.count == w.base || Quiet(x.table, k, ss))
  }

  lemma {:induction false} ListSound<M(!new)>(env: Env<M>, x: Rewrite, k: nat, ss: seq<Stmt>, fr: Frame<M>, fuel: nat)
    requires x.Valid() && k < |x.table| && Sound(fr, x.ignored, fr) && MayRun(x, k, ss, fr.w)
    ensures Sound(ExecList(env, x.Reference(), k, ss, map[], fr, fuel).0, x.ignored, fr)
    decreases fuel, |x.table| - k, 3, |ss|
  {
    if ss != [] {
      if Quiet(x.table, k, ss) { assert Calls(x.table, k, ss[0]) == 0 && Calm(x.table, k, ss[0]); }
      StmtSound(env, x, k, ss[0], fr, fuel);
      ListSound(env, x, k, ss[1..], ExecStmt(env, x.Reference(), k, ss[0], fr, fuel).0, fuel);
    }
  }

  /** A statement of a list that may run. */
  ghost predicate StmtMayRun<M>(x: Rewrite, k: nat, s: Stmt, w: World<M>)
    requires k < |x.table|
  {
    && s.User? && (Registers(s) ==> s.own > 0) && !Bad(x.table, x.ignored, k, s)
    && (w.count == w.base || (s.own == 0 && Calm(x.table, k, s)))
  }

  lemma {:induction false} StmtSound<M(!new)>(env: Env<M>, x: Rewrite, k: nat, s: Stmt, fr: Frame<M>, fuel: nat)
    requires x.Valid() && k < |x.table| && Sound(fr, x.ignored, fr) && StmtMayRun(x, k, s, fr.w)
    ensures Sound(ExecStmt(env, x.Reference(), k, s, fr, fuel).0, x.ignored, fr)
    decreases fuel, |x.table| - k, 2, 0
  {
    if Marked(s, x.ignored) {
      UserSound(env, x, k, s, fr.(w := fr.w.(count := fr.w.count + 1)), fuel);
    } else {
      UserSound(env, x, k, s, fr, fuel);
    }
  }

  /** The statement makes its own calls at the right count, and what is nested in it may run. */
  ghost predicate InsideOk<M>(x: Rewrite, k: nat, s: Stmt, w: World<M>)
    requires k < |x.table| && s.User?
  {
    Level(w, s.id, s.own, x.ignored) && (w.count == w.base || Calm(x.table, k, s))
  }

  lemma {:induction false} UserSound<M(!new)>(env: Env<M>, x: Rewrite, k: nat, s: Stmt, fr: Frame<M>, fuel: nat)
    requires x.Valid() && k < |x.table| && s.User? && Sound(fr, x.ignored, fr) && InsideOk(x, k, s, fr.w)
    ensures Sound(ExecUser(env, x.Reference(), k, s, fr, fuel).0, x.ignored, fr)
    decreases fuel, |x.table| - k, 1, 1
  {
    HeadSound(env, x, s.id, 0, OwnCalls(s), fr.w, fuel);
    var (w1, flow) := Head(env, x.Reference(), s.id, 0, OwnCalls(s), fr.w, fuel);
    if flow == Next && !Registers(s) { FinishSound(env, x, k, s, fr.(w := w1), fuel); }
  }

  lemma {:induction false} FinishSound<M(!new)>(env: Env<M>, x: Rewrite, k: nat, s: Stmt, fr: Frame<M>, fuel: nat)
    requires x.Valid() && k < |x.table| && s.User? && Sound(fr, x.ignored, fr) && InsideOk(x, k, s, fr.w)
    ensures Sound(Finish(env, x.Reference(), k, s, fr, fuel).0, x.ignored, fr)
    decreases fuel, |x.table| - k, 1, 0
  {
    var (m, act) := env.act(s.id, fr.w.count > 0, fr.w.mem);
    var fr1 := fr.(w := fr.w.(mem := m));
    if act.Pick? && s.kind.Choice? && act.n < |s.kind.kids| { NestedSound(env, x, k, s, act.n, fr1, fuel); }
    if act.Pick? && s.kind.Loop? { RoundSound(env, x, k, s, fr1, fuel); }
  }

  /** A list nested in a statement. */
  lemma {:induction false} NestedSound<M(!new)>(
      env: Env<M>, x: Rewrite, k: nat, s: Stmt, i: nat, fr: Frame<M>, fuel: nat)
    requires x.Valid() && k < |x.table| && s.User? && Sound(fr, x.ignored, fr) && InsideOk(x, k, s, fr.w)
    requires i < |Kids(s)|
    ensures var c := Kids(s)[i];
            k < c < |x.table| ==> Sound(ExecList(env, x.Reference(), c, x.table[c], map[], fr, fuel).0, x.ignored, fr)
    decreases fuel, |x.table| - k, 0, 0
  {
    var c := Kids(s)[i];
    if k < c < |x.table| {
      assert ListAccepted(x.table, x.ignored, c);
      if fr.w.count != fr.w.base { QuietKid(x.table, k, Kids(s), i); }
      ListSound(env, x, c, x.table[c], fr, fuel);
    }
  }

  lemma {:induction false} RoundSound<M(!new)>(env: Env<M>, x: Rewrite, k: nat, s: Stmt, fr: Frame<M>, fuel: nat)
    requires x.Valid() && k < |x.table| && s.User? && s.kind.Loop? && Sound(fr, x.ignored, fr)
    requires InsideOk(x, k, s, fr.w)
    ensures Sound(Round(env, x.Reference(), k, s, fr, fuel).0, x.ignored, fr)
    decreases fuel, |x.table| - k, 0, 1
  {
    var c := s.kind.body;
    if k < c < |x.table| && fuel > 0 {
      NestedSound(env, x, k, s, 0, fr, fuel - 1);
      UserSound(env, x, k, s, ExecList(env, x.Reference(), c, x.table[c], map[], fr, fuel - 1).0, fuel - 1);
    }
  }

  // ---------------------------------------------------------------- main result

  /** Any call of a function of the rewritten file that comes to an end: it behaves as its source
      does when marked statements run in a suppressed scope, and its suppression count is back where
      it was.  At any depth, an own call of a statement with the directive is made at a count one
      higher than that of its activation, and every other call, deferred ones included, at that count. */
  lemma {:induction false} BracketingIsScoping<M(!new)>(
      env: Env<M>, x: Rewrite, f: nat, mem: M, count: int, base: int, fuel: nat)
    requires x.Valid()
    ensures var (w, flow) := Call(env, x.Actual(), f, World(mem, count, base, []), fuel);
            var (w', flow') := Call(env, x.Reference(), f, World(mem, count, base, []), fuel);
            flow == flow' && (flow == Next || flow.Panicked? || flow.Cut? || flow.Stuck?)
            && (flow == Next || flow.Panicked? ==> w == w' && w.count == count && TraceOk(w.trace, x.ignored))
  {
    CallAlike(env, x, f, World(mem, count, base, []), fuel);
    CallSound(env, x, f, World(mem, count, base, []), fuel);
  }
}
