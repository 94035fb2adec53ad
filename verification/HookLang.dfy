/** When may a trampoline jump be flattened?  The optimizer looks only at the text of the Before
    hook.  This module gives that text a meaning, for hooks with variables, assignment, closures
    that capture variables by reference, method values, lists, loops, panics and calls to any
    other code, and proves the syntactic check sound: an accepted hook returns with skip unset.
 */
module HookLang {

  const SET_SKIP := "SetSkipCall"

  // ---------------------------------------------------------------- syntax

  datatype Expr =
    | Lit(n: int)
    | Var(x: string)
    | Sel(base: Expr, name: string)                 // selector, called or used as a method value
    | Call(fun: Expr, args: seq<Expr>)
    | FuncLit(params: seq<string>, body: Code)
    | ListLit(elems: seq<Expr>)
    | Index(list: Expr, at: Expr)

  datatype Code =
    | Skip
    | Define(lhs: string, rhs: Expr)                // lhs := rhs
    | Assign(lhs: string, rhs: Expr)                // lhs = rhs
    | Do(e: Expr)
    | Then(first: Code, second: Code)
    | Block(inner: Code)
    | If(test: Expr, yes: Code, no: Code)
    | While(test: Expr, again: Code)
    | Return(e: Expr)
    | Panic

  /** The names of the parameters in order; "" stands for an unnamed one. */
  datatype Hook = Hook(params: seq<string>, body: Code)

  // ---------------------------------------------------------------- the check

  /** The first traversal: does `p.SetSkipCall` occur anywhere, called or not? */
  predicate MentionsSkip(p: string, e: Expr)
    decreases e, 1
  {
    match e
    case Lit(_) => false
    case Var(_) => false
    case Sel(b, name) => (b == Var(p) && name == SET_SKIP) || MentionsSkip(p, b)
    case Call(f, args) => MentionsSkip(p, f) || AnyMentionsSkip(p, args)
    case FuncLit(_, body) => CodeMentionsSkip(p, body)
    case ListLit(es) => AnyMentionsSkip(p, es)
    case Index(l, i) => MentionsSkip(p, l) || MentionsSkip(p, i)
  }

  predicate AnyMentionsSkip(p: string, es: seq<Expr>)
    decreases es, 0
  {
    es != [] && (MentionsSkip(p, es[0]) || AnyMentionsSkip(p, es[1..]))
  }

  predicate CodeMentionsSkip(p: string, s: Code)
    decreases s, 1
  {
    match s
    case Skip => false
    case Define(_, e) => MentionsSkip(p, e)
    case Assign(_, e) => MentionsSkip(p, e)
    case Do(e) => MentionsSkip(p, e)
    case Then(a, b) => CodeMentionsSkip(p, a) || CodeMentionsSkip(p, b)
    case Block(a) => CodeMentionsSkip(p, a)
    case If(t, a, b) => MentionsSkip(p, t) || CodeMentionsSkip(p, a) || CodeMentionsSkip(p, b)
    case While(t, a) => MentionsSkip(p, t) || CodeMentionsSkip(p, a)
    case Return(e) => MentionsSkip(p, e)
    case Panic => false
  }

  /** The second traversal: does the identifier `p` occur other than to the left of a selector?
      Every identifier counts, binding occurrences and selected names included. */
  predicate Escapes(p: string, e: Expr)
    decreases e, 1
  {
    match e
    case Lit(_) => false
    case Var(x) => x == p
    case Sel(b, name) => b != Var(p) && (name == p || Escapes(p, b))
    case Call(f, args) => Escapes(p, f) || AnyEscapes(p, args)
    case FuncLit(params, body) => p in params || CodeEscapes(p, body)
    case ListLit(es) => AnyEscapes(p, es)
    case Index(l, i) => Escapes(p, l) || Escapes(p, i)
  }

  predicate AnyEscapes(p: string, es: seq<Expr>)
    decreases es, 0
  {
    es != [] && (Escapes(p, es[0]) || AnyEscapes(p, es[1..]))
  }

  predicate CodeEscapes(p: string, s: Code)
    decreases s, 1
  {
    match s
    case Skip => false
    case Define(x, e) => x == p || Escapes(p, e)
    case Assign(x, e) => x == p || Escapes(p, e)
    case Do(e) => Escapes(p, e)
    case Then(a, b) => CodeEscapes(p, a) || CodeEscapes(p, b)
    case Block(a) => CodeEscapes(p, a)
    case If(t, a, b) => Escapes(p, t) || CodeEscapes(p, a) || CodeEscapes(p, b)
    case While(t, a) => Escapes(p, t) || CodeEscapes(p, a)
    case Return(e) => Escapes(p, e)
    case Panic => false
  }

  predicate CanFlatten(h: Hook) {
    if h.params == [] || h.params[0] == "" then true
    else if CodeMentionsSkip(h.params[0], h.body) then false
    else if h.params[0] == "_" then true
    else !CodeEscapes(h.params[0], h.body)
  }

  // ---------------------------------------------------------------- what the check accepts

  /** Everything selected from an identifier, as pairs of the two names. */
  function Selections(e: Expr): set<(string, string)>
    decreases e, 1
  {
    match e
    case Lit(_) => {}
    case Var(_) => {}
    case Sel(b, name) => (if b.Var? then {(b.x, name)} else {}) + Selections(b)
    case Call(f, args) => Selections(f) + AllSelections(args)
    case FuncLit(_, body) => CodeSelections(body)
    case ListLit(es) => AllSelections(es)
    case Index(l, i) => Selections(l) + Selections(i)
  }

  function AllSelections(es: seq<Expr>): set<(string, string)>
    decreases es, 0
  {
    if es == [] then {} else Selections(es[0]) + AllSelections(es[1..])
  }

  function CodeSelections(s: Code): set<(string, string)>
    decreases s, 1
  {
    match s
    case Skip => {}
    case Define(_, e) => Selections(e)
    case Assign(_, e) => Selections(e)
    case Do(e) => Selections(e)
    case Then(a, b) => CodeSelections(a) + CodeSelections(b)
    case Block(a) => CodeSelections(a)
    case If(t, a, b) => Selections(t) + CodeSelections(a) + CodeSelections(b)
    case While(t, a) => Selections(t) + CodeSelections(a)
    case Return(e) => Selections(e)
    case Panic => {}
  }

  /** All identifiers of a text. */
  function Idents(e: Expr): set<string>
    decreases e, 1
  {
    match e
    case Lit(_) => {}
    case Var(x) => {x}
    case Sel(b, name) => {name} + Idents(b)
    case Call(f, args) => Idents(f) + AllIdents(args)
    case FuncLit(params, body) => (set x | x in params) + CodeIdents(body)
    case ListLit(es) => AllIdents(es)
    case Index(l, i) => Idents(l) + Idents(i)
  }

  function AllIdents(es: seq<Expr>): set<string>
    decreases es, 0
  {
    if es == [] then {} else Idents(es[0]) + AllIdents(es[1..])
  }

  function CodeIdents(s: Code): set<string>
    decreases s, 1
  {
    match s
    case Skip => {}
    case Define(x, e) => {x} + Idents(e)
    case Assign(x, e) => {x} + Idents(e)
    case Do(e) => Idents(e)
    case Then(a, b) => CodeIdents(a) + CodeIdents(b)
    case Block(a) => CodeIdents(a)
    case If(t, a, b) => Idents(t) + CodeIdents(a) + CodeIdents(b)
    case While(t, a) => Idents(t) + CodeIdents(a)
    case Return(e) => Idents(e)
    case Panic => {}
  }

  /** The text with a literal in the place of everything that is selected from p. */
  function Erase(p: string, e: Expr): Expr
    decreases e, 1
  {
    match e
    case Lit(_) => e
    case Var(_) => e
    case Sel(b, name) => if b == Var(p) then Lit(0) else Sel(Erase(p, b), name)
    case Call(f, args) => Call(Erase(p, f), EraseAll(p, args))
    case FuncLit(params, body) => FuncLit(params, EraseCode(p, body))
    case ListLit(es) => ListLit(EraseAll(p, es))
    case Index(l, i) => Index(Erase(p, l), Erase(p, i))
  }

  function EraseAll(p: string, es: seq<Expr>): seq<Expr>
    decreases es, 0
  {
    if es == [] then [] else [Erase(p, es[0])] + EraseAll(p, es[1..])
  }

  function EraseCode(p: string, s: Code): Code
    decreases s, 1
  {
    match s
    case Skip => s
    case Define(x, e) => Define(x, Erase(p, e))
    case Assign(x, e) => Assign(x, Erase(p, e))
    case Do(e) => Do(Erase(p, e))
    case Then(a, b) => Then(EraseCode(p, a), EraseCode(p, b))
    case Block(a) => Block(EraseCode(p, a))
    case If(t, a, b) => If(Erase(p, t), EraseCode(p, a), EraseCode(p, b))
    case While(t, a) => While(Erase(p, t), EraseCode(p, a))
    case Return(e) => Return(Erase(p, e))
    case Panic => s
  }

  /** The hook has no name for its context; or it never selects SetSkipCall from it, and does nothing
      with it but select methods: with those selections erased, the name is gone. */
  predicate OnlyOtherMethods(h: Hook) {
    if h.params == [] then true
    else
      var p := h.params[0];
      p == "" || ((p, SET_SKIP) !in CodeSelections(h.body) && (p == "_" || p !in CodeIdents(EraseCode(p, h.body))))
  }

  lemma {:induction false} MentionsMeans(p: string, e: Expr)
    ensures MentionsSkip(p, e) <==> (p, SET_SKIP) in Selections(e)
    decreases e, 1
  {
    match e
    case Lit(_) =>
    case Var(_) =>
    case Sel(b, _) => MentionsMeans(p, b);
    case Call(f, args) =>
      MentionsMeans(p, f);
      AnyMentionsMeans(p, args);
    case FuncLit(_, body) => CodeMentionsMeans(p, body);
    case ListLit(es) => AnyMentionsMeans(p, es);
    case Index(l, i) =>
      MentionsMeans(p, l);
      MentionsMeans(p, i);
  }

  lemma {:induction false} AnyMentionsMeans(p: string, es: seq<Expr>)
    ensures AnyMentionsSkip(p, es) <==> (p, SET_SKIP) in AllSelections(es)
    decreases es, 0
  {
    if es != [] {
      MentionsMeans(p, es[0]);
      AnyMentionsMeans(p, es[1..]);
    }
  }

  lemma {:induction false} CodeMentionsMeans(p: string, s: Code)
    ensures CodeMentionsSkip(p, s) <==> (p, SET_SKIP) in CodeSelections(s)
    decreases s, 1
  {
    match s
    case Skip =>
    case Define(_, e) => MentionsMeans(p, e);
    case Assign(_, e) => MentionsMeans(p, e);
    case Do(e) => MentionsMeans(p, e);
    case Then(a, b) =>
      CodeMentionsMeans(p, a);
      CodeMentionsMeans(p, b);
    case Block(a) => CodeMentionsMeans(p, a);
    case If(t, a, b) =>
      MentionsMeans(p, t);
      CodeMentionsMeans(p, a);
      CodeMentionsMeans(p, b);
    case While(t, a) =>
      MentionsMeans(p, t);
      CodeMentionsMeans(p, a);
    case Return(e) => MentionsMeans(p, e);
    case Panic =>
  }

  lemma {:induction false} EscapesMeans(p: string, e: Expr)
    ensures Escapes(p, e) <==> p in Idents(Erase(p, e))
    decreases e, 1
  {
    match e
    case Lit(_) =>
    case Var(_) =>
    case Sel(b, _) => if b != Var(p) { EscapesMeans(p, b); }
    case Call(f, args) =>
      EscapesMeans(p, f);
      AnyEscapesMeans(p, args);
    case FuncLit(_, body) => CodeEscapesMeans(p, body);
    case ListLit(es) => AnyEscapesMeans(p, es);
    case Index(l, i) =>
      EscapesMeans(p, l);
      EscapesMeans(p, i);
  }

  lemma {:induction false} AnyEscapesMeans(p: string, es: seq<Expr>)
    ensures AnyEscapes(p, es) <==> p in AllIdents(EraseAll(p, es))
    decreases es, 0
  {
    if es != [] {
      EscapesMeans(p, es[0]);
      AnyEscapesMeans(p, es[1..]);
      assert EraseAll(p, es)[1..] == EraseAll(p, es[1..]);
    }
  }

  lemma {:induction false} CodeEscapesMeans(p: string, s: Code)
    ensures CodeEscapes(p, s) <==> p in CodeIdents(EraseCode(p, s))
    decreases s, 1
  {
    match s
    case Skip =>
    case Define(_, e) => EscapesMeans(p, e);
    case Assign(_, e) => EscapesMeans(p, e);
    case Do(e) => EscapesMeans(p, e);
    case Then(a, b) =>
      CodeEscapesMeans(p, a);
      CodeEscapesMeans(p, b);
    case Block(a) => CodeEscapesMeans(p, a);
    case If(t, a, b) =>
      EscapesMeans(p, t);
      CodeEscapesMeans(p, a);
      CodeEscapesMeans(p, b);
    case While(t, a) =>
      EscapesMeans(p, t);
      CodeEscapesMeans(p, a);
    case Return(e) => EscapesMeans(p, e);
    case Panic =>
  }

  /** The check accepts exactly the hooks that use nothing of their context but other methods. */
  lemma {:induction false} AcceptsExactly(h: Hook)
    ensures CanFlatten(h) <==> OnlyOtherMethods(h)
  {
    if h.params != [] {
      CodeMentionsMeans(h.params[0], h.body);
      CodeEscapesMeans(h.params[0], h.body);
    }
  }

  // ---------------------------------------------------------------- meaning

  type Env = map<string, nat>

  datatype Value =
    | Num(n: int)
    | CtxRef(ctx: nat)
    | Method(ctx: nat, name: string)
    | Clos(env: Env, params: seq<string>, body: Code)
    | List(elems: seq<Value>)

  /** `slots[c]` are the locations of the arguments and results that context c points to;
      `skips[c]` is its skip flag. */
  datatype State = State(store: seq<Value>, globals: Env, data: map<nat, Value>, slots: map<nat, seq<nat>>,
      skips: seq<bool>)

  datatype Result = Ok(v: Value, s: State) | Abort(s: State)
  datatype Results = Oks(vs: seq<Value>, s: State) | Aborts(s: State)
  datatype Flow = Norm(env: Env, s: State) | Ret(v: Value, s: State) | Stop(s: State)

  function Bind(env: Env, params: seq<string>, from: nat): Env
    decreases |params|
  {
    if params == [] then env
    else Bind(if params[0] == "" || params[0] == "_" then env else env[params[0] := from], params[1..], from + 1)
  }

  predicate Truthy(v: Value) { v.Num? && v.n != 0 }

  function Slot(s: State, c: nat, i: Value): int {
    if c in s.slots && i.Num? && 0 <= i.n < |s.slots[c]| then s.slots[c][i.n] else -1
  }

  function Invoke(c: nat, m: string, args: seq<Value>, s: State): Result {
    if m == SET_SKIP then
      if |args| == 1 && c < |s.skips| then Ok(Num(0), s.(skips := s.skips[c := Truthy(args[0])])) else Abort(s)
    else if m == "IsSkipCall" then
      if c < |s.skips| && s.skips[c] then Ok(Num(1), s) else Ok(Num(0), s)
    else if m == "SetData" then
      if |args| == 1 then Ok(Num(0), s.(data := s.data[c := args[0]])) else Abort(s)
    else if m == "GetData" then
      Ok(if c in s.data then s.data[c] else Num(0), s)
    else if m == "SetParam" || m == "SetReturnVal" then
      if |args| != 2 then Abort(s)
      else
        var k := Slot(s, c, args[0]);
        if 0 <= k < |s.store| then Ok(Num(0), s.(store := s.store[k := args[1]])) else Ok(Num(0), s)
    else if m == "GetParam" || m == "GetReturnVal" then
      if |args| != 1 then Abort(s)
      else
        var k := Slot(s, c, args[0]);
        Ok(if 0 <= k < |s.store| then s.store[k] else Num(0), s)
    else Ok(Num(0), s)
  }

  function Returned(r: Flow): Result {
    match r
    case Norm(_, s) => Ok(Num(0), s)
    case Ret(v, s) => Ok(v, s)
    case Stop(s) => Abort(s)
  }

  function Apply(f: Value, args: seq<Value>, s: State, fuel: nat): Result
    decreases fuel, 0, Lit(0), 0
  {
    match f
    case Method(c, m) => Invoke(c, m, args, s)
    case Clos(env, params, body) =>
      if |args| != |params| || fuel == 0 then Abort(s)
      else
        Returned(Exec(body, Bind(env, params, |s.store|), s.(store := s.store + args), fuel - 1))
    case _ => Abort(s)
  }

  function Eval(e: Expr, env: Env, s: State, fuel: nat): Result
    decreases fuel, 1, e, 1
  {
    match e
    case Lit(n) => Ok(Num(n), s)
    case Var(x) => if x in env && env[x] < |s.store| then Ok(s.store[env[x]], s) else Abort(s)
    case Sel(b, name) =>
      (match Eval(b, env, s, fuel)
       case Abort(s1) => Abort(s1)
       case Ok(v, s1) => if v.CtxRef? then Ok(Method(v.ctx, name), s1) else Abort(s1))
    case Call(f, args) =>
      (match Eval(f, env, s, fuel)
       case Abort(s1) => Abort(s1)
       case Ok(fv, s1) =>
         match EvalAll(args, env, s1, fuel)
         case Aborts(s2) => Abort(s2)
         case Oks(vs, s2) => Apply(fv, vs, s2, fuel))
    case FuncLit(params, body) => Ok(Clos(env, params, body), s)
    case ListLit(es) =>
      (match EvalAll(es, env, s, fuel)
       case Aborts(s1) => Abort(s1)
       case Oks(vs, s1) => Ok(List(vs), s1))
    case Index(l, i) =>
      (match Eval(l, env, s, fuel)
       case Abort(s1) => Abort(s1)
       case Ok(lv, s1) =>
         match Eval(i, env, s1, fuel)
         case Abort(s2) => Abort(s2)
         case Ok(iv, s2) =>
           if lv.List? && iv.Num? && 0 <= iv.n < |lv.elems| then Ok(lv.elems[iv.n], s2) else Abort(s2))
  }

  function EvalAll(es: seq<Expr>, env: Env, s: State, fuel: nat): Results
    decreases fuel, 1, es, 0
  {
    if es == [] then Oks([], s)
    else
      match Eval(es[0], env, s, fuel)
      case Abort(s1) => Aborts(s1)
      case Ok(v, s1) =>
        match EvalAll(es[1..], env, s1, fuel)
        case Aborts(s2) => Aborts(s2)
        case Oks(vs, s2) => Oks([v] + vs, s2)
  }

  function Exec(c: Code, env: Env, s: State, fuel: nat): Flow
    decreases fuel, 1, c, 1
  {
    match c
    case Skip => Norm(env, s)
    case Panic => Stop(s)
    case Do(e) =>
      (match Eval(e, env, s, fuel)
       case Abort(s1) => Stop(s1)
       case Ok(_, s1) => Norm(env, s1))
    case Define(x, e) =>
      (match Eval(e, env, s, fuel)
       case Abort(s1) => Stop(s1)
       case Ok(v, s1) => Norm(Bind(env, [x], |s1.store|), s1.(store := s1.store + [v])))
    case Assign(x, e) =>
      (match Eval(e, env, s, fuel)
       case Abort(s1) => Stop(s1)
       case Ok(v, s1) =>
         if x == "_" then Norm(env, s1)
         else if x in env && env[x] < |s1.store| then Norm(env, s1.(store := s1.store[env[x] := v]))
         else Stop(s1))
    case Return(e) =>
      (match Eval(e, env, s, fuel)
       case Abort(s1) => Stop(s1)
       case Ok(v, s1) => Ret(v, s1))
    case Then(a, b) =>
      (match Exec(a, env, s, fuel)
       case Norm(env1, s1) => Exec(b, env1, s1, fuel)
       case r => r)
    case Block(a) =>
      (match Exec(a, env, s, fuel)
       case Norm(_, s1) => Norm(env, s1)
       case r => r)
    case If(t, a, b) =>
      (match Eval(t, env, s, fuel)
       case Abort(s1) => Stop(s1)
       case Ok(v, s1) =>
         match (if Truthy(v) then Exec(a, env, s1, fuel) else Exec(b, env, s1, fuel))
         case Norm(_, s2) => Norm(env, s2)
         case r => r)
    case While(t, a) =>
      (match Eval(t, env, s, fuel)
       case Abort(s1) => Stop(s1)
       case Ok(v, s1) =>
         if !Truthy(v) then Norm(env, s1)
         else if fuel == 0 then Stop(s1)
         else
           match Exec(a, env, s1, fuel - 1)
           case Norm(_, s2) => Exec(c, env, s2, fuel - 1)
           case r => r)
  }

  /** Call a hook on context c.  The flag says that it did not return normally, whether by a panic
      or because it needs more than `fuel` nested calls and loop rounds. */
  function RunHook(h: Hook, c: nat, args: seq<Value>, s: State, fuel: nat): (State, bool) {
    var env := Bind(s.globals, h.params, |s.store|);
    match Exec(h.body, env, s.(store := s.store + [CtxRef(c)] + args), fuel)
    case Norm(_, s1) => (s1, false)
    case Ret(_, s1) => (s1, false)
    case Stop(s1) => (s1, true)
  }

  // ---------------------------------------------------------------- invariant

  /** The one context the hook must not touch, where its parameter lives, and the name it has.
      `NoWatch` watches nothing. */
  datatype Watch = NoWatch | Watch(ctx: nat, loc: nat, p: string)

  predicate ExprOk(w: Watch, e: Expr) {
    w.Watch? ==> !MentionsSkip(w.p, e) && !Escapes(w.p, e)
  }

  predicate CodeOk(w: Watch, c: Code) {
    w.Watch? ==> !CodeMentionsSkip(w.p, c) && !CodeEscapes(w.p, c)
  }

  /** Only the watched name may denote the watched location. */
  ghost predicate Sees(w: Watch, env: Env) {
    w.Watch? && w.p in env && env[w.p] == w.loc
  }

  ghost predicate EnvOk(w: Watch, env: Env, size: nat) {
    && (forall x :: x in env ==> env[x] < size)
    && (w.Watch? ==> forall x :: x in env && env[x] == w.loc ==> x == w.p)
  }

  ghost predicate ValueOk(w: Watch, size: nat, ctxs: nat, v: Value)
    decreases v
  {
    match v
    case Num(_) => true
    case CtxRef(c) => c < ctxs && !(w.Watch? && c == w.ctx)
    case Method(c, m) => c < ctxs && (w.Watch? && c == w.ctx ==> m != SET_SKIP)
    case Clos(env, params, body) => EnvOk(w, env, size) && (Sees(w, env) ==> ExprOk(w, FuncLit(params, body)))
    case List(vs) => forall i :: 0 <= i < |vs| ==> ValueOk(w, size, ctxs, vs[i])
  }

  ghost predicate AllOk(w: Watch, size: nat, ctxs: nat, vs: seq<Value>) {
    forall i :: 0 <= i < |vs| ==> ValueOk(w, size, ctxs, vs[i])
  }

  ghost predicate StateOk(w: Watch, s: State) {
    && EnvOk(w, s.globals, |s.store|)
    && (forall i :: 0 <= i < |s.store| && !(w.Watch? && i == w.loc) ==> ValueOk(w, |s.store|, |s.skips|, s.store[i]))
    && (forall d :: d in s.data ==> ValueOk(w, |s.store|, |s.skips|, s.data[d]))
    && (forall d :: d in s.slots ==> forall i :: 0 <= i < |s.slots[d]| ==>
      s.slots[d][i] < |s.store| && !(w.Watch? && s.slots[d][i] == w.loc))
    && (w.Watch? ==> w.loc < |s.store| && s.store[w.loc] == CtxRef(w.ctx) && w.ctx < |s.skips| && !s.skips[w.ctx])
  }

  /** Running never forgets locations, contexts or globals. */
  predicate Grows(s: State, s1: State) {
    |s.store| <= |s1.store| && |s.skips| == |s1.skips| && s.globals == s1.globals && s.slots == s1.slots
  }

  lemma {:induction false} ValueMono(w: Watch, size: nat, size': nat, ctxs: nat, v: Value)
    requires ValueOk(w, size, ctxs, v) && size <= size'
    ensures ValueOk(w, size', ctxs, v)
    decreases v
  {
    if v.List? {
      forall i | 0 <= i < |v.elems| ensures ValueOk(w, size', ctxs, v.elems[i]) {
        ValueMono(w, size, size', ctxs, v.elems[i]);
      }
    }
  }

  lemma {:induction false} PushOk(w: Watch, s: State, vs: seq<Value>)
    requires StateOk(w, s) && AllOk(w, |s.store|, |s.skips|, vs)
    ensures StateOk(w, s.(store := s.store + vs))
  {
    var n := |s.store| + |vs|;
    forall i | 0 <= i < n && !(w.Watch? && i == w.loc) ensures ValueOk(w, n, |s.skips|, (s.store + vs)[i]) {
      ValueMono(w, |s.store|, n, |s.skips|, (s.store + vs)[i]);
    }
    forall d | d in s.data ensures ValueOk(w, n, |s.skips|, s.data[d]) {
      ValueMono(w, |s.store|, n, |s.skips|, s.data[d]);
    }
  }

  lemma {:induction false} BindOk(w: Watch, env: Env, params: seq<string>, from: nat, size: nat)
    requires EnvOk(w, env, size) && from + |params| <= size && (w.Watch? ==> w.loc < from)
    ensures EnvOk(w, Bind(env, params, from), size)
    ensures Sees(w, Bind(env, params, from)) ==> Sees(w, env)
    decreases |params|
  {
    if params != [] {
      var env1 := if params[0] == "" || params[0] == "_" then env else env[params[0] := from];
      BindOk(w, env1, params[1..], from + 1, size);
    }
  }

  lemma {:induction false} InvokeOk(w: Watch, c: nat, m: string, args: seq<Value>, s: State)
    requires StateOk(w, s) && c < |s.skips| && AllOk(w, |s.store|, |s.skips|, args)
    requires w.Watch? && c == w.ctx ==> m != SET_SKIP
    ensures var r := Invoke(c, m, args, s);
            StateOk(w, r.s) && Grows(s, r.s) && (r.Ok? ==> ValueOk(w, |r.s.store|, |r.s.skips|, r.v))
  {
    if (m == "SetParam" || m == "SetReturnVal") && |args| == 2 {
      var k := Slot(s, c, args[0]);
      if 0 <= k < |s.store| { StoreOk(w, s, k, args[1]); }
    } else if m == "SetData" && |args| == 1 {
      DataOk(w, s, c, args[0]);
    } else if m == SET_SKIP && |args| == 1 {
      SkipOk(w, s, c, Truthy(args[0]));
    }
  }

  lemma {:induction false} DataOk(w: Watch, s: State, c: nat, v: Value)
    requires StateOk(w, s) && ValueOk(w, |s.store|, |s.skips|, v)
    ensures StateOk(w, s.(data := s.data[c := v]))
  {
  }

  lemma {:induction false} SkipOk(w: Watch, s: State, c: nat, skip: bool)
    requires StateOk(w, s) && c < |s.skips| && !(w.Watch? && c == w.ctx)
    ensures StateOk(w, s.(skips := s.skips[c := skip]))
  {
  }

  lemma {:induction false} StoreOk(w: Watch, s: State, k: nat, v: Value)
    requires StateOk(w, s) && k < |s.store| && !(w.Watch? && k == w.loc) && ValueOk(w, |s.store|, |s.skips|, v)
    ensures StateOk(w, s.(store := s.store[k := v]))
  {
  }

  lemma {:induction false} ApplyOk(w: Watch, f: Value, args: seq<Value>, s: State, fuel: nat)
    requires StateOk(w, s) && ValueOk(w, |s.store|, |s.skips|, f) && AllOk(w, |s.store|, |s.skips|, args)
    ensures var r := Apply(f, args, s, fuel);
            StateOk(w, r.s) && Grows(s, r.s) && (r.Ok? ==> ValueOk(w, |r.s.store|, |r.s.skips|, r.v))
    decreases fuel, 0, Lit(0), 0
  {
    if f.Method? {
      InvokeOk(w, f.ctx, f.name, args, s);
    } else if f.Clos? && |args| == |f.params| && fuel > 0 {
      PushOk(w, s, args);
      var s1 := s.(store := s.store + args);
      BindOk(w, f.env, f.params, |s.store|, |s1.store|);
      ExecOk(w, f.body, Bind(f.env, f.params, |s.store|), s1, fuel - 1);
    }
  }

  lemma {:induction false} EvalOk(w: Watch, e: Expr, env: Env, s: State, fuel: nat)
    requires StateOk(w, s) && EnvOk(w, env, |s.store|) && (Sees(w, env) ==> ExprOk(w, e))
    ensures var r := Eval(e, env, s, fuel);
            StateOk(w, r.s) && Grows(s, r.s) && (r.Ok? ==> ValueOk(w, |r.s.store|, |r.s.skips|, r.v))
    decreases fuel, 1, e, 1
  {
    match e
    case Lit(_) =>
    case Var(x) =>
    case FuncLit(_, _) =>
    case Sel(b, name) =>
      if Sees(w, env) && b == Var(w.p) {
        assert name != SET_SKIP;
      } else {
        EvalOk(w, b, env, s, fuel);
      }
      SelectOk(w, b, name, env, s, fuel);
    case Call(f, args) => CallOk(w, e, env, s, fuel);
    case ListLit(es) =>
      EvalAllOk(w, es, env, s, fuel);
    case Index(l, i) => IndexOk(w, e, env, s, fuel);
  }

  lemma {:induction false} CallOk(w: Watch, e: Expr, env: Env, s: State, fuel: nat)
    requires e.Call? && StateOk(w, s) && EnvOk(w, env, |s.store|) && (Sees(w, env) ==> ExprOk(w, e))
    ensures var r := Eval(e, env, s, fuel);
            StateOk(w, r.s) && Grows(s, r.s) && (r.Ok? ==> ValueOk(w, |r.s.store|, |r.s.skips|, r.v))
    decreases fuel, 1, e, 0
  {
    EvalOk(w, e.fun, env, s, fuel);
    var r1 := Eval(e.fun, env, s, fuel);
    if r1.Ok? {
      EvalAllOk(w, e.args, env, r1.s, fuel);
      var r2 := EvalAll(e.args, env, r1.s, fuel);
      if r2.Oks? {
        ValueMono(w, |r1.s.store|, |r2.s.store|, |r1.s.skips|, r1.v);
        ApplyOk(w, r1.v, r2.vs, r2.s, fuel);
      }
    }
  }

  lemma {:induction false} IndexOk(w: Watch, e: Expr, env: Env, s: State, fuel: nat)
    requires e.Index? && StateOk(w, s) && EnvOk(w, env, |s.store|) && (Sees(w, env) ==> ExprOk(w, e))
    ensures var r := Eval(e, env, s, fuel);
            StateOk(w, r.s) && Grows(s, r.s) && (r.Ok? ==> ValueOk(w, |r.s.store|, |r.s.skips|, r.v))
    decreases fuel, 1, e, 0
  {
    EvalOk(w, e.list, env, s, fuel);
    var r1 := Eval(e.list, env, s, fuel);
    if r1.Ok? {
      EvalOk(w, e.at, env, r1.s, fuel);
      var r2 := Eval(e.at, env, r1.s, fuel);
      ValueMono(w, |r1.s.store|, |r2.s.store|, |r1.s.skips|, r1.v);
    }
  }

  /** A selector on the watched parameter yields a harmless method value of the watched context. */
  lemma {:induction false} SelectOk(w: Watch, b: Expr, name: string, env: Env, s: State, fuel: nat)
    requires StateOk(w, s) && EnvOk(w, env, |s.store|)
    requires Sees(w, env) && b == Var(w.p) ==> name != SET_SKIP
    requires !(Sees(w, env) && b == Var(w.p)) ==>
               var r := Eval(b, env, s, fuel);
               StateOk(w, r.s) && Grows(s, r.s) && (r.Ok? ==> ValueOk(w, |r.s.store|, |r.s.skips|, r.v))
    ensures var r := Eval(Sel(b, name), env, s, fuel);
            StateOk(w, r.s) && Grows(s, r.s) && (r.Ok? ==> ValueOk(w, |r.s.store|, |r.s.skips|, r.v))
  {
  }

  lemma {:induction false} EvalAllOk(w: Watch, es: seq<Expr>, env: Env, s: State, fuel: nat)
    requires StateOk(w, s) && EnvOk(w, env, |s.store|)
    requires Sees(w, env) ==> !AnyMentionsSkip(w.p, es) && !AnyEscapes(w.p, es)
    ensures var r := EvalAll(es, env, s, fuel);
            StateOk(w, r.s) && Grows(s, r.s) && (r.Oks? ==> AllOk(w, |r.s.store|, |r.s.skips|, r.vs))
    decreases fuel, 1, es, 0
  {
    if es != [] {
      EvalOk(w, es[0], env, s, fuel);
      var r1 := Eval(es[0], env, s, fuel);
      if r1.Ok? {
        EvalAllOk(w, es[1..], env, r1.s, fuel);
        var r2 := EvalAll(es[1..], env, r1.s, fuel);
        ValueMono(w, |r1.s.store|, |r2.s.store|, |r1.s.skips|, r1.v);
      }
    }
  }

  ghost predicate FlowOk(w: Watch, s: State, r: Flow) {
    && StateOk(w, r.s) && Grows(s, r.s)
    && (r.Norm? ==> EnvOk(w, r.env, |r.s.store|))
    && (r.Ret? ==> ValueOk(w, |r.s.store|, |r.s.skips|, r.v))
  }

  lemma {:induction false} ExecOk(w: Watch, c: Code, env: Env, s: State, fuel: nat)
    requires StateOk(w, s) && EnvOk(w, env, |s.store|) && (Sees(w, env) ==> CodeOk(w, c))
    ensures var r := Exec(c, env, s, fuel);
            FlowOk(w, s, r) && (r.Norm? && Sees(w, r.env) ==> Sees(w, env))
    decreases fuel, 1, c, 1
  {
    match c
    case Skip =>
    case Panic =>
    case Do(e) => EvalOk(w, e, env, s, fuel);
    case Return(e) => EvalOk(w, e, env, s, fuel);
    case Define(_, _) => DefineOk(w, c, env, s, fuel);
    case Assign(_, _) => AssignOk(w, c, env, s, fuel);
    case Then(a, b) => ThenOk(w, c, env, s, fuel);
    case Block(a) => ExecOk(w, a, env, s, fuel);
    case If(t, a, b) => IfOk(w, c, env, s, fuel);
    case While(t, a) => WhileOk(w, c, env, s, fuel);
  }

  lemma {:induction false} DefineOk(w: Watch, c: Code, env: Env, s: State, fuel: nat)
    requires c.Define? && StateOk(w, s) && EnvOk(w, env, |s.store|) && (Sees(w, env) ==> CodeOk(w, c))
    ensures var r := Exec(c, env, s, fuel);
            FlowOk(w, s, r) && (r.Norm? && Sees(w, r.env) ==> Sees(w, env))
    decreases fuel, 1, c, 0
  {
    EvalOk(w, c.rhs, env, s, fuel);
    var r := Eval(c.rhs, env, s, fuel);
    if r.Ok? {
      PushOk(w, r.s, [r.v]);
      BindOk(w, env, [c.lhs], |r.s.store|, |r.s.store| + 1);
    }
  }

  lemma {:induction false} AssignOk(w: Watch, c: Code, env: Env, s: State, fuel: nat)
    requires c.Assign? && StateOk(w, s) && EnvOk(w, env, |s.store|) && (Sees(w, env) ==> CodeOk(w, c))
    ensures var r := Exec(c, env, s, fuel);
            FlowOk(w, s, r) && (r.Norm? && Sees(w, r.env) ==> Sees(w, env))
    decreases fuel, 1, c, 0
  {
    EvalOk(w, c.rhs, env, s, fuel);
    var r := Eval(c.rhs, env, s, fuel);
    if r.Ok? && c.lhs in env && env[c.lhs] < |r.s.store| && c.lhs != "_" {
      StoreOk(w, r.s, env[c.lhs], r.v);
    }
  }

  lemma {:induction false} ThenOk(w: Watch, c: Code, env: Env, s: State, fuel: nat)
    requires c.Then? && StateOk(w, s) && EnvOk(w, env, |s.store|) && (Sees(w, env) ==> CodeOk(w, c))
    ensures var r := Exec(c, env, s, fuel);
            FlowOk(w, s, r) && (r.Norm? && Sees(w, r.env) ==> Sees(w, env))
    decreases fuel, 1, c, 0
  {
    ExecOk(w, c.first, env, s, fuel);
    var r := Exec(c.first, env, s, fuel);
    if r.Norm? { ExecOk(w, c.second, r.env, r.s, fuel); }
  }

  lemma {:induction false} IfOk(w: Watch, c: Code, env: Env, s: State, fuel: nat)
    requires c.If? && StateOk(w, s) && EnvOk(w, env, |s.store|) && (Sees(w, env) ==> CodeOk(w, c))
    ensures var r := Exec(c, env, s, fuel);
            FlowOk(w, s, r) && (r.Norm? && Sees(w, r.env) ==> Sees(w, env))
    decreases fuel, 1, c, 0
  {
    EvalOk(w, c.test, env, s, fuel);
    var r := Eval(c.test, env, s, fuel);
    if r.Ok? {
      var chosen := if Truthy(r.v) then c.yes else c.no;
      ExecOk(w, chosen, env, r.s, fuel);
    }
  }

  lemma {:induction false} WhileOk(w: Watch, c: Code, env: Env, s: State, fuel: nat)
    requires c.While? && StateOk(w, s) && EnvOk(w, env, |s.store|) && (Sees(w, env) ==> CodeOk(w, c))
    ensures var r := Exec(c, env, s, fuel);
            FlowOk(w, s, r) && (r.Norm? && Sees(w, r.env) ==> Sees(w, env))
    decreases fuel, 1, c, 0
  {
    EvalOk(w, c.test, env, s, fuel);
    var r := Eval(c.test, env, s, fuel);
    if r.Ok? && Truthy(r.v) && fuel > 0 { RoundOk(w, c, env, r.s, fuel); }
  }

  /** What one more round of a loop comes to. */
  function Round(c: Code, env: Env, s: State, fuel: nat): Flow
    requires c.While? && fuel > 0
  {
    match Exec(c.again, env, s, fuel - 1)
    case Norm(_, s2) => Exec(c, env, s2, fuel - 1)
    case r => r
  }

  lemma {:induction false} RoundOk(w: Watch, c: Code, env: Env, s: State, fuel: nat)
    requires c.While? && fuel > 0 && StateOk(w, s) && EnvOk(w, env, |s.store|) && (Sees(w, env) ==> CodeOk(w, c))
    ensures var r := Round(c, env, s, fuel);
            FlowOk(w, s, r) && (r.Norm? && Sees(w, r.env) ==> Sees(w, env))
    decreases fuel, 0
  {
    ExecOk(w, c.again, env, s, fuel - 1);
    var r2 := Exec(c.again, env, s, fuel - 1);
    if r2.Norm? { ExecOk(w, c, env, r2.s, fuel - 1); }
  }

  // ---------------------------------------------------------------- main results

  /** Nothing in the state refers to a context or a location that does not exist yet. */
  ghost predicate Closed(s: State) {
    StateOk(NoWatch, s)
  }

  /** Arguments handed to a hook refer only to what exists, and not to the context just built. */
  ghost predicate ArgsClosed(s: State, ctxs: nat, args: seq<Value>) {
    AllOk(NoWatch, |s.store|, ctxs, args)
  }

  /** A closed state knows nothing of the context with the next number. */
  lemma {:induction false} FreshValue(v: Value, size: nat, ctxs: nat, p: string)
    requires ValueOk(NoWatch, size, ctxs, v)
    ensures ValueOk(Watch(ctxs, size, p), size, ctxs + 1, v)
    decreases v
  {
    if v.List? {
      forall i | 0 <= i < |v.elems| ensures ValueOk(Watch(ctxs, size, p), size, ctxs + 1, v.elems[i]) {
        FreshValue(v.elems[i], size, ctxs, p);
      }
    }
  }

  /** The state in which the body of a hook starts: a new context, a location for the context
      parameter and one for each other argument. */
  function Entry(s: State, args: seq<Value>): State {
    s.(store := s.store + [CtxRef(|s.skips|)] + args, skips := s.skips + [false])
  }

  lemma {:induction false} EntryOk(s: State, args: seq<Value>, p: string)
    requires Closed(s) && ArgsClosed(s, |s.skips|, args)
    ensures StateOk(Watch(|s.skips|, |s.store|, p), Entry(s, args))
  {
    var w := Watch(|s.skips|, |s.store|, p);
    var e := Entry(s, args);
    var n := |e.store|;
    forall i | 0 <= i < n && i != w.loc ensures ValueOk(w, n, |e.skips|, e.store[i]) {
      var v := if i < |s.store| then s.store[i] else args[i - |s.store| - 1];
      assert e.store[i] == v;
      FreshValue(v, |s.store|, |s.skips|, p);
      ValueMono(w, |s.store|, n, |e.skips|, v);
    }
    forall d | d in s.data ensures ValueOk(w, n, |e.skips|, s.data[d]) {
      FreshValue(s.data[d], |s.store|, |s.skips|, p);
      ValueMono(w, |s.store|, n, |e.skips|, s.data[d]);
    }
  }

  /** Soundness of the check: a hook it accepts, called with a context built for this call,
      leaves that context's skip flag unset, whatever else it does and however it ends. */
  lemma {:induction false} CanFlattenIsSound(h: Hook, args: seq<Value>, s: State, fuel: nat)
    requires CanFlatten(h) && Closed(s) && ArgsClosed(s, |s.skips|, args)
    requires |h.params| <= 1 + |args|
    ensures var (s1, _) := RunHook(h, |s.skips|, args, s.(skips := s.skips + [false]), fuel);
            |s1.skips| == |s.skips| + 1 && !s1.skips[|s.skips|]
  {
    var p := if h.params == [] || h.params[0] == "" || h.params[0] == "_" then "_" else h.params[0];
    var w := Watch(|s.skips|, |s.store|, p);
    var e := Entry(s, args);
    EntryOk(s, args, p);
    var env := Bind(s.globals, h.params, |s.store|);
    if h.params == [] {
    } else {
      var env1 := if p == "_" then s.globals else s.globals[p := |s.store|];
      BindOk(w, env1, h.params[1..], |s.store| + 1, |e.store|);
    }
    ExecOk(w, h.body, env, e, fuel);
    assert s.(skips := s.skips + [false]).store == s.store;
  }

  /** Whatever a hook does, accepted or not, the state stays closed. */
  lemma {:induction false} HookKeepsClosed(h: Hook, c: nat, args: seq<Value>, s: State, fuel: nat)
    requires Closed(s) && c < |s.skips| && ArgsClosed(s, |s.skips|, args) && |h.params| <= 1 + |args|
    ensures var (s1, _) := RunHook(h, c, args, s, fuel);
            Closed(s1) && Grows(s, s1)
  {
    var extra := [CtxRef(c)] + args;
    assert AllOk(NoWatch, |s.store|, |s.skips|, extra);
    PushOk(NoWatch, s, extra);
    var e := s.(store := s.store + extra);
    assert e.store == s.store + [CtxRef(c)] + args;
    BindOk(NoWatch, s.globals, h.params, |s.store|, |e.store|);
    ExecOk(NoWatch, h.body, Bind(s.globals, h.params, |s.store|), e, fuel);
  }

  const BIND_SKIP: Code := Define("f", Sel(Var("ictx"), SET_SKIP))
  const CALL_BOUND: Code := Do(Call(Var("f"), [Lit(1)]))

  const METHOD_VALUE_HOOK := Hook(["ictx"], Then(BIND_SKIP, CALL_BOUND))

  /** Matching only calls of `SetSkipCall`, and not every mention, would not be sound: this hook
      binds the method to a variable and calls the variable, and its context does not escape. */
  lemma {:induction false} MethodValueSkips(s: State)
    requires s == State([], map[], map[], map[], [false])
    ensures !CanFlatten(METHOD_VALUE_HOOK) && !CodeEscapes("ictx", METHOD_VALUE_HOOK.body)
    ensures RunHook(METHOD_VALUE_HOOK, 0, [], s, 1).0.skips == [true]
  {
    MethodValueMentions();
    BindOne(map[], "ictx", 0);
    BindThenCall(map["ictx" := 0]);
    assert s.store + [CtxRef(0)] + [] == [CtxRef(0)];
  }

  lemma {:induction false} MethodValueMentions()
    ensures CodeMentionsSkip("ictx", METHOD_VALUE_HOOK.body) && !CodeEscapes("ictx", METHOD_VALUE_HOOK.body)
  {
    assert MentionsSkip("ictx", Sel(Var("ictx"), SET_SKIP));
    assert !Escapes("ictx", Sel(Var("ictx"), SET_SKIP));
    assert !CodeEscapes("ictx", BIND_SKIP);
    assert !CodeEscapes("ictx", CALL_BOUND) by {
      assert !Escapes("ictx", Lit(1));
      assert [Lit(1)][1..] == [];
      assert !AnyEscapes("ictx", [Lit(1)]);
    }
  }

  lemma {:induction false} BindOne(env: Env, x: string, k: nat)
    requires x != "" && x != "_"
    ensures Bind(env, [x], k) == env[x := k]
  {
    assert [x][1..] == [];
  }

  lemma {:induction false} BindThenCall(env: Env)
    requires env == map["ictx" := 0]
    ensures var s := State([CtxRef(0)], map[], map[], map[], [false]);
            Exec(Then(BIND_SKIP, CALL_BOUND), env, s, 1).s.skips == [true]
            && Exec(Then(BIND_SKIP, CALL_BOUND), env, s, 1).Norm?
  {
    var s := State([CtxRef(0)], map[], map[], map[], [false]);
    var s1 := s.(store := [CtxRef(0), Method(0, SET_SKIP)]);
    var env1 := env["f" := 1];
    BindOne(env, "f", 1);
    assert Eval(Sel(Var("ictx"), SET_SKIP), env, s, 1) == Ok(Method(0, SET_SKIP), s);
    assert s.store + [Method(0, SET_SKIP)] == s1.store;
    assert Exec(BIND_SKIP, env, s, 1) == Norm(env1, s1);
    CallBound(env1, s1);
  }

  lemma {:induction false} CallBound(env: Env, s: State)
    requires "f" in env && env["f"] < |s.store| && s.store[env["f"]] == Method(0, SET_SKIP) && s.skips == [false]
    ensures Exec(CALL_BOUND, env, s, 1) == Norm(env, s.(skips := [true]))
  {
    assert [Lit(1)][1..] == [];
    assert EvalAll([], env, s, 1) == Oks([], s);
    assert EvalAll([Lit(1)], env, s, 1) == Oks([Num(1)], s);
  }
}
