/** The order of hook calls in a run with several rules on one function. */
module TJumpTrace {
  import opened TJumpSemantics
  import opened TJumpChain

  /** An event of a hook, forgetting whether the guard let the hook run. */
  datatype Hook = Before(id: nat) | After(id: nat)

  function Hooks(trace: seq<Event>): seq<Hook> {
    if trace == [] then []
    else
      (match trace[0]
       case BeforeHook(id, _) => [Before(id)]
       case AfterHook(id, _) => [After(id)]
       case _ => []) + Hooks(trace[1..])
  }

  function BeforesOf(rules: seq<Rule>): seq<Hook> {
    if rules == [] then []
    else (if rules[0].before != "" then [Before(rules[0].id)] else []) + BeforesOf(rules[1..])
  }

  /** Innermost rule first. */
  function AftersOf(rules: seq<Rule>): seq<Hook> {
    if rules == [] then []
    else AftersOf(rules[1..]) + (if rules[0].after != "" then [After(rules[0].id)] else [])
  }

  /** Before trampolines entered: up to and including the first that skips, else all of them. */
  function Entries<M(!new)>(env: Env<M>, fn: Func, rules: seq<Rule>, w: World<M>): (n: nat)
    ensures n <= |rules|
  {
    if rules == [] then 0
    else
      var b := RunBefore(env, MakeName(rules[0], fn.name, true), rules[0].before != "", fn.args, w, []);
      if b.skip then 1 else 1 + Entries(env, fn, rules[1..], b.w)
  }

  predicate SomeoneSkips<M(!new)>(env: Env<M>, fn: Func, rules: seq<Rule>, w: World<M>) {
    rules != [] &&
    var b := RunBefore(env, MakeName(rules[0], fn.name, true), rules[0].before != "", fn.args, w, []);
    b.skip || SomeoneSkips(env, fn, rules[1..], b.w)
  }

  /** The world in which the body starts when nobody skips. */
  function Inside<M(!new)>(env: Env<M>, fn: Func, rules: seq<Rule>, w: World<M>): World<M> {
    if rules == [] then w
    else Inside(env, fn, rules[1..],
      RunBefore(env, MakeName(rules[0], fn.name, true), rules[0].before != "", fn.args, w, []).w)
  }

  lemma {:induction false} HooksConcat(a: seq<Event>, b: seq<Event>)
    ensures Hooks(a + b) == Hooks(a) + Hooks(b)
    decreases |a|
  {
    if a == [] {
      assert a + b == b;
    } else {
      assert (a + b)[1..] == a[1..] + b;
      HooksConcat(a[1..], b);
    }
  }

  lemma {:induction false} DefersExtend<M(!new)>(env: Env<M>, ds: seq<Pending>, w: World<M>, trace: seq<Event>, p: bool)
    requires forall d :: d in ds ==> d.PendingUser?
    ensures var o := RunDefers(env, map[], ds, w, trace, p);
            var o0 := RunDefers(env, map[], ds, w, [], p);
            o.Done? && o0.Done? && o0.w == o.w && o0.panicking == o.panicking && o.trace == trace + o0.trace
              && Hooks(o0.trace) == []
    decreases |ds|
  {
    if ds != [] {
      var uid := ds[|ds| - 1].uid;
      var (w1, p1) := env.deferred(uid, w, p);
      DefersExtend(env, ds[..|ds| - 1], w1, trace + [Deferred(uid)], p1);
      DefersExtend(env, ds[..|ds| - 1], w1, [Deferred(uid)], p1);
      assert [] + [Deferred(uid)] == [Deferred(uid)];
      HooksConcat([Deferred(uid)], RunDefers(env, map[], ds[..|ds| - 1], w1, [], p1).trace);
    }
  }

  lemma {:induction false} BodyListExtends<M(!new)>(env: Env<M>, fn: Func, body: seq<TJumpSemantics.Stmt>,
      w: World<M>, t0: seq<Event>, t1: seq<Event>, ds: seq<Pending>)
    requires UserOnly(body) && Hooks(t1) == [] && forall d :: d in ds ==> d.PendingUser?
    ensures var (m, f) := ExecList(env, fn, map[], body, Machine(w, t0 + t1, map[], map[], ds));
            var (m0, f0) := ExecList(env, fn, map[], body, Machine(w, t1, map[], map[], ds));
            f == f0 && m == m0.(trace := t0 + m0.trace) && Hooks(m0.trace) == []
            && forall d :: d in m0.defers ==> d.PendingUser?
    decreases |body|
  {
    if body != [] {
      var (m, f) := ExecStmt(env, fn, map[], body[0], Machine(w, t0 + t1, map[], map[], ds));
      var (m0, f0) := ExecStmt(env, fn, map[], body[0], Machine(w, t1, map[], map[], ds));
      assert m.trace == t0 + m0.trace;
      if body[0].User? { HooksConcat(t1, [Event.Stmt(body[0].uid)]); }
      if f == Next { BodyListExtends(env, fn, body[1..], m.w, t0, m0.trace, m0.defers); }
    }
  }

  lemma {:induction false} BodyExtends<M(!new)>(env: Env<M>, fn: Func, body: seq<TJumpSemantics.Stmt>, w: World<M>,
      trace: seq<Event>)
    requires UserOnly(body)
    ensures var o := Body(env, fn, body, w, trace);
            var o0 := Body(env, fn, body, w, []);
            if o0.Wrong? then o.Wrong?
            else o == Done(o0.w, trace + o0.trace, o0.panicking) && Hooks(o0.trace) == []
  {
    assert trace + [] == trace;
    BodyListExtends(env, fn, body, w, trace, [], []);
    var (m0, f) := ExecList(env, fn, map[], body, Machine(w, [], map[], map[], []));
    if f != Stuck { DefersExtendBoth(env, m0.defers, m0.w, trace, m0.trace, f == Panicked); }
  }

  lemma {:induction false} DefersExtendBoth<M(!new)>(env: Env<M>, ds: seq<Pending>, w: World<M>, t0: seq<Event>,
      t1: seq<Event>, p: bool)
    requires Hooks(t1) == [] && forall d :: d in ds ==> d.PendingUser?
    ensures var o := RunDefers(env, map[], ds, w, t1, p);
            o.Done? && RunDefers(env, map[], ds, w, t0 + t1, p) == Done(o.w, t0 + o.trace, o.panicking)
              && Hooks(o.trace) == []
  {
    DefersExtend(env, ds, w, t0 + t1, p);
    DefersExtend(env, ds, w, t1, p);
    var tail := RunDefers(env, map[], ds, w, [], p).trace;
    Assoc(t0, t1, tail);
    HooksConcat(t1, tail);
  }

  lemma {:induction false} Assoc<T>(a: seq<T>, b: seq<T>, c: seq<T>)
    ensures a + b + c == a + (b + c)
  {
  }

  lemma {:induction false} BeforeExtends<M(!new)>(env: Env<M>, fn: Func, r: Rule, w: World<M>, trace: seq<Event>)
      returns (head: seq<Event>)
    ensures var t := MakeName(r, fn.name, true);
            RunBefore(env, t, r.before != "", fn.args, w, trace)
            == RunBefore(env, t, r.before != "", fn.args, w, []).(trace := trace + head)
    ensures Hooks(head) == BeforesOf([r])
  {
    var b := RunBefore(env, MakeName(r, fn.name, true), r.before != "", fn.args, w, trace);
    head := b.trace[|trace|..];
    assert [r][1..] == [];
    assert trace + [] == trace;
  }

  lemma {:induction false} AfterExtends<M(!new)>(env: Env<M>, fn: Func, r: Rule, ctx: nat, w: World<M>,
      trace: seq<Event>) returns (tail: seq<Event>)
    ensures RunAfter(env, MakeName(r, fn.name, false), r.after != "", ctx, fn.rets, w, trace).1 == trace + tail
    ensures Hooks(tail) == AftersOf([r])
  {
    tail := RunAfter(env, MakeName(r, fn.name, false), r.after != "", ctx, fn.rets, w, trace).1[|trace|..];
    assert [r][1..] == [];
    assert trace + [] == trace;
  }

  /** What running rules with some inner outcome looks like from outside. */
  ghost predicate Brackets<M>(o: Outcome<M>, rules: seq<Rule>, trace: seq<Event>, pre: seq<Event>, mid: seq<Event>,
      post: seq<Event>) {
    o.Done? && o.trace == trace + pre + mid + post && Hooks(pre) == BeforesOf(rules) && Hooks(post) == AftersOf(rules)
  }

  lemma {:induction false} WrapBrackets<M(!new)>(
      env: Env<M>, fn: Func, r: Rule, rules: seq<Rule>, ctx: nat, inner: Outcome<M>, trace: seq<Event>,
      head: seq<Event>,
      pre: seq<Event>, mid: seq<Event>, post: seq<Event>) returns (pre': seq<Event>, post': seq<Event>)
    requires Hooks(head) == BeforesOf([r])
    requires Brackets(inner, rules, trace + head, pre, mid, post)
    ensures Brackets(AfterAdvice(env, fn, r, ctx, inner), [r] + rules, trace, pre', mid, post')
  {
    var tail := AfterExtends(env, fn, r, ctx, inner.w, inner.trace);
    pre', post' := head + pre, post + tail;
    HooksConcat(head, pre);
    HooksConcat(post, tail);
    PushRule(r, rules);
    Regroup(trace, head, pre, mid, post, tail);
  }

  lemma {:induction false} PushRule(r: Rule, rules: seq<Rule>)
    ensures BeforesOf([r] + rules) == BeforesOf([r]) + BeforesOf(rules)
    ensures AftersOf([r] + rules) == AftersOf(rules) + AftersOf([r])
  {
    assert ([r] + rules)[1..] == rules && [r][1..] == [];
  }

  lemma {:induction false} Regroup<T>(a: seq<T>, b: seq<T>, c: seq<T>, d: seq<T>, e: seq<T>, f: seq<T>)
    ensures a + b + c + d + e + f == a + (b + c) + d + (e + f)
  {
    assert a + b + c == a + (b + c);
    var x := a + (b + c) + d;
    assert x + e + f == x + (e + f);
  }

  lemma {:induction false} FirstAndRest<T>(s: seq<T>, k: nat)
    requires s != [] && k < |s|
    ensures s[..k + 1] == [s[0]] + s[1..][..k]
    ensures k == |s| - 1 ==> s[1..][..k] == s[1..] && [s[0]] + s[1..] == s
  {
  }

  /** Befores 1..k run in order, where k is the first rule that skips or the last rule; the body
      runs in between exactly when nobody skips; then afters k..1 run. */
  ghost predicate Ordered<M(!new)>(env: Env<M>, fn: Func, rules: seq<Rule>, body: seq<TJumpSemantics.Stmt>,
      w: World<M>, trace: seq<Event>,
                                   pre: seq<Event>, mid: seq<Event>, post: seq<Event>) {
    var o := Advice(env, fn, rules, body, w, trace);
    if SomeoneSkips(env, fn, rules, w) then
      Brackets(o, rules[..Entries(env, fn, rules, w)], trace, pre, mid, post) && mid == [] && !o.panicking
    else
      var inside := Body(env, fn, body, Inside(env, fn, rules, w), []);
      && o.Wrong? == inside.Wrong?
      && (o.Done? ==>
            Entries(env, fn, rules, w) == |rules| && Brackets(o, rules, trace, pre, mid, post)
            && mid == inside.trace && Hooks(mid) == [] && o.panicking == inside.panicking)
  }

  lemma {:induction false} HookOrder<M(!new)>(env: Env<M>, fn: Func, rules: seq<Rule>, body: seq<TJumpSemantics.Stmt>,
      w: World<M>, trace: seq<Event>)
      returns (pre: seq<Event>, mid: seq<Event>, post: seq<Event>)
    requires UserOnly(body)
    ensures Ordered(env, fn, rules, body, w, trace, pre, mid, post)
    decreases |rules|
  {
    if rules == [] {
      BodyExtends(env, fn, body, w, trace);
      var o0 := Body(env, fn, body, w, []);
      pre, mid, post := [], if o0.Wrong? then [] else o0.trace, [];
      assert trace + [] + mid + [] == trace + mid;
    } else {
      var b := RunBefore(env, MakeName(rules[0], fn.name, true), rules[0].before != "", fn.args, w, trace);
      if b.skip {
        pre, mid, post := FirstSkips(env, fn, rules, body, w, trace);
      } else {
        pre, mid, post := HookOrder(env, fn, rules[1..], body, b.w, b.trace);
        pre, post := FirstEnters(env, fn, rules, body, w, trace, pre, mid, post);
      }
    }
  }

  lemma {:induction false} FirstSkips<M(!new)>(env: Env<M>, fn: Func, rules: seq<Rule>,
      body: seq<TJumpSemantics.Stmt>, w: World<M>, trace: seq<Event>)
      returns (pre: seq<Event>, mid: seq<Event>, post: seq<Event>)
    requires rules != [] && RunBefore(env, MakeName(rules[0], fn.name, true), rules[0].before
             != "", fn.args, w, trace).skip
    ensures Ordered(env, fn, rules, body, w, trace, pre, mid, post)
  {
    var r := rules[0];
    var b := RunBefore(env, MakeName(r, fn.name, true), r.before != "", fn.args, w, trace);
    var head := BeforeExtends(env, fn, r, w, trace);
    mid := [];
    assert b.trace == b.trace + [] + [] + [];
    assert rules[..1] == [r] + [];
    pre, post := WrapBrackets(env, fn, r, [], b.ctx, Done(b.w, b.trace, false), trace, head, [], [], []);
  }

  lemma {:induction false} FirstEnters<M(!new)>(env: Env<M>, fn: Func, rules: seq<Rule>,
      body: seq<TJumpSemantics.Stmt>, w: World<M>, trace: seq<Event>,
                                                pre: seq<Event>, mid: seq<Event>, post: seq<Event>)
                                                  returns (pre': seq<Event>, post': seq<Event>)
    requires rules != []
    requires var b := RunBefore(env, MakeName(rules[0], fn.name, true), rules[0].before != "", fn.args, w, trace);
             !b.skip && Ordered(env, fn, rules[1..], body, b.w, b.trace, pre, mid, post)
    ensures Ordered(env, fn, rules, body, w, trace, pre', mid, post')
  {
    var r := rules[0];
    var b := RunBefore(env, MakeName(r, fn.name, true), r.before != "", fn.args, w, trace);
    var head := BeforeExtends(env, fn, r, w, trace);
    var inner, k := Advice(env, fn, rules[1..], body, b.w, b.trace), Entries(env, fn, rules[1..], b.w);
    pre', post' := pre, post;
    FirstAndRest(rules, k);
    if inner.Done? {
      pre', post' := WrapBrackets(env, fn, r, rules[1..][..k], b.ctx, inner, trace, head, pre, mid, post);
    }
  }
}
