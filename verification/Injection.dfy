/** Completing the build plan: hook packages drag their own dependencies into the build, and rules
    that match those can name further hook packages.
 */
module Injection {

  /** The import graph; packages in `goFiles` have Go files of their own. */
  datatype Graph = Graph(imports: map<string, seq<string>>, goFiles: set<string>)

  /** The rules matched in one package, as the hook packages they name. */
  datatype RuleSet = RuleSet(pkg: string, hooks: seq<string>)

  function ImportsOf(g: Graph, p: string): seq<string> { if p in g.imports then g.imports[p] else [] }

  function Elems<T>(s: seq<T>): set<T> { set x | x in s }

  ghost predicate Closed(g: Graph, s: set<string>) {
    forall p, q :: p in s && q in ImportsOf(g, p) ==> q in s
  }

  /** `s` is what can be reached from the roots: the least set that has them and is closed. */
  ghost predicate IsReach(g: Graph, roots: set<string>, s: set<string>) {
    && roots <= s && Closed(g, s)
    && forall t: set<string> :: roots <= t && Closed(g, t) ==> s <= t
  }

  function AllPackages(g: Graph): set<string> {
    g.imports.Keys + set p, i | p in g.imports && 0 <= i < |g.imports[p]| :: g.imports[p][i]
  }

  /** What is left to do will complete the visit. */
  ghost predicate Visiting(g: Graph, roots: set<string>, order: seq<string>, todo: set<string>) {
    && roots <= Elems(order) + todo && Distinct(order)
    && (forall p, q :: p in Elems(order) && q in ImportsOf(g, p) ==> q in Elems(order) || q in todo)
    && forall t: set<string> :: roots <= t && Closed(g, t) ==> Elems(order) <= t && todo <= t
  }

  lemma {:induction false} VisitMore(g: Graph, roots: set<string>, order: seq<string>, todo: set<string>, p: string,
      rest: set<string>)
    requires Visiting(g, roots, order, todo) && todo == {p} + rest && p !in order
    ensures Visiting(g, roots, order + [p], Elems(ImportsOf(g, p)) + rest)
  {
    ElemsPush(order, p);
    forall t: set<string> | roots <= t && Closed(g, t)
      ensures Elems(order + [p]) <= t && Elems(ImportsOf(g, p)) + rest <= t {
      assert p in t;
    }
  }

  lemma {:induction false} ElemsPush<T>(s: seq<T>, x: T)
    ensures Elems(s + [x]) == Elems(s) + {x}
    ensures Distinct(s) && x !in s ==> Distinct(s + [x])
  {
    assert forall y :: y in s + [x] <==> y in s || y == x;
  }

  lemma {:induction false} ElemsConcat<T>(a: seq<T>, b: seq<T>)
    ensures Elems(a + b) == Elems(a) + Elems(b)
  {
    assert forall y :: y in a + b <==> y in a || y in b;
  }

  lemma {:induction false} VisitSkip(g: Graph, roots: set<string>, order: seq<string>, todo: set<string>, p: string,
      rest: set<string>)
    requires Visiting(g, roots, order, todo) && todo == {p} + rest && p in order
    ensures Visiting(g, roots, order, rest)
  {
    forall t: set<string> | roots <= t && Closed(g, t) ensures Elems(order) <= t && rest <= t { }
  }

  lemma {:induction false} OneLess(g: Graph, order: seq<string>, p: string, all: set<string>)
    requires p in all && p !in order
    ensures |all - Elems(order + [p])| < |all - Elems(order)|
  {
    ElemsPush(order, p);
    Smaller(all - Elems(order + [p]), all - Elems(order));
  }

  /** Visit everything reachable from the roots, each package once. */
  method Visit(g: Graph, roots: seq<string>) returns (order: seq<string>)
    ensures IsReach(g, Elems(roots), Elems(order)) && Distinct(order)
  {
    order := [];
    var todo := roots;
    ghost var all := AllPackages(g) + Elems(roots);
    while todo != []
      invariant Elems(todo) <= all && Visiting(g, Elems(roots), order, Elems(todo))
      decreases |all - Elems(order)|, |todo|
    {
      todo, order := VisitNext(g, Elems(roots), order, todo, all);
    }
    VisitDone(g, Elems(roots), order);
  }

  /** Visit the first package to do, unless it was visited before. */
  method VisitNext(g: Graph, ghost roots: set<string>, order: seq<string>, todo: seq<string>, ghost all: set<string>)
      returns (todo': seq<string>, order': seq<string>)
    requires todo != [] && Elems(todo) <= all && AllPackages(g) <= all && Visiting(g, roots, order, Elems(todo))
    ensures Elems(todo') <= all && Visiting(g, roots, order', Elems(todo'))
    ensures |all - Elems(order')| < |all - Elems(order)| || (order' == order && |todo'| < |todo|)
  {
    var p, rest := todo[0], todo[1..];
    assert todo == [p] + rest && Elems([p]) == {p};
    ElemsConcat([p], rest);
    if p in order {
      VisitSkip(g, roots, order, Elems(todo), p, Elems(rest));
      return rest, order;
    }
    VisitMore(g, roots, order, Elems(todo), p, Elems(rest));
    ElemsConcat(ImportsOf(g, p), rest);
    InGraph(g, p);
    OneLess(g, order, p, all);
    todo', order' := ImportsOf(g, p) + rest, order + [p];
  }

  lemma {:induction false} InGraph(g: Graph, p: string)
    ensures Elems(ImportsOf(g, p)) <= AllPackages(g)
  {
    forall q | q in Elems(ImportsOf(g, p)) ensures q in AllPackages(g) {
      var i :| 0 <= i < |ImportsOf(g, p)| && ImportsOf(g, p)[i] == q;
    }
  }

  lemma {:induction false} VisitDone(g: Graph, roots: set<string>, order: seq<string>)
    requires Visiting(g, roots, order, {})
    ensures IsReach(g, roots, Elems(order)) && Distinct(order)
  {
  }

  lemma {:induction false} Smaller<T>(a: set<T>, b: set<T>)
    requires a < b
    ensures |a| < |b|
  {
    var x :| x in b && x !in a;
    Fits(a, b - {x});
  }

  lemma {:induction false} Fits<T>(a: set<T>, b: set<T>)
    requires a <= b
    ensures |a| <= |b|
    decreases a
  {
    if a != {} {
      var x :| x in a;
      Fits(a - {x}, b - {x});
    }
  }

  ghost predicate Distinct<T>(s: seq<T>) {
    forall i, j :: 0 <= i < j < |s| ==> s[i] != s[j]
  }

  // ---------------------------------------------------------------- hook packages

  function Hooks(matched: seq<RuleSet>): set<string> {
    set i, j | 0 <= i < |matched| && 0 <= j < |matched[i].hooks| && matched[i].hooks[j] != "" :: matched[i].hooks[j]
  }

  /** Every hook package the rules name, each once. */
  method HookPackagePaths(matched: seq<RuleSet>) returns (paths: seq<string>)
    ensures Elems(paths) == Hooks(matched) && Distinct(paths)
  {
    paths := [];
    for i := 0 to |matched|
      invariant Elems(paths) == Hooks(matched[..i]) && Distinct(paths)
    {
      ghost var before := paths;
      for j := 0 to |matched[i].hooks|
        invariant Elems(paths) == Elems(before)
                  + (set k | 0 <= k < j && matched[i].hooks[k] != "" :: matched[i].hooks[k]) && Distinct(paths)
      {
        var path := matched[i].hooks[j];
        ElemsPush(paths, path);
        if path != "" && path !in paths { paths := paths + [path]; }
      }
      HooksPush(matched, i);
    }
    assert matched[..|matched|] == matched;
  }

  lemma {:induction false} HooksPush(matched: seq<RuleSet>, i: nat)
    requires i < |matched|
    ensures var mine := matched[i].hooks;
            Hooks(matched[..i + 1]) == Hooks(matched[..i]) + set k | 0 <= k < |mine| && mine[k] != "" :: mine[k]
  {
    var a, b := matched[..i + 1], matched[..i];
    assert forall k :: 0 <= k < i ==> a[k] == b[k];
    assert a[i] == matched[i];
  }

  lemma {:induction false} HooksConcat(a: seq<RuleSet>, b: seq<RuleSet>)
    ensures Hooks(a + b) == Hooks(a) + Hooks(b)
  {
    var c := a + b;
    assert forall i :: 0 <= i < |a| ==> c[i] == a[i];
    assert forall i :: 0 <= i < |b| ==> c[|a| + i] == b[i];
  }

  // ---------------------------------------------------------------- one load

  /** The packages with Go files that are reachable from the hooks and not known yet. */
  method InjectedDeps(g: Graph, hookPaths: seq<string>, known: set<string>)
      returns (deps: seq<string>, ghost reach: set<string>)
    ensures IsReach(g, Elems(hookPaths), reach)
    ensures Elems(deps) == (reach * g.goFiles) - known && Distinct(deps)
  {
    deps := [];
    if hookPaths == [] {
      reach := {};
      return;
    }
    var pkgs := Visit(g, hookPaths);
    reach := Elems(pkgs);
    for i := 0 to |pkgs|
      invariant Elems(deps) == (Elems(pkgs[..i]) * g.goFiles) - known && Distinct(deps)
    {
      assert pkgs[i] !in pkgs[..i];
      assert pkgs[..i + 1] == pkgs[..i] + [pkgs[i]];
      ElemsPush(pkgs[..i], pkgs[i]);
      ElemsPush(deps, pkgs[i]);
      assert pkgs[i] !in Elems(deps);
      if pkgs[i] !in known && pkgs[i] in g.goFiles { deps := deps + [pkgs[i]]; }
    }
    assert pkgs[..|pkgs|] == pkgs;
  }

  /** Rule sets for those packages in which rules match. */
  method Match(rules: map<string, seq<string>>, deps: seq<string>) returns (more: seq<RuleSet>)
    ensures more == MatchedIn(rules, deps)
  {
    more := [];
    for i := 0 to |deps|
      invariant more == MatchedIn(rules, deps[..i])
    {
      assert deps[..i + 1][..i] == deps[..i];
      if deps[i] in rules { more := more + [RuleSet(deps[i], rules[deps[i]])]; }
    }
    assert deps[..|deps|] == deps;
  }

  function MatchedIn(rules: map<string, seq<string>>, deps: seq<string>): seq<RuleSet> {
    if deps == [] then []
    else
      var last := deps[|deps| - 1];
      MatchedIn(rules, deps[..|deps| - 1]) + if last in rules then [RuleSet(last, rules[last])] else []
  }

  lemma {:induction false} MatchedConcat(rules: map<string, seq<string>>, a: seq<string>, b: seq<string>)
    ensures MatchedIn(rules, a + b) == MatchedIn(rules, a) + MatchedIn(rules, b)
    decreases |b|
  {
    if b == [] {
      assert a + b == a;
    } else {
      assert (a + b)[..|a + b| - 1] == a + b[..|b| - 1];
      MatchedConcat(rules, a, b[..|b| - 1]);
    }
  }

  // ---------------------------------------------------------------- the passes

  /** Everything reachable from hooks already walked is known. */
  ghost predicate Covers(g: Graph, hooks: set<string>, known: set<string>) {
    exists r :: IsReach(g, hooks, r) && r * g.goFiles <= known
  }

  /** No package was added without a reason: each is reachable from the hooks and has Go files. */
  ghost predicate Justified(g: Graph, hooks: set<string>, added: set<string>) {
    added <= g.goFiles && forall t: set<string> :: hooks <= t && Closed(g, t) ==> added <= t
  }

  /** Reaches add up. */
  lemma {:induction false} ReachUnion(g: Graph, a: set<string>, ra: set<string>, b: set<string>, rb: set<string>)
    requires IsReach(g, a, ra) && IsReach(g, b, rb)
    ensures IsReach(g, a + b, ra + rb)
  {
    forall t: set<string> | a + b <= t && Closed(g, t) ensures ra + rb <= t { }
  }

  lemma {:induction false} CoversUnion(g: Graph, a: set<string>, b: set<string>, rb: set<string>, known: set<string>)
    requires Covers(g, a, known) && IsReach(g, b, rb)
    ensures Covers(g, a + b, known + (rb * g.goFiles))
  {
    var ra :| IsReach(g, a, ra) && ra * g.goFiles <= known;
    ReachUnion(g, a, ra, b, rb);
    assert (ra + rb) * g.goFiles <= known + (rb * g.goFiles);
  }

  lemma {:induction false} JustifiedMore(g: Graph, hooks: set<string>, added: set<string>, b: set<string>,
      rb: set<string>, new_: set<string>)
    requires Justified(g, hooks, added) && IsReach(g, b, rb) && new_ <= rb * g.goFiles
    ensures Justified(g, hooks + b, added + new_)
  {
    forall t: set<string> | hooks + b <= t && Closed(g, t) ensures added + new_ <= t { assert rb <= t; }
  }

  /** After the hooks in `walked` were followed and the packages in `asked` were matched. */
  ghost predicate Passed(g: Graph, known0: set<string>, walked: set<string>, known: set<string>, asked: seq<string>) {
    && Covers(g, walked, known) && Justified(g, walked, Elems(asked))
    && known == known0 + Elems(asked) && Elems(asked) !! known0 && Distinct(asked)
  }

  lemma {:induction false} PassNext(
      g: Graph, known0: set<string>, walked: set<string>, known: set<string>, asked: seq<string>, hooks: set<string>,
      reach: set<string>, injected: seq<string>)
    requires Passed(g, known0, walked, known, asked) && IsReach(g, hooks, reach)
    requires Elems(injected) == (reach * g.goFiles) - known && Distinct(injected)
    ensures Passed(g, known0, walked + hooks, known + Elems(injected), asked + injected)
    ensures injected != [] ==> |g.goFiles - (known + Elems(injected))| < |g.goFiles - known|
  {
    CoversUnion(g, walked, hooks, reach, known);
    JustifiedMore(g, walked, Elems(asked), hooks, reach, Elems(injected));
    assert known + (reach * g.goFiles) == known + Elems(injected);
    ElemsConcat(asked, injected);
    DistinctConcat(asked, injected);
    if injected != [] {
      assert injected[0] in Elems(injected);
      Smaller(g.goFiles - (known + Elems(injected)), g.goFiles - known);
    }
  }

  lemma {:induction false} NothingPassed(g: Graph, known: set<string>)
    ensures Passed(g, known, {}, known, [])
  {
    assert IsReach(g, {}, {}) && {} * g.goFiles <= known;
  }

  lemma {:induction false} MoreHooks(matched: seq<RuleSet>, extra: seq<RuleSet>, more: seq<RuleSet>)
    ensures Hooks(matched + (extra + more)) == Hooks(matched + extra) + Hooks(more)
    ensures more == [] ==> Hooks(more) == {}
  {
    HooksConcat(matched + extra, more);
    assert matched + extra + more == matched + (extra + more);
  }

  /** The first half of a pass. */
  method LoadPass(g: Graph, matched: seq<RuleSet>, known: set<string>, ghost known0: set<string>,
      ghost walked: set<string>, ghost asked: seq<string>)
      returns (injected: seq<string>)
    requires Passed(g, known0, walked, known, asked)
    ensures Passed(g, known0, walked + Hooks(matched), known + Elems(injected), asked + injected)
    ensures injected != [] ==> |g.goFiles - (known + Elems(injected))| < |g.goFiles - known|
  {
    var paths := HookPackagePaths(matched);
    ghost var reach;
    injected, reach := InjectedDeps(g, paths, known);
    PassNext(g, known0, walked, known, asked, Hooks(matched), reach, injected);
  }

  /** Between two passes: the hooks of `matched` are still to be followed. */
  ghost predicate Between(g: Graph, rules: map<string, seq<string>>, matched0: seq<RuleSet>, known0: set<string>,
                          matched: seq<RuleSet>, extra: seq<RuleSet>, known: set<string>, asked: seq<string>) {
    extra == MatchedIn(rules, asked)
    && exists walked :: Passed(g, known0, walked, known, asked) && walked + Hooks(matched) == Hooks(matched0 + extra)
  }

  /** At the end: all hooks were followed. */
  ghost predicate Complete(g: Graph, rules: map<string, seq<string>>, matched0: seq<RuleSet>, known0: set<string>,
                           extra: seq<RuleSet>, known: set<string>, asked: seq<string>) {
    extra == MatchedIn(rules, asked) && Passed(g, known0, Hooks(matched0 + extra), known, asked)
  }

  lemma {:induction false} PassOn(g: Graph, rules: map<string, seq<string>>, matched0: seq<RuleSet>,
      known0: set<string>,
      walked: set<string>, extra: seq<RuleSet>, known: set<string>, asked: seq<string>,
      injected: seq<string>)
    requires Passed(g, known0, walked, known, asked + injected) && walked == Hooks(matched0 + extra)
             && extra == MatchedIn(rules, asked)
    ensures var more := MatchedIn(rules, injected);
            && Between(g, rules, matched0, known0, more, extra + more, known, asked + injected)
            && (more == [] ==> Complete(g, rules, matched0, known0, extra, known, asked + injected))
  {
    var more := MatchedIn(rules, injected);
    MatchedConcat(rules, asked, injected);
    MoreHooks(matched0, extra, more);
    assert Passed(g, known0, walked, known, asked + injected)
           && walked + Hooks(more) == Hooks(matched0 + (extra + more));
    if more == [] { assert extra + more == extra; }
  }

  // ---------------------------------------------------------------- paths

  ghost predicate IsPath(g: Graph, path: seq<string>) {
    path != [] && forall i :: 0 <= i < |path| - 1 ==> path[i + 1] in ImportsOf(g, path[i])
  }

  ghost predicate Leads(g: Graph, roots: set<string>, path: seq<string>, p: string) {
    IsPath(g, path) && path[0] in roots && path[|path| - 1] == p
  }

  ghost predicate HasPath(g: Graph, roots: set<string>, p: string) {
    exists path :: Leads(g, roots, path, p)
  }

  /** What can be reached is what imports lead to. */
  lemma {:induction false} ReachMeans(g: Graph, roots: set<string>, s: set<string>)
    requires IsReach(g, roots, s)
    ensures forall p :: p in s <==> HasPath(g, roots, p)
  {
    forall p | HasPath(g, roots, p) ensures p in s {
      var path :| Leads(g, roots, path, p);
      AlongPath(g, s, path, |path| - 1);
    }
    var t := set p | p in s && HasPath(g, roots, p);
    forall p | p in roots ensures p in t { assert Leads(g, roots, [p], p); }
    forall p, q | p in t && q in ImportsOf(g, p) ensures q in t {
      var path :| Leads(g, roots, path, p);
      assert Leads(g, roots, path + [q], q);
    }
    assert roots <= t && Closed(g, t);
  }

  /** A hook package that some of these rules name leads to p. */
  ghost predicate Brought(g: Graph, matched: seq<RuleSet>, p: string) {
    exists path, i, j :: 0 <= i < |matched| && 0 <= j < |matched[i].hooks|
                         && StartsAt(g, path, matched[i].hooks[j], p)
  }

  ghost predicate StartsAt(g: Graph, path: seq<string>, hook: string, p: string) {
    hook != "" && IsPath(g, path) && path[0] == hook && path[|path| - 1] == p
  }

  lemma {:induction false} BroughtMeans(g: Graph, matched: seq<RuleSet>, p: string)
    ensures Brought(g, matched, p) <==> HasPath(g, Hooks(matched), p)
  {
    if path :| Leads(g, Hooks(matched), path, p) {
      var i, j :| 0 <= i < |matched| && 0 <= j < |matched[i].hooks|
                  && matched[i].hooks[j] != "" && matched[i].hooks[j] == path[0];
      assert StartsAt(g, path, matched[i].hooks[j], p);
    }
    if path, i, j :| 0 <= i < |matched| && 0 <= j < |matched[i].hooks| && StartsAt(g, path, matched[i].hooks[j], p) {
      assert Leads(g, Hooks(matched), path, p);
    }
  }

  /** The packages known in the end are those known before and those with Go files that some hook
      package of a matched rule brings in. */
  lemma {:induction false} KnownMeans(g: Graph, matched: seq<RuleSet>, known0: set<string>, known: set<string>,
      asked: seq<string>)
    requires Passed(g, known0, Hooks(matched), known, asked)
    ensures forall p :: p in known <==> p in known0 || (p in g.goFiles && Brought(g, matched, p))
  {
    var r :| IsReach(g, Hooks(matched), r) && r * g.goFiles <= known;
    ReachMeans(g, Hooks(matched), r);
    forall p ensures p in known <==> p in known0 || (p in g.goFiles && Brought(g, matched, p)) {
      BroughtMeans(g, matched, p);
      assert Hooks(matched) <= r && Closed(g, r);
    }
  }

  /** The rule sets found in some packages are those of the packages, in their order. */
  ghost predicate RulesOf(rules: map<string, seq<string>>, pkgs: seq<string>, found: seq<RuleSet>) {
    && (forall m :: m in found <==> m.pkg in pkgs && m.pkg in rules && m.hooks == rules[m.pkg])
    && forall i, j :: 0 <= i < j < |found| ==>
         exists k, l :: 0 <= k < l < |pkgs| && pkgs[k] == found[i].pkg && pkgs[l] == found[j].pkg
  }

  lemma {:induction false} MatchedMeans(rules: map<string, seq<string>>, pkgs: seq<string>)
    ensures RulesOf(rules, pkgs, MatchedIn(rules, pkgs))
    decreases |pkgs|
  {
    if pkgs != [] {
      var init, last := pkgs[..|pkgs| - 1], pkgs[|pkgs| - 1];
      MatchedMeans(rules, init);
      var a, b := MatchedIn(rules, init), MatchedIn(rules, pkgs);
      assert pkgs == init + [last];
      forall i, j | 0 <= i < j < |b|
        ensures exists k, l :: 0 <= k < l < |pkgs| && pkgs[k] == b[i].pkg && pkgs[l] == b[j].pkg
      {
        if j < |a| {
          var k, l :| 0 <= k < l < |init| && init[k] == a[i].pkg && init[l] == a[j].pkg;
          assert pkgs[k] == b[i].pkg && pkgs[l] == b[j].pkg;
        } else {
          assert a[i] in a;
          var k :| 0 <= k < |init| && init[k] == a[i].pkg;
          assert pkgs[k] == b[i].pkg && pkgs[|init|] == b[j].pkg;
        }
      }
    }
  }

  /** Load, match and repeat with what was matched, until a pass finds nothing new.  `asked` is the
      list of packages that rules were matched against. */
  method RunInjectionPasses(g: Graph, rules: map<string, seq<string>>, matched0: seq<RuleSet>, known0: set<string>)
      returns (extra: seq<RuleSet>, known: set<string>, ghost asked: seq<string>)
    ensures forall p :: p in known <==> p in known0 || (p in g.goFiles && Brought(g, matched0 + extra, p))
    ensures forall m :: m in extra <==> m.pkg in known - known0 && m.pkg in rules && m.hooks == rules[m.pkg]
    ensures forall i, j :: 0 <= i < j < |extra| ==> extra[i].pkg != extra[j].pkg
    ensures Complete(g, rules, matched0, known0, extra, known, asked)
  {
    extra, known, asked := [], known0, [];
    var matched := matched0;
    NothingPassed(g, known);
    assert matched0 + [] == matched0;
    assert Passed(g, known0, {}, known, asked) && {} + Hooks(matched) == Hooks(matched0 + extra);
    while true
      invariant Between(g, rules, matched0, known0, matched, extra, known, asked)
      decreases |g.goFiles - known|
    {
      ghost var walked :| Passed(g, known0, walked, known, asked) && walked + Hooks(matched) == Hooks(matched0 + extra);
      var injected := LoadPass(g, matched, known, known0, walked, asked);
      known := known + Elems(injected);
      PassOn(g, rules, matched0, known0, walked + Hooks(matched), extra, known, asked, injected);
      asked := asked + injected;
      if |injected| == 0 {
        Ended(g, rules, matched0, known0, extra, known, asked);
        return;
      }
      var more := Match(rules, injected);
      if |more| == 0 {
        Ended(g, rules, matched0, known0, extra, known, asked);
        return;
      }
      extra, matched := extra + more, more;
    }
  }

  lemma {:induction false} Ended(g: Graph, rules: map<string, seq<string>>, matched0: seq<RuleSet>, known0: set<string>,
      extra: seq<RuleSet>, known: set<string>, asked: seq<string>)
    requires Complete(g, rules, matched0, known0, extra, known, asked)
    ensures forall p :: p in known <==> p in known0 || (p in g.goFiles && Brought(g, matched0 + extra, p))
    ensures forall m :: m in extra <==> m.pkg in known - known0 && m.pkg in rules && m.hooks == rules[m.pkg]
    ensures forall i, j :: 0 <= i < j < |extra| ==> extra[i].pkg != extra[j].pkg
  {
    KnownMeans(g, matched0 + extra, known0, known, asked);
    MatchedMeans(rules, asked);
    assert forall p :: p in asked <==> p in known - known0;
  }

  lemma {:induction false} DistinctConcat<T>(a: seq<T>, b: seq<T>)
    requires Distinct(a) && Distinct(b) && Elems(a) !! Elems(b)
    ensures Distinct(a + b)
  {
    var c := a + b;
    forall i, j | 0 <= i < j < |c| ensures c[i] != c[j] {
      if i < |a| && j >= |a| { assert c[i] in Elems(a) && c[j] in Elems(b); }
    }
  }

  /** On exit the known packages are closed: whatever a hook package named by any matched rule
      reaches and has Go files is known. */
  lemma {:induction false} NothingIsMissed(g: Graph, hooks: set<string>, known: set<string>, path: seq<string>)
    requires Covers(g, hooks, known) && path != [] && path[0] in hooks && path[|path| - 1] in g.goFiles
    requires forall i :: 0 <= i < |path| - 1 ==> path[i + 1] in ImportsOf(g, path[i])
    ensures path[|path| - 1] in known
  {
    var r :| IsReach(g, hooks, r) && r * g.goFiles <= known;
    AlongPath(g, r, path, |path| - 1);
  }

  lemma {:induction false} AlongPath(g: Graph, s: set<string>, path: seq<string>, k: nat)
    requires Closed(g, s) && k < |path| && path[0] in s
    requires forall i :: 0 <= i < |path| - 1 ==> path[i + 1] in ImportsOf(g, path[i])
    ensures path[k] in s
    decreases k
  {
    if k > 0 {
      AlongPath(g, s, path, k - 1);
      assert path[k - 1 + 1] in ImportsOf(g, path[k - 1]);
    }
  }
}
