/** The breadth-first walk over instrumentation tool files and what they import. */
module ToolFileWalk {
  import opened Injection

  datatype Import = Blank(path: string) | Named

  /** What the visitor decides about an import. */
  datatype Decision = Recurse | Stay | Fail

  /** `files` are the tool files that parse, `cfg` maps an import that resolves to its tool file,
      empty if it has none. */
  datatype World = World(files: map<string, seq<Import>>, cfg: map<string, string>, decide: string -> Decision)

  function PathsOf(imports: seq<Import>): set<string> {
    set i | 0 <= i < |imports| && imports[i].Blank? :: imports[i].path
  }

  predicate AllBlank(imports: seq<Import>) { forall i :: 0 <= i < |imports| ==> imports[i].Blank? }

  function Target(w: World, i: string): set<string> {
    if i in w.cfg && w.decide(i).Recurse? && w.cfg[i] != "" then {w.cfg[i]} else {}
  }

  function Targets(w: World, imports: set<string>): set<string> {
    set i, t | i in imports && t in Target(w, i) :: t
  }

  // ---------------------------------------------------------------- one tool file

  /** The blank imports not seen before, each once. */
  method CollectImports(imports: seq<Import>, seen0: set<string>)
      returns (paths: seq<string>, seen: set<string>, ok: bool)
    ensures ok <==> AllBlank(imports)
    ensures ok ==> seen == seen0 + PathsOf(imports) && Elems(paths) == PathsOf(imports) - seen0 && Distinct(paths)
  {
    paths, seen := [], seen0;
    for i := 0 to |imports|
      invariant AllBlank(imports[..i]) && seen == seen0 + PathsOf(imports[..i])
      invariant Elems(paths) == PathsOf(imports[..i]) - seen0 && Distinct(paths)
    {
      if imports[i].Named? { return paths, seen, false; }
      var path := imports[i].path;
      PathsPush(imports, i);
      ElemsPush(paths, path);
      if path !in seen {
        seen := seen + {path};
        paths := paths + [path];
      }
    }
    assert imports[..|imports|] == imports;
    ok := true;
  }

  lemma {:induction false} PathsPush(imports: seq<Import>, i: nat)
    requires i < |imports| && imports[i].Blank?
    ensures PathsOf(imports[..i + 1]) == PathsOf(imports[..i]) + {imports[i].path}
    ensures AllBlank(imports[..i]) ==> AllBlank(imports[..i + 1])
  {
    var a, b := imports[..i + 1], imports[..i];
    assert forall k :: 0 <= k < i ==> a[k] == b[k];
    assert a[i] == imports[i];
  }

  /** The import resolves, and the visitor fails on it. */
  predicate FailsAt(w: World, i: string) { i in w.cfg && w.decide(i).Fail? }

  /** Where the loop over the imports of a tool file stands. */
  ghost predicate VisitedUpTo(w: World, imports: set<string>, seen0: set<string>, visited: seq<string>,
      found: seq<string>) {
    && Distinct(visited) && Elems(visited) == imports * w.cfg.Keys
    && (forall i :: i in imports ==> !FailsAt(w, i))
    && Distinct(found) && Elems(found) !! seen0 && seen0 + Elems(found) == seen0 + Targets(w, imports)
  }

  lemma {:induction false} VisitedOneMore(
      w: World, imports: set<string>, seen0: set<string>, visited: seq<string>, found: seq<string>, i: string)
    requires VisitedUpTo(w, imports, seen0, visited, found) && i !in imports && !FailsAt(w, i)
    ensures i in w.cfg ==> i !in visited && Distinct(visited + [i])
    ensures i in w.cfg ==> Elems(visited + [i]) == (imports + {i}) * w.cfg.Keys
    ensures i !in w.cfg ==> Elems(visited) == (imports + {i}) * w.cfg.Keys
    ensures Targets(w, imports + {i}) == Targets(w, imports) + Target(w, i)
  {
    assert i !in Elems(visited);
    ElemsPush(visited, i);
    TargetsPush(w, imports, i);
  }

  /** Visit the imports of one tool file and queue the tool files they lead to; stop at the first
      import the visitor fails on. */
  method VisitImports(w: World, paths: seq<string>, seen0: set<string>)
      returns (visited: seq<string>, found: seq<string>, ok: bool)
    requires Distinct(paths)
    ensures ok <==> forall i :: i in Elems(paths) ==> !FailsAt(w, i)
    ensures ok ==> VisitedUpTo(w, Elems(paths), seen0, visited, found)
    ensures !ok ==> Distinct(visited) && Elems(visited) <= Elems(paths) * w.cfg.Keys && StoppedAtLast(w, visited)
  {
    visited, found := [], [];
    for k := 0 to |paths|
      invariant VisitedUpTo(w, Elems(paths[..k]), seen0, visited, found)
    {
      var i := paths[k];
      assert paths[..k + 1] == paths[..k] + [i] && i !in paths[..k];
      ElemsPush(paths[..k], i);
      if i in w.cfg {
        if w.decide(i).Fail? {
          FailedAt(w, paths, k, visited);
          return visited + [i], found, false;
        }
        VisitedOneMore(w, Elems(paths[..k]), seen0, visited, found, i);
        visited := visited + [i];
        if w.decide(i).Recurse? && w.cfg[i] != "" {
          ElemsPush(found, w.cfg[i]);
          if w.cfg[i] !in seen0 && w.cfg[i] !in found { found := found + [w.cfg[i]]; }
        }
      } else {
        VisitedOneMore(w, Elems(paths[..k]), seen0, visited, found, i);
      }
    }
    assert paths[..|paths|] == paths;
    ok := true;
  }

  /** The visitor failed on the last import it was given, and on no other. */
  ghost predicate StoppedAtLast(w: World, visited: seq<string>) {
    && visited != [] && FailsAt(w, visited[|visited| - 1])
    && forall k :: 0 <= k < |visited| - 1 ==> !FailsAt(w, visited[k])
  }

  lemma {:induction false} FailedAt(w: World, paths: seq<string>, k: nat, visited: seq<string>)
    requires k < |paths| && Distinct(paths) && FailsAt(w, paths[k]) && Distinct(visited)
    requires Elems(visited) == Elems(paths[..k]) * w.cfg.Keys && forall i :: i in Elems(paths[..k]) ==> !FailsAt(w, i)
    ensures var now := visited + [paths[k]];
            Distinct(now) && Elems(now) <= Elems(paths) * w.cfg.Keys && StoppedAtLast(w, now)
  {
    var i := paths[k];
    assert i in Elems(paths) && i !in paths[..k];
    assert i !in Elems(visited);
    ElemsPush(visited, i);
    forall j | 0 <= j < |visited| ensures !FailsAt(w, visited[j]) { assert visited[j] in Elems(visited); }
  }

  lemma {:induction false} TargetsPush(w: World, imports: set<string>, i: string)
    ensures Targets(w, imports + {i}) == Targets(w, imports) + Target(w, i)
  {
  }

  // ---------------------------------------------------------------- the walk

  function ImportsOfAll(w: World, ts: set<string>): set<string> {
    set t, i | t in ts && t in w.files && i in PathsOf(w.files[t]) :: i
  }

  /** With a tool file, the set has the tool files its imports lead to. */
  ghost predicate Follows(w: World, ts: set<string>) { Targets(w, ImportsOfAll(w, ts)) <= ts }

  /** The least set of tool files that has the roots and follows imports. */
  ghost predicate IsWalk(w: World, roots: set<string>, ts: set<string>) {
    && roots <= ts && Follows(w, ts)
    && forall t: set<string> :: roots <= t && Follows(w, t) ==> ts <= t
  }

  /** The tool file can be reached from the roots: it is in every set that has them and follows imports. */
  ghost predicate Reached(w: World, roots: set<string>, t: string) {
    forall ts: set<string> :: roots <= ts && Follows(w, ts) ==> t in ts
  }

  /** The tool file parses, has only blank imports, and the visitor fails on none of them. */
  predicate Good(w: World, t: string) {
    t in w.files && AllBlank(w.files[t]) && forall i :: i in PathsOf(w.files[t]) ==> !FailsAt(w, i)
  }

  /** An import of a tool file that can be reached. */
  ghost predicate Imported(w: World, roots: set<string>, i: string) {
    exists t :: t in w.files && Reached(w, roots, t) && i in PathsOf(w.files[t])
  }

  /** Between two tool files. */
  ghost predicate Walking(w: World, roots: seq<string>, parsed: seq<string>, queue: seq<string>, seenI: set<string>,
      seenT: set<string>, visited: seq<string>) {
    && Elems(parsed) + Elems(queue) == seenT && (Distinct(roots) ==> Distinct(parsed + queue))
    && (forall t :: t in parsed ==> Good(w, t))
    && seenI == ImportsOfAll(w, Elems(parsed)) && Distinct(visited) && Elems(visited) == seenI * w.cfg.Keys
    && Targets(w, seenI) <= seenT && Elems(roots) <= seenT
    && forall t: set<string> :: Elems(roots) <= t && Follows(w, t) ==> seenT <= t
  }

  lemma {:induction false} WalkOn(w: World, roots: seq<string>, parsed: seq<string>, queue: seq<string>,
      seenI: set<string>, seenT: set<string>, visited: seq<string>,
                                  paths: seq<string>, now: seq<string>, found: seq<string>)
    requires queue != [] && Walking(w, roots, parsed, queue, seenI, seenT, visited)
    requires queue[0] in w.files && AllBlank(w.files[queue[0]]) && Elems(paths) == PathsOf(w.files[queue[0]]) - seenI
    requires VisitedUpTo(w, Elems(paths), seenT, now, found)
    ensures Walking(w, roots, parsed + [queue[0]], queue[1..] + found, seenI + Elems(paths), seenT
            + Elems(found), visited + now)
  {
    var t := queue[0];
    assert queue == [t] + queue[1..] && parsed + [t] + (queue[1..] + found) == (parsed + queue) + found;
    ElemsPush(parsed, t);
    ElemsConcat([t], queue[1..]);
    ElemsConcat(queue[1..], found);
    ElemsConcat(visited, now);
    ElemsConcat(parsed, queue);
    assert Elems([t]) == {t};
    if Distinct(roots) { DistinctConcat(parsed + queue, found); }
    assert Elems(visited) !! Elems(now);
    DistinctConcat(visited, now);
    assert ImportsOfAll(w, Elems(parsed) + {t}) == seenI + Elems(paths);
    NothingFailed(w, parsed, seenI, t, paths);
  }

  /** An import that was seen before did not fail then. */
  lemma {:induction false} NothingFailed(w: World, parsed: seq<string>, seenI: set<string>, t: string,
      paths: seq<string>)
    requires (forall u :: u in parsed ==> Good(w, u)) && seenI == ImportsOfAll(w, Elems(parsed))
    requires t in w.files && AllBlank(w.files[t]) && Elems(paths) == PathsOf(w.files[t]) - seenI
    requires forall i :: i in Elems(paths) ==> !FailsAt(w, i)
    ensures Good(w, t)
  {
    forall i | i in PathsOf(w.files[t]) ensures !FailsAt(w, i) {
      if i in seenI {
        var u :| u in Elems(parsed) && u in w.files && i in PathsOf(w.files[u]);
        assert Good(w, u);
      }
    }
  }

  /** What a walk has done when it stops.  It succeeds exactly when every tool file it can reach is
      good; else it stopped at one that is not, having visited only imports it can reach. */
  ghost predicate Walked(w: World, roots: seq<string>, parsed: seq<string>, visited: seq<string>, ok: bool) {
    && Distinct(visited) && (Distinct(roots) ==> Distinct(parsed))
    && (ok <==> forall t :: Reached(w, Elems(roots), t) ==> Good(w, t))
    && (ok ==> IsWalk(w, Elems(roots), Elems(parsed)) && Elems(visited) == ImportsOfAll(w, Elems(parsed)) * w.cfg.Keys)
    && (forall t :: t in parsed ==> Good(w, t) && Reached(w, Elems(roots), t))
    && (forall i :: i in visited ==> i in w.cfg && Imported(w, Elems(roots), i))
    && forall k :: 0 <= k < |visited| - 1 ==> !FailsAt(w, visited[k])
  }

  /** So far nothing failed, and everything was reached. */
  lemma {:induction false} WalkSoFar(w: World, roots: seq<string>, parsed: seq<string>, queue: seq<string>,
      seenI: set<string>, seenT: set<string>, visited: seq<string>)
    requires Walking(w, roots, parsed, queue, seenI, seenT, visited)
    ensures Distinct(roots) ==> Distinct(parsed)
    ensures forall t :: t in seenT ==> Reached(w, Elems(roots), t)
    ensures forall t :: t in parsed ==> Good(w, t) && Reached(w, Elems(roots), t)
    ensures forall i :: i in visited ==> i in w.cfg && Imported(w, Elems(roots), i) && !FailsAt(w, i)
  {
    DistinctPrefix(parsed, queue);
    forall t | t in parsed ensures t in seenT { assert t in Elems(parsed); }
    forall i | i in visited ensures i in w.cfg && Imported(w, Elems(roots), i) && !FailsAt(w, i) {
      assert i in Elems(visited);
      var t :| t in Elems(parsed) && t in w.files && i in PathsOf(w.files[t]);
      assert t in parsed && Good(w, t);
    }
  }

  lemma {:induction false} WalkSucceeds(w: World, roots: seq<string>, parsed: seq<string>, seenI: set<string>,
      seenT: set<string>, visited: seq<string>)
    requires Walking(w, roots, parsed, [], seenI, seenT, visited)
    ensures Walked(w, roots, parsed, visited, true)
  {
    WalkSoFar(w, roots, parsed, [], seenI, seenT, visited);
    assert IsWalk(w, Elems(roots), Elems(parsed));
    forall t | Reached(w, Elems(roots), t) ensures Good(w, t) { assert t in Elems(parsed); }
  }

  /** The walk stops at the next tool file, which is not good. */
  lemma {:induction false} WalkFails(w: World, roots: seq<string>, parsed: seq<string>, queue: seq<string>,
      seenI: set<string>, seenT: set<string>, visited: seq<string>, now: seq<string>)
    requires queue != [] && Walking(w, roots, parsed, queue, seenI, seenT, visited) && !Good(w, queue[0])
    requires now == [] || (queue[0] in w.files && Distinct(now)
             && Elems(now) <= (PathsOf(w.files[queue[0]]) - seenI) * w.cfg.Keys && StoppedAtLast(w, now))
    ensures Walked(w, roots, parsed, visited + now, false)
  {
    WalkSoFar(w, roots, parsed, queue, seenI, seenT, visited);
    assert queue[0] in Elems(queue) && Reached(w, Elems(roots), queue[0]);
    if now == [] {
      assert visited + now == visited;
    } else {
      assert Elems(visited) !! Elems(now);
      DistinctConcat(visited, now);
      forall i | i in now ensures i in w.cfg && Imported(w, Elems(roots), i) { assert i in Elems(now); }
    }
  }

  /** One tool file; on failure the walk is over. */
  method WalkNext(w: World, roots: seq<string>, parsed: seq<string>, queue: seq<string>, seenI: set<string>,
      seenT: set<string>, visited: seq<string>, ghost all: set<string>)
      returns (found: seq<string>, paths: seq<string>, now: seq<string>, ok: bool)
    requires queue != [] && Walking(w, roots, parsed, queue, seenI, seenT, visited) && seenT <= all
             && w.cfg.Values <= all
    ensures !ok ==> Walked(w, roots, parsed, visited + now, false)
    ensures ok ==> Walking(w, roots, parsed + [queue[0]], queue[1..] + found, seenI + Elems(paths), seenT
            + Elems(found), visited + now)
    ensures ok ==> seenT + Elems(found) <= all && |all - (seenT + Elems(found))| + |found| == |all - seenT|
  {
    var toolFile := queue[0];
    found, paths, now, ok := [], [], [], false;
    if toolFile !in w.files {
      WalkFails(w, roots, parsed, queue, seenI, seenT, visited, []);
      return;
    }
    var seen, collected;
    paths, seen, collected := CollectImports(w.files[toolFile], seenI);
    if !collected {
      WalkFails(w, roots, parsed, queue, seenI, seenT, visited, []);
      return;
    }
    now, found, ok := VisitImports(w, paths, seenT);
    if ok {
      WalkOn(w, roots, parsed, queue, seenI, seenT, visited, paths, now, found);
      FoundInAll(w, Elems(paths), seenT, found, all);
    } else {
      WalkFails(w, roots, parsed, queue, seenI, seenT, visited, now);
    }
  }

  // ---------------------------------------------------------------- tool files along imports

  /** A blank import of tool file t that resolves, that the visitor wants followed, and that has tool
      file u. */
  ghost predicate Leads(w: World, t: string, u: string) {
    && t in w.files
    && exists k :: 0 <= k < |w.files[t]| && LeadsBy(w, w.files[t][k], u)
  }

  predicate LeadsBy(w: World, i: Import, u: string) {
    i.Blank? && i.path in w.cfg && w.decide(i.path) == Recurse && w.cfg[i.path] == u && u != ""
  }

  ghost predicate Chain(w: World, roots: set<string>, path: seq<string>, t: string) {
    && path != [] && path[0] in roots && path[|path| - 1] == t
    && forall k :: 0 <= k < |path| - 1 ==> Leads(w, path[k], path[k + 1])
  }

  ghost predicate HasChain(w: World, roots: set<string>, t: string) {
    exists path :: Chain(w, roots, path, t)
  }

  lemma {:induction false} LeadsIsTarget(w: World, ts: set<string>, u: string)
    ensures u in Targets(w, ImportsOfAll(w, ts)) <==> exists t :: t in ts && Leads(w, t, u)
  {
    if u in Targets(w, ImportsOfAll(w, ts)) {
      var i :| i in ImportsOfAll(w, ts) && u in Target(w, i);
      var t :| t in ts && t in w.files && i in PathsOf(w.files[t]);
      var k :| 0 <= k < |w.files[t]| && w.files[t][k].Blank? && w.files[t][k].path == i;
      assert LeadsBy(w, w.files[t][k], u);
      assert Leads(w, t, u);
    }
    if t :| t in ts && Leads(w, t, u) {
      var k :| 0 <= k < |w.files[t]| && LeadsBy(w, w.files[t][k], u);
      var i := w.files[t][k].path;
      assert i in PathsOf(w.files[t]) && i in ImportsOfAll(w, ts) && u in Target(w, i);
    }
  }

  lemma {:induction false} AlongChain(w: World, roots: set<string>, ts: set<string>, path: seq<string>, k: nat)
    requires roots <= ts && Follows(w, ts) && k < |path| && path[0] in roots
    requires forall j :: 0 <= j < |path| - 1 ==> Leads(w, path[j], path[j + 1])
    ensures path[k] in ts
    decreases k
  {
    if k > 0 {
      AlongChain(w, roots, ts, path, k - 1);
      assert Leads(w, path[k - 1], path[k - 1 + 1]);
      LeadsIsTarget(w, ts, path[k]);
    }
  }

  lemma {:induction false} ChainIsReached(w: World, roots: set<string>, t: string)
    requires HasChain(w, roots, t)
    ensures Reached(w, roots, t)
  {
    var path :| Chain(w, roots, path, t);
    forall ts: set<string> | roots <= ts && Follows(w, ts) ensures t in ts {
      AlongChain(w, roots, ts, path, |path| - 1);
    }
  }

  /** The tool files that have a chain are closed under following imports. */
  lemma {:induction false} ChainsFollow(w: World, roots: set<string>, ts: set<string>)
    requires ts == set t | t in roots + w.cfg.Values && HasChain(w, roots, t)
    ensures roots <= ts && Follows(w, ts)
  {
    forall t | t in roots ensures t in ts { assert Chain(w, roots, [t], t); }
    forall u | u in Targets(w, ImportsOfAll(w, ts)) ensures u in ts {
      LeadsIsTarget(w, ts, u);
      var t :| t in ts && Leads(w, t, u);
      var path :| Chain(w, roots, path, t);
      assert Chain(w, roots, path + [u], u);
      var k :| 0 <= k < |w.files[t]| && LeadsBy(w, w.files[t][k], u);
    }
  }

  /** What can be reached is what a chain of imports leads to. */
  lemma {:induction false} ReachedMeans(w: World, roots: set<string>)
    ensures forall t :: Reached(w, roots, t) <==> HasChain(w, roots, t)
  {
    forall t | HasChain(w, roots, t) ensures Reached(w, roots, t) { ChainIsReached(w, roots, t); }
    var ts := set t | t in roots + w.cfg.Values && HasChain(w, roots, t);
    ChainsFollow(w, roots, ts);
  }

  /** Every import of the tool file is blank, and the visitor fails on none that resolves. */
  ghost predicate Clean(w: World, t: string) {
    && t in w.files
    && forall k :: 0 <= k < |w.files[t]| ==>
         var i := w.files[t][k];
         i.Blank? && (i.path in w.cfg ==> w.decide(i.path) != Fail)
  }

  lemma {:induction false} GoodIsClean(w: World, t: string)
    ensures Good(w, t) <==> Clean(w, t)
  {
    if Good(w, t) {
      forall k | 0 <= k < |w.files[t]| ensures w.files[t][k].path in w.cfg ==> w.decide(w.files[t][k].path) != Fail {
        assert w.files[t][k].path in PathsOf(w.files[t]);
        assert !FailsAt(w, w.files[t][k].path);
      }
    }
  }

  /** What the walk comes to, in terms of chains of imports. */
  lemma {:induction false} WalkMeans(w: World, roots: seq<string>, parsed: seq<string>, visited: seq<string>, ok: bool)
    requires Walked(w, roots, parsed, visited, ok)
    ensures ok <==> forall t :: HasChain(w, Elems(roots), t) ==> Clean(w, t)
    ensures ok ==> forall t :: t in parsed <==> HasChain(w, Elems(roots), t)
    ensures ok ==> forall i :: i in visited <==> i in w.cfg && exists t, k ::
              t in w.files && HasChain(w, Elems(roots), t) && 0 <= k < |w.files[t]| && w.files[t][k] == Blank(i)
  {
    ReachedMeans(w, Elems(roots));
    forall t ensures Good(w, t) <==> Clean(w, t) { GoodIsClean(w, t); }
    if ok {
      forall t ensures t in parsed <==> HasChain(w, Elems(roots), t) { assert t in Elems(parsed) <==> t in parsed; }
      forall i ensures i in visited <==> i in w.cfg && exists t, k ::
                t in w.files && HasChain(w, Elems(roots), t) && 0 <= k < |w.files[t]| && w.files[t][k] == Blank(i)
      {
        assert i in visited <==> i in Elems(visited);
        if i in visited {
          var t :| t in Elems(parsed) && t in w.files && i in PathsOf(w.files[t]);
          var k :| 0 <= k < |w.files[t]| && w.files[t][k].Blank? && w.files[t][k].path == i;
          assert w.files[t][k] == Blank(i);
        }
        if t, k :| t in w.files && HasChain(w, Elems(roots), t) && 0 <= k < |w.files[t]| && w.files[t][k] == Blank(i) {
          assert t in Elems(parsed) && i in PathsOf(w.files[t]);
        }
      }
    }
  }

  /** Walk the tool files breadth-first.  The walk ends although tool files can import each other. */
  method WalkInstrumentation(w: World, roots: seq<string>) returns (parsed: seq<string>, visited: seq<string>, ok: bool)
    ensures Walked(w, roots, parsed, visited, ok)
    ensures ok <==> forall t :: HasChain(w, Elems(roots), t) ==> Clean(w, t)
    ensures ok ==> forall t :: t in parsed <==> HasChain(w, Elems(roots), t)
  {
    parsed, visited := [], [];
    var queue, seenI, seenT := roots, {}, Elems(roots);
    ghost var all := Elems(roots) + w.cfg.Values;
    WalkStarts(w, roots);
    while queue != []
      invariant Walking(w, roots, parsed, queue, seenI, seenT, visited) && seenT <= all
      decreases |all - seenT| + |queue|
    {
      var found, paths, now;
      found, paths, now, ok := WalkNext(w, roots, parsed, queue, seenI, seenT, visited, all);
      if !ok {
        WalkMeans(w, roots, parsed, visited + now, false);
        return parsed, visited + now, false;
      }
      parsed, queue, seenI, seenT, visited := parsed + [queue[0]], queue[1..] + found, seenI + Elems(paths), seenT
        + Elems(found), visited + now;
    }
    WalkSucceeds(w, roots, parsed, seenI, seenT, visited);
    WalkMeans(w, roots, parsed, visited, true);
    ok := true;
  }

  lemma {:induction false} WalkStarts(w: World, roots: seq<string>)
    ensures Walking(w, roots, [], roots, {}, Elems(roots), [])
  {
    assert [] + roots == roots;
    assert ImportsOfAll(w, {}) == {} && Targets(w, {}) == {};
  }

  lemma {:induction false} FoundInAll(w: World, imports: set<string>, seenT: set<string>, found: seq<string>,
      all: set<string>)
    requires seenT <= all && w.cfg.Values <= all && Distinct(found) && Elems(found) !! seenT
             && seenT + Elems(found) == seenT + Targets(w, imports)
    ensures seenT + Elems(found) <= all && |all - (seenT + Elems(found))| + |found| == |all - seenT|
  {
    Counted(found);
    assert Elems(found) <= all;
    assert all - seenT == (all - (seenT + Elems(found))) + Elems(found);
  }

  lemma {:induction false} Counted<T>(s: seq<T>)
    requires Distinct(s)
    ensures |Elems(s)| == |s|
    decreases |s|
  {
    if s != [] {
      var init := s[..|s| - 1];
      assert s == init + [s[|s| - 1]];
      assert s[|s| - 1] !in init;
      Counted(init);
      ElemsPush(init, s[|s| - 1]);
    }
  }

  lemma {:induction false} DistinctPrefix<T>(a: seq<T>, b: seq<T>)
    ensures Distinct(a + b) ==> Distinct(a)
  {
    if Distinct(a + b) {
      forall i, j | 0 <= i < j < |a| ensures a[i] != a[j] { assert (a + b)[i] == a[i] && (a + b)[j] == a[j]; }
    }
  }
}
