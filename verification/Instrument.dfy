/** Inserting trampoline jumps and optimizing them, on the mutable syntax tree. */
module Instrument {
  import opened TJumpSemantics
  import opened TJumpChain
  import opened GoAst
  import Naming
  import HookLang
  import Decimal

  // ---------------------------------------------------------------- the value of a tree of jumps

  /** What follows the deferred call in the else-block of node i: nothing, or `;` and the next node. */
  function Rest(nodes: seq<IfNode>, i: nat): seq<Item>
    requires i < |nodes|
  {
    if i == |nodes| - 1 then [] else [Plain(Empty), Nested(nodes[i + 1])]
  }

  ghost predicate LinkAt(nodes: seq<IfNode>, i: nat)
    requires i < |nodes|
    reads nodes
  {
    nodes[i].els != [] && nodes[i].els[0].Plain? && nodes[i].els == [nodes[i].els[0]] + Rest(nodes, i)
  }

  /** `nodes` are nested in each other's else-blocks, outermost first. */
  ghost predicate Linked(nodes: seq<IfNode>)
    reads nodes
  {
    && (forall i, j :: 0 <= i < j < |nodes| ==> nodes[i] != nodes[j])
    && (forall i :: 0 <= i < |nodes| ==> LinkAt(nodes, i))
  }

  ghost function Value(nodes: seq<IfNode>, from: nat): seq<Stmt>
    requires Linked(nodes) && from <= |nodes|
    reads nodes
    decreases |nodes| - from
  {
    if from == |nodes| then []
    else
      var n := nodes[from];
      assert LinkAt(nodes, from);
      var inner := Value(nodes, from + 1);
      [IfStmt(n.labels == [T_JUMP_LABEL], n.init, n.cond, n.body, [n.els[0].s]
        + (if inner == [] then [] else [Empty] + inner))]
  }

  /** Apart from what is nested in it, the node is the jump of rule r in the given form. */
  ghost predicate IsJump(n: IfNode, r: Rule, fn: Func, mode: Mode)
    reads n
  {
    && n.labels == (if mode.Generated? then [T_JUMP_LABEL] else [])
    && n.init == JumpInit(r, fn, mode)
    && n.cond == JumpCond(r, mode)
    && n.body == JumpBody(r, fn, mode)
    && n.els != [] && n.els[0] == Plain(JumpDefer(r, fn, mode))
  }

  ghost predicate JumpAt(nodes: seq<IfNode>, rules: seq<Rule>, fn: Func, modes: seq<Mode>, i: nat)
    requires i < |nodes| == |rules| == |modes|
    reads nodes
  {
    IsJump(nodes[i], rules[i], fn, modes[i])
  }

  ghost predicate AreJumps(nodes: seq<IfNode>, rules: seq<Rule>, fn: Func, modes: seq<Mode>)
    reads nodes
  {
    |nodes| == |rules| == |modes| && forall i :: 0 <= i < |nodes| ==> JumpAt(nodes, rules, fn, modes, i)
  }

  lemma {:induction false} ValueIsChain(nodes: seq<IfNode>, rules: seq<Rule>, fn: Func, modes: seq<Mode>, from: nat)
    requires Linked(nodes) && AreJumps(nodes, rules, fn, modes) && from <= |nodes|
    ensures Value(nodes, from) == Chain(rules[from..], modes[from..], fn)
    decreases |nodes| - from
  {
    if from < |nodes| {
      ValueIsChain(nodes, rules, fn, modes, from + 1);
      assert rules[from..][1..] == rules[from + 1..] && modes[from..][1..] == modes[from + 1..];
      assert LinkAt(nodes, from) && JumpAt(nodes, rules, fn, modes, from);
    }
  }

  function FuncOf(f: FuncDecl): Func
    reads f`recv, f`params, f`results
  {
    Func(f.name, Naming.Slots(f.recv) + Naming.Slots(f.params), Naming.Slots(f.results))
  }

  // ---------------------------------------------------------------- insertion

  /** The node whose else-block takes the next jump, or null when `jumpIf` is not a jump at all. */
  method FindJumpPoint(jumpIf: IfNode, ghost nodes: seq<IfNode>, ghost at: nat) returns (point: IfNode?)
    requires jumpIf.labels == [T_JUMP_LABEL] ==>
               Linked(nodes) && at < |nodes| && nodes[at] == jumpIf && forall n :: n in nodes ==>
                 n.labels == [T_JUMP_LABEL]
    ensures point == if jumpIf.labels == [T_JUMP_LABEL] then nodes[|nodes| - 1] else null
    decreases |nodes| - at
  {
    if |jumpIf.labels| == 1 && jumpIf.labels[0] == T_JUMP_LABEL {
      assert LinkAt(nodes, at);
      if |jumpIf.els| > 1 {
        var last := jumpIf.els[|jumpIf.els| - 1];
        point := FindJumpPoint(last.node, nodes, at + 1);
      } else {
        point := jumpIf;
      }
    } else {
      point := null;
    }
  }

  /** The first statement of the body is not a trampoline jump. */
  ghost predicate NoJumpYet(body: seq<Item>)
    reads (if body != [] && body[0].Nested? then {body[0].node} else {})`labels
  {
    body == [] || body[0].Plain? || body[0].node.labels != [T_JUMP_LABEL]
  }

  method InsertToFunc(f: FuncDecl, tjump: IfNode, ghost nodes: seq<IfNode>)
    requires Linked(nodes) && forall n :: n in nodes ==> n.labels == [T_JUMP_LABEL]
    requires if nodes == [] then NoJumpYet(f.body) else f.body != [] && f.body[0] == Nested(nodes[0])
    requires tjump !in nodes && |tjump.els| == 1 && tjump.els[0].Plain?
    modifies f`body, (set n | n in nodes)`els
    ensures Linked(nodes + [tjump])
    ensures forall i :: 0 <= i < |nodes| ==>
            nodes[i].els != [] && old(nodes[i].els) != [] && nodes[i].els[0] == old(nodes[i].els[0])
    ensures f.body == if nodes != [] then old(f.body)
                      else [Nested(tjump)] + (if old(f.body) == [] then [Plain(Empty)] else old(f.body))
  {
    assert forall i :: 0 <= i < |nodes| ==> LinkAt(nodes, i);
    var found := false;
    if |f.body| > 0 {
      var first := f.body[0];
      if first.Nested? {
        var point := FindJumpPoint(first.node, nodes, 0);
        if point != null {
          point.els := point.els + [Plain(Empty)];
          point.els := point.els + [Nested(tjump)];
          found := true;
        }
      }
    }
    if !found {
      if |f.body| == 0 {
        f.body := [Plain(Empty)];
      }
      f.body := [Nested(tjump)] + f.body;
    }
    forall i | 0 <= i < |nodes|
      ensures nodes[i].els != [] && old(nodes[i].els) != [] && nodes[i].els[0] == old(nodes[i].els[0])
    {
      assert old(LinkAt(nodes, i));
    }
    forall i | 0 <= i < |nodes + [tjump]| ensures LinkAt(nodes + [tjump], i) {
      if i < |nodes| { assert old(LinkAt(nodes, i)); }
    }
  }

  method CreateTJumpIf(r: Rule, f: FuncDecl, args: seq<string>, retVals: seq<string>) returns (tjump: IfNode)
    requires FuncOf(f) == Func(f.name, args, retVals)
    ensures fresh(tjump) && IsJump(tjump, r, FuncOf(f), Generated) && |tjump.els| == 1
  {
    var beforeCall := BeforeCall(MakeName(r, f.name, true), args);
    var afterCall := AfterCall(MakeName(r, f.name, false), CtxVar(CtxName(r.id)), retVals);
    tjump := new IfNode(
      Define(CtxName(r.id), SkipName(r.id), beforeCall),
      NameCond(SkipName(r.id)),
      [ExprStmt(afterCall), ReturnStmt(retVals)],
      [Plain(DeferStmt(afterCall))]);
    tjump.labels := tjump.labels + [T_JUMP_LABEL];
  }

  datatype TJump = TJump(target: FuncDecl, ifStmt: IfNode, rule: Rule)

  /** One run over one target file.  `hooks` holds the Before hooks that can be found and parsed. */
  class Phase {
    const file: File
    const hooks: map<nat, HookLang.Hook>
    var tjumps: seq<TJump>
    var applied: set<nat>

    constructor (file: File, hooks: map<nat, HookLang.Hook>)
      ensures this.file == file && this.hooks == hooks && tjumps == [] && applied == {}
    {
      this.file, this.hooks, tjumps, applied := file, hooks, [], {};
    }
  }

  /** What inserting a jump for each rule in turn leaves behind: a chain with one jump for each
      rule, in the order of application, in front of the target's own body. */
  ghost predicate Built(nodes: seq<IfNode>, rules: seq<Rule>, fn: Func, body0: seq<Item>, body: seq<Item>)
    reads nodes
  {
    && Linked(nodes) && AreJumps(nodes, rules, fn, AllGenerated(|rules|))
    && body == if nodes == [] then body0 else [Nested(nodes[0])] + (if body0 == [] then [Plain(Empty)] else body0)
  }

  /** Insert the jump of one more rule, the signature being named already. */
  method AttachJump(tjump: IfNode, r: Rule, f: FuncDecl, ghost fn: Func, ghost nodes: seq<IfNode>,
      ghost rules: seq<Rule>, ghost body0: seq<Item>)
    requires Built(nodes, rules, fn, body0, f.body) && NoJumpYet(body0)
    requires tjump !in nodes && IsJump(tjump, r, fn, Generated) && |tjump.els| == 1
    modifies f`body, (set n | n in nodes)`els
    ensures Built(nodes + [tjump], rules + [r], fn, body0, f.body)
  {
    Labelled(nodes, rules, fn);
    InsertToFunc(f, tjump, nodes);
    ghost var modes := AllGenerated(|rules|);
    forall i | 0 <= i < |nodes| ensures JumpAt(nodes, rules, fn, modes, i) {
      assert old(JumpAt(nodes, rules, fn, modes, i));
    }
    OneMoreJump(nodes, rules, fn, tjump, r);
  }

  lemma {:induction false} Labelled(nodes: seq<IfNode>, rules: seq<Rule>, fn: Func)
    requires AreJumps(nodes, rules, fn, AllGenerated(|rules|))
    ensures forall n :: n in nodes ==> n.labels == [T_JUMP_LABEL]
  {
    forall i | 0 <= i < |nodes| ensures nodes[i].labels == [T_JUMP_LABEL] {
      assert JumpAt(nodes, rules, fn, AllGenerated(|rules|), i);
    }
  }

  lemma {:induction false} OneMoreJump(nodes: seq<IfNode>, rules: seq<Rule>, fn: Func, tjump: IfNode, r: Rule)
    requires AreJumps(nodes, rules, fn, AllGenerated(|rules|)) && IsJump(tjump, r, fn, Generated)
    ensures AreJumps(nodes + [tjump], rules + [r], fn, AllGenerated(|rules| + 1))
  {
    var all, allRules, modes := nodes + [tjump], rules + [r], AllGenerated(|rules| + 1);
    forall i | 0 <= i < |all| ensures JumpAt(all, allRules, fn, modes, i) {
      if i < |nodes| { assert JumpAt(nodes, rules, fn, AllGenerated(|rules|), i); }
    }
  }

  /** Every receiver, parameter and result of the target has a name of its own. */
  ghost predicate Named(f: FuncDecl)
    reads f`recv, f`params, f`results
  {
    Naming.ValidDecl(f) && Naming.NoClash(Naming.Signature(f)) && Naming.AllGiven(Naming.Signature(f))
  }

  /** Where the application of rules to one function stands: `done` are the rules inserted so far. */
  ghost predicate Applied(f: FuncDecl, nodes: seq<IfNode>, done: seq<Rule>, body0: seq<Item>)
    reads f, nodes
  {
    && Naming.ValidDecl(f) && Naming.NoClash(Naming.Signature(f))
    && (nodes != [] ==> Named(f))
    && Built(nodes, done, FuncOf(f), body0, f.body)
  }

  /** Naming the signature changes no target that has a jump already. */
  method NameTarget(r: Rule, f: FuncDecl, ghost nodes: seq<IfNode>, ghost rules: seq<Rule>, ghost body0: seq<Item>)
      returns (args: seq<string>, retVals: seq<string>)
    requires Applied(f, nodes, rules, body0)
    modifies f`recv, f`params, f`results
    ensures FuncOf(f) == Func(f.name, args, retVals) && Named(f)
    ensures nodes != [] ==> FuncOf(f) == old(FuncOf(f))
    ensures Built(nodes, rules, FuncOf(f), body0, f.body)
  {
    ghost var fn := FuncOf(f);
    args, retVals := Naming.NameSignature(f, Decimal.Itoa(r.id));
    assert nodes != [] ==> FuncOf(f) == fn;
    assert Built(nodes, rules, fn, body0, f.body);
  }

  /** The part of inserting a jump that edits the target. */
  method EditTarget(r: Rule, f: FuncDecl, ghost nodes: seq<IfNode>, ghost rules: seq<Rule>, ghost body0: seq<Item>)
      returns (tjump: IfNode)
    requires Applied(f, nodes, rules, body0) && NoJumpYet(body0)
    modifies f, (set n | n in nodes)`els
    ensures fresh(tjump) && Applied(f, nodes + [tjump], rules + [r], body0)
    ensures nodes != [] ==> FuncOf(f) == old(FuncOf(f))
  {
    var args, retVals := NameTarget(r, f, nodes, rules, body0);
    ghost var fn := FuncOf(f);
    tjump := CreateTJumpIf(r, f, args, retVals);
    AttachJump(tjump, r, f, fn, nodes, rules, body0);
    assert Named(f) && FuncOf(f) == fn;
  }

  /** The jump, its record for the optimizer and its two trampolines. */
  method InsertTJump(p: Phase, r: Rule, f: FuncDecl, ghost nodes: seq<IfNode>, ghost rules: seq<Rule>,
      ghost body0: seq<Item>)
      returns (tjump: IfNode)
    requires Applied(f, nodes, rules, body0) && NoJumpYet(body0)
    modifies p, p.file, f, (set n | n in nodes)`els
    ensures fresh(tjump) && Applied(f, nodes + [tjump], rules + [r], body0)
    ensures nodes != [] ==> FuncOf(f) == old(FuncOf(f))
    ensures p.tjumps == old(p.tjumps) + [TJump(f, tjump, r)] && p.applied == old(p.applied)
    ensures p.file.decls == old(p.file.decls) + TrampolinesOf(r, f.name)
  {
    tjump := EditTarget(r, f, nodes, rules, body0);
    Record(p, f, tjump, r, nodes + [tjump], rules + [r], body0);
  }

  method Record(p: Phase, f: FuncDecl, tjump: IfNode, r: Rule, ghost nodes: seq<IfNode>, ghost rules: seq<Rule>,
      ghost body0: seq<Item>)
    requires Applied(f, nodes, rules, body0)
    modifies p`tjumps, p.file
    ensures Applied(f, nodes, rules, body0)
    ensures p.tjumps == old(p.tjumps) + [TJump(f, tjump, r)]
    ensures p.file.decls == old(p.file.decls) + TrampolinesOf(r, f.name)
  {
    p.tjumps := p.tjumps + [TJump(f, tjump, r)];
    p.file.decls := p.file.decls + TrampolinesOf(r, f.name);
  }

  function TrampolinesOf(r: Rule, fn: string): seq<Decl> {
    [Trampoline(MakeName(r, fn, true), r.before != ""), Trampoline(MakeName(r, fn, false), r.after != "")]
  }

  /** The rules that insert something: a rule whose identity has been applied already is skipped. */
  function NewRules(rules: seq<Rule>, seen: set<nat>): seq<Rule> {
    if rules == [] then []
    else if rules[0].id in seen then NewRules(rules[1..], seen)
    else [rules[0]] + NewRules(rules[1..], seen + {rules[0].id})
  }

  ghost predicate DistinctIds(rules: seq<Rule>) {
    forall i, j :: 0 <= i < j < |rules| ==> rules[i].id != rules[j].id
  }

  ghost predicate NoneSeen(rules: seq<Rule>, seen: set<nat>) {
    forall i :: 0 <= i < |rules| ==> rules[i].id !in seen
  }

  /** Every inserted rule has an identity of its own. */
  lemma {:induction false} NewRulesDistinct(rules: seq<Rule>, seen: set<nat>)
    ensures DistinctIds(NewRules(rules, seen)) && NoneSeen(NewRules(rules, seen), seen)
    decreases |rules|
  {
    if rules == [] {
    } else if rules[0].id in seen {
      NewRulesDistinct(rules[1..], seen);
    } else {
      var tail := NewRules(rules[1..], seen + {rules[0].id});
      NewRulesDistinct(rules[1..], seen + {rules[0].id});
      forall i | 0 <= i < |tail| ensures tail[i].id != rules[0].id && tail[i].id !in seen { }
    }
  }

  /** No identity is dropped altogether, and nothing is inserted that was not asked for. */
  lemma {:induction false} NewRulesCover(rules: seq<Rule>, seen: set<nat>, r: Rule)
    ensures r in NewRules(rules, seen) ==> r in rules
    ensures r in rules && r.id !in seen ==> exists r' :: r' in NewRules(rules, seen) && r'.id == r.id
    decreases |rules|
  {
    if rules != [] {
      var seen' := if rules[0].id in seen then seen else seen + {rules[0].id};
      NewRulesCover(rules[1..], seen', r);
      if r in rules && r.id !in seen {
        if r.id == rules[0].id {
          assert rules[0] in NewRules(rules, seen);
        } else {
          assert r in rules[1..];
          var r' :| r' in NewRules(rules[1..], seen') && r'.id == r.id;
          assert r' in NewRules(rules, seen);
        }
      }
    }
  }

  function TrampolinesOfAll(rules: seq<Rule>, fn: string): seq<Decl> {
    if rules == [] then [] else TrampolinesOfAll(rules[..|rules| - 1], fn) + TrampolinesOf(rules[|rules| - 1], fn)
  }

  function JumpsOf(f: FuncDecl, nodes: seq<IfNode>, rules: seq<Rule>): seq<TJump>
    requires |nodes| == |rules|
  {
    seq(|nodes|, i requires 0 <= i < |nodes| => TJump(f, nodes[i], rules[i]))
  }

  /** The bookkeeping that goes with it: candidates for the optimizer, and trampolines declared. */
  ghost predicate Recorded(tjumps: seq<TJump>, decls: seq<Decl>, f: FuncDecl, nodes: seq<IfNode>, done: seq<Rule>,
                           tjumps0: seq<TJump>, decls0: seq<Decl>) {
    && |nodes| == |done|
    && tjumps == tjumps0 + JumpsOf(f, nodes, done)
    && decls == decls0 + TrampolinesOfAll(done, f.name)
  }

  lemma {:induction false} RecordMore(
      tjumps: seq<TJump>, decls: seq<Decl>, f: FuncDecl, nodes: seq<IfNode>, done: seq<Rule>, tjumps0: seq<TJump>,
      decls0: seq<Decl>, n: IfNode, r: Rule)
    requires Recorded(tjumps, decls, f, nodes, done, tjumps0, decls0)
    ensures Recorded(tjumps + [TJump(f, n, r)], decls + TrampolinesOf(r, f.name), f, nodes + [n],
                     done + [r], tjumps0, decls0)
  {
    assert (done + [r])[..|done|] == done;
    assert JumpsOf(f, nodes + [n], done + [r]) == JumpsOf(f, nodes, done) + [TJump(f, n, r)];
  }

  /** One rule on one function; a rule whose identity was applied already changes nothing. */
  method ApplyFuncRule(p: Phase, f: FuncDecl, r: Rule, nodes: seq<IfNode>, ghost done: seq<Rule>,
      ghost body0: seq<Item>)
      returns (tjump: IfNode?)
    requires Applied(f, nodes, done, body0) && NoJumpYet(body0)
    modifies p, p.file, f, (set n | n in nodes)`els
    ensures p.applied == old(p.applied) + {r.id} && (tjump == null <==> r.id in old(p.applied))
    ensures tjump == null ==>
              p.tjumps == old(p.tjumps) && p.file.decls == old(p.file.decls) && Applied(f, nodes, done, body0)
    ensures tjump != null ==>
              fresh(tjump) && Applied(f, nodes + [tjump], done + [r], body0)
              && p.tjumps == old(p.tjumps) + [TJump(f, tjump, r)]
              && p.file.decls == old(p.file.decls) + TrampolinesOf(r, f.name)
  {
    if r.id in p.applied {
      assert p.applied == p.applied + {r.id};
      return null;
    }
    p.applied := p.applied + {r.id};
    tjump := InsertTJump(p, r, f, nodes, done, body0);
  }

  /** The loop over the rules has come to position i; `all` are the rules it inserts in the end. */
  ghost predicate Reached(rules: seq<Rule>, i: nat, seen: set<nat>, done: seq<Rule>, all: seq<Rule>) {
    i <= |rules| && done + NewRules(rules[i..], seen) == all
  }

  lemma {:induction false} ReachedNext(rules: seq<Rule>, i: nat, seen: set<nat>, done: seq<Rule>, all: seq<Rule>)
    requires Reached(rules, i, seen, done, all) && i < |rules|
    ensures Reached(rules, i + 1, seen + {rules[i].id}, if rules[i].id in seen then done else done + [rules[i]], all)
  {
    var rest := NewRules(rules[i + 1..], seen + {rules[i].id});
    assert rules[i..][1..] == rules[i + 1..];
    NewRulesStep(rules[i..], seen);
    assert done + ([rules[i]] + rest) == done + [rules[i]] + rest && done + ([] + rest) == done + rest;
  }

  method ApplyNext(p: Phase, f: FuncDecl, r: Rule, nodes: seq<IfNode>, ghost done: seq<Rule>,
                   ghost body0: seq<Item>, ghost tjumps0: seq<TJump>, ghost decls0: seq<Decl>)
      returns (nodes': seq<IfNode>, ghost done': seq<Rule>)
    requires Applied(f, nodes, done, body0) && NoJumpYet(body0)
    requires Recorded(p.tjumps, p.file.decls, f, nodes, done, tjumps0, decls0)
    modifies p, p.file, f, (set n | n in nodes)`els
    ensures p.applied == old(p.applied) + {r.id} && done' == if r.id in old(p.applied) then done else done + [r]
    ensures Applied(f, nodes', done', body0) && NoJumpYet(body0)
    ensures Recorded(p.tjumps, p.file.decls, f, nodes', done', tjumps0, decls0)
    ensures forall n :: n in nodes' ==> n in nodes || fresh(n)
  {
    ghost var tjumps, decls := p.tjumps, p.file.decls;
    var tjump := ApplyFuncRule(p, f, r, nodes, done, body0);
    if tjump == null {
      nodes', done' := nodes, done;
    } else {
      RecordMore(tjumps, decls, f, nodes, done, tjumps0, decls0, tjump, r);
      nodes', done' := nodes + [tjump], done + [r];
    }
  }

  /** The loop over the rules has come to position i. */
  ghost predicate Underway(p: Phase, f: FuncDecl, rules: seq<Rule>, i: nat, nodes: seq<IfNode>, done: seq<Rule>,
      all: seq<Rule>,
                           body0: seq<Item>, tjumps0: seq<TJump>, decls0: seq<Decl>)
    reads p, p.file, f, nodes
    reads (if body0 != [] && body0[0].Nested? then {body0[0].node} else {})`labels
  {
    && Reached(rules, i, p.applied, done, all) && Applied(f, nodes, done, body0) && NoJumpYet(body0)
    && Recorded(p.tjumps, p.file.decls, f, nodes, done, tjumps0, decls0)
  }

  method ApplyAt(p: Phase, f: FuncDecl, rules: seq<Rule>, i: nat, nodes: seq<IfNode>, ghost done: seq<Rule>,
      ghost all: seq<Rule>,
                 ghost body0: seq<Item>, ghost tjumps0: seq<TJump>, ghost decls0: seq<Decl>)
      returns (nodes': seq<IfNode>, ghost done': seq<Rule>)
    requires Underway(p, f, rules, i, nodes, done, all, body0, tjumps0, decls0) && i < |rules|
    modifies p, p.file, f, (set n | n in nodes)`els
    ensures Underway(p, f, rules, i + 1, nodes', done', all, body0, tjumps0, decls0)
    ensures forall n :: n in nodes' ==> n in nodes || fresh(n)
  {
    ReachedNext(rules, i, p.applied, done, all);
    nodes', done' := ApplyNext(p, f, rules[i], nodes, done, body0, tjumps0, decls0);
  }

  method ApplyEach(p: Phase, f: FuncDecl, rules: seq<Rule>, ghost all: seq<Rule>, ghost body0: seq<Item>,
      ghost tjumps0: seq<TJump>, ghost decls0: seq<Decl>)
      returns (nodes: seq<IfNode>, ghost done: seq<Rule>)
    requires Underway(p, f, rules, 0, [], [], all, body0, tjumps0, decls0)
    modifies p, p.file, f
    ensures Underway(p, f, rules, |rules|, nodes, done, all, body0, tjumps0, decls0)
    ensures forall n :: n in nodes ==> fresh(n)
  {
    nodes, done := [], [];
    for i := 0 to |rules|
      invariant Underway(p, f, rules, i, nodes, done, all, body0, tjumps0, decls0)
      invariant forall n :: n in nodes ==> fresh(n)
    {
      nodes, done := ApplyAt(p, f, rules, i, nodes, done, all, body0, tjumps0, decls0);
    }
  }

  /** Apply the rules that match one function, in order. */
  method ApplyFuncRules(p: Phase, f: FuncDecl, rules: seq<Rule>) returns (nodes: seq<IfNode>)
    requires Naming.ValidDecl(f) && Naming.NoClash(Naming.Signature(f)) && NoJumpYet(f.body)
    modifies p, p.file, f
    ensures Applied(f, nodes, NewRules(rules, old(p.applied)), old(f.body))
    ensures Recorded(p.tjumps, p.file.decls, f, nodes, NewRules(rules, old(p.applied)), old(p.tjumps),
            old(p.file.decls))
    ensures forall n :: n in nodes ==> fresh(n)
  {
    ghost var all := NewRules(rules, p.applied);
    NothingApplied(p, f, rules);
    ghost var done;
    nodes, done := ApplyEach(p, f, rules, all, f.body, p.tjumps, p.file.decls);
    assert done == all by { assert rules[|rules|..] == []; }
  }

  lemma {:induction false} NothingApplied(p: Phase, f: FuncDecl, rules: seq<Rule>)
    requires Naming.ValidDecl(f) && Naming.NoClash(Naming.Signature(f)) && NoJumpYet(f.body)
    ensures Underway(p, f, rules, 0, [], [], NewRules(rules, p.applied), f.body, p.tjumps, p.file.decls)
  {
    assert p.tjumps + [] == p.tjumps && p.file.decls + [] == p.file.decls;
    assert rules[0..] == rules;
  }

  lemma {:induction false} NewRulesStep(rules: seq<Rule>, seen: set<nat>)
    requires rules != []
    ensures NewRules(rules, seen)
         == (if rules[0].id in seen then [] else [rules[0]]) + NewRules(rules[1..], seen + {rules[0].id})
  {
    if rules[0].id in seen { assert seen + {rules[0].id} == seen; }
  }
}
