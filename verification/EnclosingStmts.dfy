/** Finding the statement that encloses each call, with a visitor that keeps a stack of statements. */
module EnclosingStmts {
  import opened Basics

  /** A syntax tree: every node has an identity. */
  datatype Node = Node(id: nat, isStmt: bool, isCall: bool, kids: seq<Node>)

  // ---------------------------------------------------------------- by structural recursion

  /** `around` is the innermost statement around the node. */
  function Inner(n: Node, around: Option<nat>): Option<nat> { if n.isStmt then Some(n.id) else around }

  function Own(n: Node, around: Option<nat>): map<nat, nat> {
    if n.isCall && Inner(n, around).Some? then map[n.id := Inner(n, around).value] else map[]
  }

  /** Every call in the tree with its nearest enclosing statement. */
  function Enclosing(n: Node, around: Option<nat>): map<nat, nat>
    decreases n, 1
  {
    Own(n, around) + EnclosingAll(n.kids, Inner(n, around))
  }

  function EnclosingAll(ns: seq<Node>, around: Option<nat>): map<nat, nat>
    decreases ns, 0
  {
    if ns == [] then map[]
    else EnclosingAll(ns[..|ns| - 1], around) + Enclosing(ns[|ns| - 1], around)
  }

  // ---------------------------------------------------------------- the visitor

  function Top(stack: seq<nat>): Option<nat> { if stack == [] then None else Some(stack[|stack| - 1]) }

  class Visitor {
    var stmts: map<nat, nat>
    var stack: seq<nat>
    var pushed: seq<bool>

    constructor ()
      ensures stmts == map[] && stack == [] && pushed == []
    {
      stmts, stack, pushed := map[], [], [];
    }

    /** Called with a node on the way down ... */
    method Visit(n: Node)
      modifies this
      ensures pushed == old(pushed) + [n.isStmt] && stack == old(stack) + if n.isStmt then [n.id] else []
      ensures stmts == old(stmts) + Own(n, old(Top(stack)))
    {
      var didPush := false;
      if n.isStmt {
        stack := stack + [n.id];
        didPush := true;
      }
      pushed := pushed + [didPush];
      if n.isCall && |stack| > 0 {
        stmts := stmts[n.id := stack[|stack| - 1]];
      }
    }

    /** ... and once after its children. */
    method Leave()
      requires pushed != [] && (pushed[|pushed| - 1] ==> stack != [])
      modifies this
      ensures pushed == old(pushed[..|pushed| - 1]) && stmts == old(stmts)
      ensures stack == if old(pushed[|pushed| - 1]) then old(stack[..|stack| - 1]) else old(stack)
    {
      var last := pushed[|pushed| - 1];
      pushed := pushed[..|pushed| - 1];
      if last { stack := stack[..|stack| - 1]; }
    }

    /** Walk a subtree: both stacks are as before, and the calls in it are recorded. */
    method Walk(n: Node)
      modifies this
      ensures stack == old(stack) && pushed == old(pushed)
      ensures stmts == old(stmts) + Enclosing(n, old(Top(stack)))
      decreases n
    {
      ghost var stack0, pushed0, stmts0 := stack, pushed, stmts;
      Visit(n);
      ghost var around := Inner(n, Top(stack0));
      assert Top(stack) == around;
      ghost var stmts1, stack1, pushed1 := stmts, stack, pushed;
      for i := 0 to |n.kids|
        invariant stack == stack1 && pushed == pushed1 && stmts == stmts1 + EnclosingAll(n.kids[..i], around)
      {
        Walk(n.kids[i]);
        assert n.kids[..i + 1][..i] == n.kids[..i];
        MapAssoc(stmts1, EnclosingAll(n.kids[..i], around), Enclosing(n.kids[i], around));
      }
      assert n.kids[..|n.kids|] == n.kids;
      Leave();
      MapAssoc(stmts0, Own(n, Top(stack0)), EnclosingAll(n.kids, around));
    }
  }

  lemma {:induction false} MapAssoc(a: map<nat, nat>, b: map<nat, nat>, c: map<nat, nat>)
    ensures a + b + c == a + (b + c)
  {
  }

  method CallEnclosingStmts(root: Node) returns (stmts: map<nat, nat>)
    ensures stmts == Enclosing(root, None)
  {
    var v := new Visitor();
    v.Walk(root);
    stmts := v.stmts;
    assert map[] + Enclosing(root, None) == Enclosing(root, None);
  }

  // ---------------------------------------------------------------- what "nearest" means

  /** A path goes down from a node by child indices. */
  predicate IsPath(n: Node, path: seq<nat>)
    decreases path
  {
    path == [] || (path[0] < |n.kids| && IsPath(n.kids[path[0]], path[1..]))
  }

  function At(n: Node, path: seq<nat>): Node
    requires IsPath(n, path)
    decreases path
  {
    if path == [] then n else At(n.kids[path[0]], path[1..])
  }

  /** The last statement on the path, its end included; `around` if there is none. */
  function Nearest(n: Node, path: seq<nat>, around: Option<nat>): Option<nat>
    requires IsPath(n, path)
    decreases path
  {
    if path == [] then Inner(n, around) else Nearest(n.kids[path[0]], path[1..], Inner(n, around))
  }

  /** No identity occurs at two places. */
  ghost predicate DistinctIds(n: Node) {
    forall p, q :: IsPath(n, p) && IsPath(n, q) && At(n, p).id == At(n, q).id ==> p == q
  }

  lemma {:induction false} KidPath(n: Node, i: nat, p: seq<nat>)
    requires i < |n.kids| && IsPath(n.kids[i], p)
    ensures IsPath(n, [i] + p) && At(n, [i] + p) == At(n.kids[i], p)
  {
    assert ([i] + p)[1..] == p;
  }

  lemma {:induction false} KidsDistinct(n: Node, i: nat)
    requires DistinctIds(n) && i < |n.kids|
    ensures DistinctIds(n.kids[i])
  {
    forall p, q | IsPath(n.kids[i], p) && IsPath(n.kids[i], q) && At(n.kids[i], p).id == At(n.kids[i], q).id
      ensures p == q {
      KidPath(n, i, p);
      KidPath(n, i, q);
      assert ([i] + p)[1..] == p && ([i] + q)[1..] == q;
    }
  }

  /** The recorded identities are those of nodes in the tree. */
  lemma {:induction false} RecordedInTree(n: Node, around: Option<nat>, c: nat) returns (p: seq<nat>)
    requires c in Enclosing(n, around)
    ensures IsPath(n, p) && At(n, p).id == c
    decreases n, 1
  {
    if c in Own(n, around) {
      p := [];
    } else {
      var i, q := RecordedInKids(n, n.kids, Inner(n, around), c);
      p := [i] + q;
      KidPath(n, i, q);
    }
  }

  lemma {:induction false} RecordedInKids(n: Node, ns: seq<Node>, around: Option<nat>, c: nat)
      returns (i: nat, p: seq<nat>)
    requires c in EnclosingAll(ns, around)
    ensures i < |ns| && IsPath(ns[i], p) && At(ns[i], p).id == c && c in Enclosing(ns[i], around)
    decreases ns, 0
  {
    var last := |ns| - 1;
    if c in Enclosing(ns[last], around) {
      i := last;
      p := RecordedInTree(ns[last], around, c);
    } else {
      i, p := RecordedInKids(n, ns[..last], around, c);
    }
  }

  lemma {:induction false} OnlyIn(ns: seq<Node>, around: Option<nat>, i: nat, c: nat)
    requires i < |ns| && forall j :: 0 <= j < |ns| && j != i ==> c !in Enclosing(ns[j], around)
    ensures c in EnclosingAll(ns, around) <==> c in Enclosing(ns[i], around)
    ensures c in Enclosing(ns[i], around) ==> EnclosingAll(ns, around)[c] == Enclosing(ns[i], around)[c]
    decreases |ns|
  {
    var last := |ns| - 1;
    if i < last { OnlyIn(ns[..last], around, i, c); } else { NotIn(ns[..last], around, c); }
  }

  lemma {:induction false} NotIn(ns: seq<Node>, around: Option<nat>, c: nat)
    requires forall j :: 0 <= j < |ns| ==> c !in Enclosing(ns[j], around)
    ensures c !in EnclosingAll(ns, around)
    decreases |ns|
  {
    if ns != [] { NotIn(ns[..|ns| - 1], around, c); }
  }

  /** An identity is recorded only in the subtree it belongs to. */
  lemma {:induction false} RecordedWhereItIs(n: Node, p: seq<nat>, j: nat, around: Option<nat>)
    requires DistinctIds(n) && IsPath(n, p) && j < |n.kids| && At(n, p).id in Enclosing(n.kids[j], around)
    ensures p != [] && p[0] == j
  {
    var q := RecordedInTree(n.kids[j], around, At(n, p).id);
    KidPath(n, j, q);
    assert p == [j] + q;
  }

  lemma {:induction false} NotElsewhere(n: Node, p: seq<nat>, j: nat, around: Option<nat>)
    requires DistinctIds(n) && IsPath(n, p) && j < |n.kids| && (p == [] || p[0] != j)
    ensures At(n, p).id !in Enclosing(n.kids[j], around)
  {
    if At(n, p).id in Enclosing(n.kids[j], around) { RecordedWhereItIs(n, p, j, around); }
  }

  /** A call is recorded exactly when some statement is around it, and then with the nearest one. */
  lemma {:induction false} RecordsNearest(n: Node, path: seq<nat>, around: Option<nat>)
    requires DistinctIds(n) && IsPath(n, path) && At(n, path).isCall
    ensures var c, near := At(n, path).id, Nearest(n, path, around);
            (c in Enclosing(n, around) <==> near.Some?) && (near.Some? ==> Enclosing(n, around)[c] == near.value)
    decreases path
  {
    var c, inner := At(n, path).id, Inner(n, around);
    if path == [] {
      forall j | 0 <= j < |n.kids| ensures c !in Enclosing(n.kids[j], inner) { NotElsewhere(n, path, j, inner); }
      NotIn(n.kids, inner, c);
    } else {
      var i := path[0];
      KidsDistinct(n, i);
      RecordsNearest(n.kids[i], path[1..], inner);
      forall j | 0 <= j < |n.kids| && j != i ensures c !in Enclosing(n.kids[j], inner) {
        NotElsewhere(n, path, j, inner);
      }
      OnlyIn(n.kids, inner, i, c);
      NotItself(n, path);
    }
  }

  lemma {:induction false} NotItself(n: Node, path: seq<nat>)
    requires DistinctIds(n) && IsPath(n, path) && path != []
    ensures At(n, path).id != n.id
  {
    assert IsPath(n, []) && At(n, []) == n;
  }
}
