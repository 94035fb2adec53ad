/** Bracketing the statements that carry an ignore directive: each is put between calls that raise
    and lower the goroutine's suppression count, with a deferred fallback in case it panics.
 */
module Bracket {
  import opened Basics

  /** `kids` are statement lists by number; a list comes before the lists nested in it.  A switch may
      be a choice of one list that holds its clauses, each a choice of its body; the calls of a clause's
      own expressions are calls of the clause. */
  datatype Kind =
    | Simple
    | GoCall
    | DeferCall
    | ReturnStmt
    | Break(lbl: nat)
    | Continue(lbl: nat)
    | Choice(lbl: nat, kids: seq<nat>)        // block, if, switch, select: at most one of `kids` runs
    | Loop(lbl: nat, body: nat)

  /** `own` is the number of calls whose nearest enclosing statement is this one; for `go` and
      `defer` the last of them is the call that is only registered. */
  datatype Stmt =
    | User(id: nat, own: nat, kind: Kind)
    | Suppress
    | DefineFlag(flag: nat)
    | DeferFallback(flag: nat)
    | SetFlag(flag: nat)
    | Unsuppress

  type Table = seq<seq<Stmt>>

  function Kids(s: Stmt): seq<nat> {
    if !s.User? then []
    else match s.kind
      case Choice(_, kids) => kids
      case Loop(_, body) => [body]
      case _ => []
  }

  /** A call is enclosed by this statement and the directive is written above it. */
  predicate Marked(s: Stmt, ignored: set<nat>) {
    s.User? && s.own > 0 && s.id in ignored
  }

  // ---------------------------------------------------------------- the two checks

  predicate HasEscapingControlFlow(table: Table, k: nat, s: Stmt)
    requires k < |table|
    decreases |table| - k, 1, 0
  {
    (s.User? && (s.kind.ReturnStmt? || s.kind.Break? || s.kind.Continue?)) || KidsEscape(table, k, Kids(s))
  }

  predicate KidsEscape(table: Table, k: nat, kids: seq<nat>)
    requires k < |table|
    decreases |table| - k, 0, |kids|
  {
    kids != [] && ((k < kids[0] < |table| && ListEscapes(table, kids[0], table[kids[0]]))
      || KidsEscape(table, k, kids[1..]))
  }

  predicate ListEscapes(table: Table, k: nat, ss: seq<Stmt>)
    requires k < |table|
    decreases |table| - k, 2, |ss|
  {
    ss != [] && (HasEscapingControlFlow(table, k, ss[0]) || ListEscapes(table, k, ss[1..]))
  }

  function Calls(table: Table, k: nat, s: Stmt): nat
    requires k < |table|
    decreases |table| - k, 1, 0
  {
    (if s.User? then s.own else 0) + KidsCalls(table, k, Kids(s))
  }

  function KidsCalls(table: Table, k: nat, kids: seq<nat>): nat
    requires k < |table|
    decreases |table| - k, 0, |kids|
  {
    if kids == [] then 0
    else
      (if k < kids[0] < |table| then ListCalls(table, kids[0], table[kids[0]]) else 0) + KidsCalls(table, k, kids[1..])
  }

  function ListCalls(table: Table, k: nat, ss: seq<Stmt>): nat
    requires k < |table|
    decreases |table| - k, 2, |ss|
  {
    if ss == [] then 0 else Calls(table, k, ss[0]) + ListCalls(table, k, ss[1..])
  }

  predicate Rejected(table: Table, k: nat, s: Stmt)
    requires k < |table|
  {
    HasEscapingControlFlow(table, k, s) || Calls(table, k, s) > 1
  }

  // ---------------------------------------------------------------- what the checks look for

  /** A statement and all statements nested in it, outermost first. */
  function Walk(table: Table, k: nat, s: Stmt): seq<Stmt>
    requires k < |table|
    decreases |table| - k, 1, 0
  {
    [s] + WalkKids(table, k, Kids(s))
  }

  function WalkKids(table: Table, k: nat, kids: seq<nat>): seq<Stmt>
    requires k < |table|
    decreases |table| - k, 0, |kids|
  {
    if kids == [] then []
    else
      (if k < kids[0] < |table| then WalkList(table, kids[0], table[kids[0]]) else []) + WalkKids(table, k, kids[1..])
  }

  function WalkList(table: Table, k: nat, ss: seq<Stmt>): seq<Stmt>
    requires k < |table|
    decreases |table| - k, 2, |ss|
  {
    if ss == [] then [] else Walk(table, k, ss[0]) + WalkList(table, k, ss[1..])
  }

  predicate IsJump(s: Stmt) { s.User? && (s.kind.ReturnStmt? || s.kind.Break? || s.kind.Continue?) }

  ghost predicate NoJump(ss: seq<Stmt>) { forall s :: s in ss ==> !IsJump(s) }

  function TotalCalls(ss: seq<Stmt>): nat {
    if ss == [] then 0 else (if ss[0].User? then ss[0].own else 0) + TotalCalls(ss[1..])
  }

  lemma {:induction false} WalkConcat(a: seq<Stmt>, b: seq<Stmt>)
    ensures TotalCalls(a + b) == TotalCalls(a) + TotalCalls(b) && (NoJump(a + b) <==> NoJump(a) && NoJump(b))
    decreases |a|
  {
    if NoJump(a + b) {
      assert forall s :: s in a ==> s in a + b;
      assert forall s :: s in b ==> s in a + b;
    }
    if a == [] {
      assert a + b == b;
    } else {
      WalkConcat(a[1..], b);
      assert (a + b)[1..] == a[1..] + b;
    }
  }

  /** A statement escapes when a jump is anywhere in it, and its calls are all those found in it. */
  lemma {:induction false} ChecksMean(table: Table, k: nat, s: Stmt)
    requires k < |table|
    ensures HasEscapingControlFlow(table, k, s) <==> !NoJump(Walk(table, k, s))
    ensures Calls(table, k, s) == TotalCalls(Walk(table, k, s))
    decreases |table| - k, 1, 0
  {
    KidsChecksMean(table, k, Kids(s));
    WalkConcat([s], WalkKids(table, k, Kids(s)));
    assert [s][1..] == [];
    assert NoJump([s]) <==> !IsJump(s) by { assert s in [s]; }
  }

  lemma {:induction false} KidsChecksMean(table: Table, k: nat, kids: seq<nat>)
    requires k < |table|
    ensures KidsEscape(table, k, kids) <==> !NoJump(WalkKids(table, k, kids))
    ensures KidsCalls(table, k, kids) == TotalCalls(WalkKids(table, k, kids))
    decreases |table| - k, 0, |kids|
  {
    if kids != [] {
      var first := if k < kids[0] < |table| then WalkList(table, kids[0], table[kids[0]]) else [];
      if k < kids[0] < |table| { ListChecksMean(table, kids[0], table[kids[0]]); }
      KidsChecksMean(table, k, kids[1..]);
      WalkConcat(first, WalkKids(table, k, kids[1..]));
    }
  }

  lemma {:induction false} ListChecksMean(table: Table, k: nat, ss: seq<Stmt>)
    requires k < |table|
    ensures ListEscapes(table, k, ss) <==> !NoJump(WalkList(table, k, ss))
    ensures ListCalls(table, k, ss) == TotalCalls(WalkList(table, k, ss))
    decreases |table| - k, 2, |ss|
  {
    if ss != [] {
      ChecksMean(table, k, ss[0]);
      ListChecksMean(table, k, ss[1..]);
      WalkConcat(Walk(table, k, ss[0]), WalkList(table, k, ss[1..]));
    }
  }

  /** The checks look only at lists nested in the statement. */
  ghost predicate SameBelow(a: Table, b: Table, k: nat) {
    |a| == |b| && forall j :: k < j < |a| ==> a[j] == b[j]
  }

  lemma {:induction false} StmtLooksBelow(a: Table, b: Table, k: nat, s: Stmt)
    requires k < |a| && SameBelow(a, b, k)
    ensures HasEscapingControlFlow(a, k, s) == HasEscapingControlFlow(b, k, s) && Calls(a, k, s) == Calls(b, k, s)
    decreases |a| - k, 1, 0
  {
    KidsLookBelow(a, b, k, Kids(s));
  }

  lemma {:induction false} KidsLookBelow(a: Table, b: Table, k: nat, kids: seq<nat>)
    requires k < |a| && SameBelow(a, b, k)
    ensures KidsEscape(a, k, kids) == KidsEscape(b, k, kids) && KidsCalls(a, k, kids) == KidsCalls(b, k, kids)
    decreases |a| - k, 0, |kids|
  {
    if kids != [] {
      if k < kids[0] < |a| { ListLooksBelow(a, b, kids[0], a[kids[0]]); }
      KidsLookBelow(a, b, k, kids[1..]);
    }
  }

  lemma {:induction false} ListLooksBelow(a: Table, b: Table, k: nat, ss: seq<Stmt>)
    requires k < |a| && SameBelow(a, b, k)
    ensures ListEscapes(a, k, ss) == ListEscapes(b, k, ss) && ListCalls(a, k, ss) == ListCalls(b, k, ss)
    decreases |a| - k, 2, |ss|
  {
    if ss != [] {
      StmtLooksBelow(a, b, k, ss[0]);
      ListLooksBelow(a, b, k, ss[1..]);
    }
  }

  // ---------------------------------------------------------------- what the rewrite amounts to

  function Before(flag: nat): seq<Stmt> { [Suppress, DefineFlag(flag), DeferFallback(flag)] }

  function After(flag: nat): seq<Stmt> { [SetFlag(flag), Unsuppress] }

  function Bracketed(s: Stmt, ignored: set<nat>, flag: nat): seq<Stmt> {
    if Marked(s, ignored) then [Suppress, DefineFlag(flag), DeferFallback(flag), s, SetFlag(flag), Unsuppress] else [s]
  }

  function CountMarked(ss: seq<Stmt>, ignored: set<nat>): nat {
    if ss == [] then 0
    else CountMarked(ss[..|ss| - 1], ignored) + (if Marked(ss[|ss| - 1], ignored) then 1 else 0)
  }

  function Pieces(ss: seq<Stmt>, ignored: set<nat>, flag: nat): (r: seq<seq<Stmt>>)
    ensures |r| == |ss|
  {
    seq(|ss|, i requires 0 <= i < |ss| => Bracketed(ss[i], ignored, flag + CountMarked(ss[..i], ignored)))
  }

  /** Expand each marked statement, keep the rest in order; flag numbers count up from `flag`. */
  function Expand(ss: seq<Stmt>, ignored: set<nat>, flag: nat): seq<Stmt> {
    Flatten(Pieces(ss, ignored, flag))
  }

  /** The first flag number of list k when the lists are rewritten in order from `flag` on. */
  function FlagAt(table: Table, ignored: set<nat>, flag: nat, k: nat): nat
    requires k <= |table|
  {
    if k == 0 then flag else FlagAt(table, ignored, flag, k - 1) + CountMarked(table[k - 1], ignored)
  }

  function ExpandAll(table: Table, ignored: set<nat>, flag: nat): (r: Table)
    ensures |r| == |table|
  {
    seq(|table|, k requires 0 <= k < |table| => Expand(table[k], ignored, FlagAt(table, ignored, flag, k)))
  }

  predicate Bad(table: Table, ignored: set<nat>, k: nat, s: Stmt)
    requires k < |table|
  {
    Marked(s, ignored) && Rejected(table, k, s)
  }

  /** The first d statements of list k can be bracketed where they are marked. */
  ghost predicate AcceptedUpTo(table: Table, ignored: set<nat>, k: nat, d: nat)
    requires k < |table| && d <= |table[k]|
  {
    forall i :: 0 <= i < d ==> !Bad(table, ignored, k, table[k][i])
  }

  ghost predicate ListAccepted(table: Table, ignored: set<nat>, k: nat)
    requires k < |table|
  {
    AcceptedUpTo(table, ignored, k, |table[k]|)
  }

  ghost predicate Accepted(table: Table, ignored: set<nat>) {
    forall k :: 0 <= k < |table| ==> ListAccepted(table, ignored, k)
  }

  // ---------------------------------------------------------------- flag numbers

  function FlagsOf(ss: seq<Stmt>): seq<nat> {
    if ss == [] then []
    else FlagsOf(ss[..|ss| - 1]) + (if ss[|ss| - 1].DefineFlag? then [ss[|ss| - 1].flag] else [])
  }

  lemma {:induction false} FlagsConcat(a: seq<Stmt>, b: seq<Stmt>)
    ensures FlagsOf(a + b) == FlagsOf(a) + FlagsOf(b)
    decreases |b|
  {
    if b == [] {
      assert a + b == a;
    } else {
      FlagsConcat(a, b[..|b| - 1]);
      assert (a + b)[..|a + b| - 1] == a + b[..|b| - 1];
    }
  }

  ghost predicate UserOnly(ss: seq<Stmt>) { forall i :: 0 <= i < |ss| ==> ss[i].User? }

  lemma {:induction false} NoFlags(ss: seq<Stmt>)
    requires forall i :: 0 <= i < |ss| ==> !ss[i].DefineFlag?
    ensures FlagsOf(ss) == []
    decreases |ss|
  {
    if ss != [] { NoFlags(ss[..|ss| - 1]); }
  }

  lemma {:induction false} OneFlag(a: seq<Stmt>, flag: nat, b: seq<Stmt>)
    requires (forall i :: 0 <= i < |a| ==> !a[i].DefineFlag?) && (forall i :: 0 <= i < |b| ==> !b[i].DefineFlag?)
    ensures FlagsOf(a + [DefineFlag(flag)] + b) == [flag]
  {
    NoFlags(a);
    NoFlags(b);
    FlagsConcat(a + [DefineFlag(flag)], b);
    assert (a + [DefineFlag(flag)])[..|a|] == a;
  }

  lemma {:induction false} FlagsOfBracket(s: Stmt, ignored: set<nat>, flag: nat)
    requires s.User?
    ensures FlagsOf(Bracketed(s, ignored, flag)) == if Marked(s, ignored) then [flag] else []
  {
    if Marked(s, ignored) {
      var rest := [DeferFallback(flag), s, SetFlag(flag), Unsuppress];
      OneFlag([Suppress], flag, rest);
      assert Bracketed(s, ignored, flag) == [Suppress] + [DefineFlag(flag)] + rest;
    } else {
      NoFlags([s]);
    }
  }

  /** The flags flag, flag + 1, ... up to n of them. */
  ghost predicate CountsUp(fs: seq<nat>, flag: nat, n: nat) {
    |fs| == n && forall i :: 0 <= i < n ==> fs[i] == flag + i
  }

  /** A list defines the flags flag, flag + 1, ... in order, one for each marked statement. */
  lemma {:induction false} FlagsCountUp(ss: seq<Stmt>, ignored: set<nat>, flag: nat)
    requires UserOnly(ss)
    ensures CountsUp(FlagsOf(Expand(ss, ignored, flag)), flag, CountMarked(ss, ignored))
    decreases |ss|
  {
    if ss != [] {
      var n := |ss| - 1;
      var f := flag + CountMarked(ss[..n], ignored);
      FlagsCountUp(ss[..n], ignored, flag);
      ExpandStep(ss, ignored, flag, n);
      assert ss[..n + 1] == ss;
      FlagsConcat(Expand(ss[..n], ignored, flag), Bracketed(ss[n], ignored, f));
      FlagsOfBracket(ss[n], ignored, f);
    }
  }

  lemma {:induction false} FlagAtMonotone(table: Table, ignored: set<nat>, flag: nat, j: nat, k: nat)
    requires j < k <= |table|
    ensures FlagAt(table, ignored, flag, j) + CountMarked(table[j], ignored) <= FlagAt(table, ignored, flag, k)
    decreases k
  {
    if j < k - 1 { FlagAtMonotone(table, ignored, flag, j, k - 1); }
  }

  /** The flags that list k of the rewritten file defines. */
  function FlagsAt(table: Table, ignored: set<nat>, flag: nat, k: nat): seq<nat>
    requires k < |table|
  {
    FlagsOf(ExpandAll(table, ignored, flag)[k])
  }

  lemma {:induction false} FlagsAtRange(table: Table, ignored: set<nat>, flag: nat, k: nat, i: nat)
    requires k < |table| && UserOnly(table[k]) && i < |FlagsAt(table, ignored, flag, k)|
    ensures var f := FlagAt(table, ignored, flag, k);
            f <= FlagsAt(table, ignored, flag, k)[i] == f + i < f + CountMarked(table[k], ignored)
  {
    FlagsCountUp(table[k], ignored, FlagAt(table, ignored, flag, k));
  }

  lemma {:induction false} FlagsRise(table: Table, ignored: set<nat>, flag: nat, j: nat, i: nat, k: nat, n: nat)
    requires j < k < |table| && UserOnly(table[j]) && UserOnly(table[k])
    requires i < |FlagsAt(table, ignored, flag, j)| && n < |FlagsAt(table, ignored, flag, k)|
    ensures FlagsAt(table, ignored, flag, j)[i] < FlagsAt(table, ignored, flag, k)[n]
  {
    FlagsAtRange(table, ignored, flag, j, i);
    FlagAtMonotone(table, ignored, flag, j, k);
    FlagsAtRange(table, ignored, flag, k, n);
  }

  /** No flag number is defined twice anywhere in the file. */
  lemma {:induction false} FlagsAreUnique(table: Table, ignored: set<nat>, flag: nat, j: nat, i: nat, k: nat, n: nat)
    requires j < |table| && k < |table| && UserOnly(table[j]) && UserOnly(table[k])
    requires i < |FlagsAt(table, ignored, flag, j)| && n < |FlagsAt(table, ignored, flag, k)| && (j, i) != (k, n)
    ensures FlagsAt(table, ignored, flag, j)[i] != FlagsAt(table, ignored, flag, k)[n]
  {
    if j < k {
      FlagsRise(table, ignored, flag, j, i, k, n);
    } else if k < j {
      FlagsRise(table, ignored, flag, k, n, j, i);
    } else {
      FlagsCountUp(table[k], ignored, FlagAt(table, ignored, flag, k));
    }
  }

  // ---------------------------------------------------------------- the rewrite in place

  lemma {:induction false} PieceAt(init: seq<Stmt>, s: Stmt, ignored: set<nat>, flag: nat, i: nat)
    requires i < |init|
    ensures Pieces(init + [s], ignored, flag)[i] == Pieces(init, ignored, flag)[i]
  {
    assert (init + [s])[..i] == init[..i] && (init + [s])[i] == init[i];
  }

  lemma {:induction false} PiecesLast(init: seq<Stmt>, s: Stmt, ignored: set<nat>, flag: nat)
    ensures Pieces(init + [s], ignored, flag)
            == Pieces(init, ignored, flag) + [Bracketed(s, ignored, flag + CountMarked(init, ignored))]
  {
    var all, a := Pieces(init + [s], ignored, flag), Pieces(init, ignored, flag);
    var last := Bracketed(s, ignored, flag + CountMarked(init, ignored));
    forall i | 0 <= i < |init| ensures all[i] == a[i] { PieceAt(init, s, ignored, flag, i); }
    assert all[|init|] == last by { assert (init + [s])[..|init|] == init; }
  }

  lemma {:induction false} ExpandLast(init: seq<Stmt>, s: Stmt, ignored: set<nat>, flag: nat)
    ensures Expand(init + [s], ignored, flag)
            == Expand(init, ignored, flag) + Bracketed(s, ignored, flag + CountMarked(init, ignored))
    ensures CountMarked(init + [s], ignored) == CountMarked(init, ignored) + if Marked(s, ignored) then 1 else 0
  {
    PiecesLast(init, s, ignored, flag);
    FlattenPush(Pieces(init, ignored, flag), Bracketed(s, ignored, flag + CountMarked(init, ignored)));
    assert (init + [s])[..|init|] == init;
  }

  lemma {:induction false} ExpandStep(ss: seq<Stmt>, ignored: set<nat>, flag: nat, d: nat)
    requires d < |ss|
    ensures var f := flag + CountMarked(ss[..d], ignored);
            Expand(ss[..d + 1], ignored, flag) == Expand(ss[..d], ignored, flag) + Bracketed(ss[d], ignored, f)
            && CountMarked(ss[..d + 1], ignored)
              == CountMarked(ss[..d], ignored) + (if Marked(ss[d], ignored) then 1 else 0)
  {
    ExpandLast(ss[..d], ss[d], ignored, flag);
    assert ss[..d + 1] == ss[..d] + [ss[d]];
  }

  /** Where the statements of a list are that have a call of their own and the directive above them. */
  ghost function IgnoredAt(ss: seq<Stmt>, ignored: set<nat>): set<nat> {
    set i | 0 <= i < |ss| && ss[i].User? && ss[i].own > 0 && ss[i].id in ignored
  }

  lemma {:induction false} CountIgnored(ss: seq<Stmt>, ignored: set<nat>)
    ensures CountMarked(ss, ignored) == |IgnoredAt(ss, ignored)|
    decreases |ss|
  {
    if ss != [] {
      var n := |ss| - 1;
      CountIgnored(ss[..n], ignored);
      var rest := IgnoredAt(ss[..n], ignored);
      assert IgnoredAt(ss, ignored) == if n in IgnoredAt(ss, ignored) then rest + {n} else rest;
    }
  }

  /** Statement d and no other is bracketed or kept at its turn; bracketed exactly when it has a call
      of its own and the directive.  The flag's number is that of earlier brackets. */
  lemma {:induction false} ExpandsInOrder(ss: seq<Stmt>, ignored: set<nat>, flag: nat, d: nat)
    requires d < |ss|
    ensures var f := flag + |IgnoredAt(ss[..d], ignored)|;
            Expand(ss[..d + 1], ignored, flag)
            == Expand(ss[..d], ignored, flag)
               + if d in IgnoredAt(ss, ignored)
                 then [Suppress, DefineFlag(f), DeferFallback(f), ss[d], SetFlag(f), Unsuppress] else [ss[d]]
  {
    ExpandStep(ss, ignored, flag, d);
    CountIgnored(ss[..d], ignored);
  }

  /** The statements of the program itself, in order. */
  function OwnStmts(ss: seq<Stmt>): seq<Stmt> {
    if ss == [] then []
    else OwnStmts(ss[..|ss| - 1]) + (if ss[|ss| - 1].User? then [ss[|ss| - 1]] else [])
  }

  lemma {:induction false} OwnStmtsPush(a: seq<Stmt>, s: Stmt)
    ensures OwnStmts(a + [s]) == OwnStmts(a) + if s.User? then [s] else []
  {
    assert (a + [s])[..|a|] == a;
  }

  lemma {:induction false} OwnStmtsOfBracket(a: seq<Stmt>, s: Stmt, ignored: set<nat>, f: nat)
    requires s.User?
    ensures OwnStmts(a + Bracketed(s, ignored, f)) == OwnStmts(a) + [s]
  {
    if Marked(s, ignored) {
      var b := a + [Suppress] + [DefineFlag(f)] + [DeferFallback(f)];
      OwnStmtsPush(a, Suppress);
      OwnStmtsPush(a + [Suppress], DefineFlag(f));
      OwnStmtsPush(a + [Suppress] + [DefineFlag(f)], DeferFallback(f));
      OwnStmtsPush(b, s);
      OwnStmtsPush(b + [s], SetFlag(f));
      OwnStmtsPush(b + [s] + [SetFlag(f)], Unsuppress);
      assert a + Bracketed(s, ignored, f) == b + [s] + [SetFlag(f)] + [Unsuppress];
    } else {
      OwnStmtsPush(a, s);
    }
  }

  lemma {:induction false} ExpandLength(ss: seq<Stmt>, ignored: set<nat>, flag: nat)
    ensures |Expand(ss, ignored, flag)| == |ss| + 5 * CountMarked(ss, ignored)
    decreases |ss|
  {
    if ss != [] {
      var init := ss[..|ss| - 1];
      ExpandLength(init, ignored, flag);
      ExpandLast(init, ss[|ss| - 1], ignored, flag);
      assert ss == init + [ss[|ss| - 1]];
    }
  }

  lemma {:induction false} ExpandOwn(ss: seq<Stmt>, ignored: set<nat>, flag: nat)
    requires UserOnly(ss)
    ensures OwnStmts(Expand(ss, ignored, flag)) == ss
    decreases |ss|
  {
    if ss != [] {
      var init, s := ss[..|ss| - 1], ss[|ss| - 1];
      ExpandOwn(init, ignored, flag);
      ExpandLast(init, s, ignored, flag);
      assert ss == init + [s];
      OwnStmtsOfBracket(Expand(init, ignored, flag), s, ignored, flag + CountMarked(init, ignored));
    }
  }

  /** Without what was inserted a list is what it was, and five statements were inserted for each one
      with a call of its own and the directive. */
  lemma {:induction false} ExpandKeepsOwn(ss: seq<Stmt>, ignored: set<nat>, flag: nat)
    requires UserOnly(ss)
    ensures OwnStmts(Expand(ss, ignored, flag)) == ss
    ensures |Expand(ss, ignored, flag)| == |ss| + 5 * |IgnoredAt(ss, ignored)|
  {
    ExpandOwn(ss, ignored, flag);
    ExpandLength(ss, ignored, flag);
    CountIgnored(ss, ignored);
  }

  /** What the loop checks before it brackets anything of list k. */
  lemma {:induction false} AcceptedMeans(table: Table, ignored: set<nat>, k: nat)
    requires k < |table|
    ensures ListAccepted(table, ignored, k) <==>
            forall i :: i in IgnoredAt(table[k], ignored) ==>
              var all := Walk(table, k, table[k][i]);
              NoJump(all) && TotalCalls(all) == 1
  {
    forall i | 0 <= i < |table[k]| ensures
      var all := Walk(table, k, table[k][i]);
      Bad(table, ignored, k, table[k][i]) <==>
      i in IgnoredAt(table[k], ignored) && !(NoJump(all) && TotalCalls(all) == 1)
    {
      ChecksMean(table, k, table[k][i]);
    }
  }

  lemma {:induction false} UserOnlyConcat(a: seq<Stmt>, b: seq<Stmt>)
    ensures UserOnly(a + b) <==> UserOnly(a) && UserOnly(b)
  {
    if UserOnly(a + b) {
      forall i | 0 <= i < |a| ensures a[i].User? { assert (a + b)[i] == a[i]; }
      forall i | 0 <= i < |b| ensures b[i].User? { assert (a + b)[|a| + i] == b[i]; }
    }
  }

  lemma {:induction false} BracketShows(s: Stmt, ignored: set<nat>, flag: nat)
    requires s.User?
    ensures UserOnly(Bracketed(s, ignored, flag)) <==> !Marked(s, ignored)
  {
    assert Marked(s, ignored) ==> !Bracketed(s, ignored, flag)[0].User?;
  }

  /** A list stays as it is, and a list of the user's own statements, exactly when none of them has a
      call of its own and the directive.  Between the clauses of a switch nothing else may stand. */
  lemma {:induction false} ClausesStayTogether(ss: seq<Stmt>, ignored: set<nat>, flag: nat)
    requires UserOnly(ss)
    ensures UserOnly(Expand(ss, ignored, flag)) <==> IgnoredAt(ss, ignored) == {}
    ensures IgnoredAt(ss, ignored) == {} ==> Expand(ss, ignored, flag) == ss
  {
    NothingInserted(ss, ignored, flag);
    CountIgnored(ss, ignored);
  }

  lemma {:induction false} NothingInserted(ss: seq<Stmt>, ignored: set<nat>, flag: nat)
    requires UserOnly(ss)
    ensures UserOnly(Expand(ss, ignored, flag)) <==> CountMarked(ss, ignored) == 0
    ensures CountMarked(ss, ignored) == 0 ==> Expand(ss, ignored, flag) == ss
    decreases |ss|
  {
    if ss != [] {
      var init, s := ss[..|ss| - 1], ss[|ss| - 1];
      var f := flag + CountMarked(init, ignored);
      NothingInserted(init, ignored, flag);
      ExpandLast(init, s, ignored, flag);
      assert ss == init + [s];
      UserOnlyConcat(Expand(init, ignored, flag), Bracketed(s, ignored, f));
      BracketShows(s, ignored, f);
    }
  }

  /** Where the loop stands: the first `d` statements are expanded, i points behind them. */
  ghost predicate Through(stmts: seq<Stmt>, ss: seq<Stmt>, ignored: set<nat>, flag: nat, d: nat, i: nat) {
    d <= |ss| && i == |Expand(ss[..d], ignored, flag)| && stmts == Expand(ss[..d], ignored, flag) + ss[d..]
  }

  function InsertAt<T>(s: seq<T>, i: nat, xs: seq<T>): seq<T>
    requires i <= |s|
  {
    s[..i] + (xs + s[i..])
  }

  lemma {:induction false} InsertTwice<T>(head: seq<T>, x: T, tail: seq<T>, before: seq<T>, after: seq<T>)
    ensures var s := InsertAt(head + ([x] + tail), |head|, before);
            |head| + |before| + 1 <= |s|
            && InsertAt(s, |head| + |before| + 1, after) == head + (before + [x] + after) + tail
  {
    var i, s0 := |head|, head + ([x] + tail);
    assert s0[..i] == head && s0[i..] == [x] + tail;
    var s, j := InsertAt(s0, i, before), |head| + |before| + 1;
    assert s == (head + before + [x]) + tail;
    assert s[..j] == head + before + [x] && s[j..] == tail;
  }

  lemma {:induction false} InsertedThrough(stmts: seq<Stmt>, ss: seq<Stmt>, ignored: set<nat>, flag: nat,
      d: nat, i: nat)
    requires Through(stmts, ss, ignored, flag, d, i) && d < |ss| && Marked(ss[d], ignored)
    ensures var f := flag + CountMarked(ss[..d], ignored);
            && i < |stmts|
            && Through(InsertAt(InsertAt(stmts, i, Before(f)), i + 4, After(f)), ss, ignored, flag, d + 1, i + 6)
  {
    var f := flag + CountMarked(ss[..d], ignored);
    ExpandStep(ss, ignored, flag, d);
    assert ss[d..] == [ss[d]] + ss[d + 1..];
    InsertTwice(Expand(ss[..d], ignored, flag), ss[d], ss[d + 1..], Before(f), After(f));
    assert Before(f) + [ss[d]] + After(f) == Bracketed(ss[d], ignored, f);
  }

  lemma {:induction false} KeptThrough(stmts: seq<Stmt>, ss: seq<Stmt>, ignored: set<nat>, flag: nat, d: nat, i: nat)
    requires Through(stmts, ss, ignored, flag, d, i) && i < |stmts|
    ensures d < |ss| && stmts[i] == ss[d]
            && (!Marked(ss[d], ignored) ==> Through(stmts, ss, ignored, flag, d + 1, i + 1))
  {
    if d < |ss| {
      ExpandStep(ss, ignored, flag, d);
      assert ss[d..] == [ss[d]] + ss[d + 1..];
    }
  }

  /** Put both halves of the bracket around statement i; i moves to the last statement inserted. */
  method InsertBrackets(stmts0: seq<Stmt>, i0: nat, flag: nat, ghost ss: seq<Stmt>, ghost ignored: set<nat>,
      ghost flag0: nat, ghost d: nat)
      returns (stmts: seq<Stmt>, i: nat)
    requires Through(stmts0, ss, ignored, flag0, d, i0) && d < |ss| && Marked(ss[d], ignored)
    requires flag == flag0 + CountMarked(ss[..d], ignored)
    ensures Through(stmts, ss, ignored, flag0, d + 1, i + 1)
  {
    InsertedThrough(stmts0, ss, ignored, flag0, d, i0);
    stmts, i := stmts0, i0;
    var before, after := Before(flag), After(flag);
    stmts := InsertAt(stmts, i, before);
    i := i + |before|;
    stmts := InsertAt(stmts, i + 1, after);
    i := i + |after|;
  }

  /** List k, found as `ss`, has been rewritten up to its first statement that cannot be bracketed. */
  ghost predicate StoppedAt(table: Table, k: nat, stmts: seq<Stmt>, ignored: set<nat>, flag: nat, d: nat)
    requires k < |table|
  {
    var ss := table[k];
    && d < |ss| && Bad(table, ignored, k, ss[d]) && AcceptedUpTo(table, ignored, k, d)
    && stmts == Expand(ss[..d], ignored, flag) + ss[d..]
  }

  ghost predicate Stopped(table: Table, k: nat, stmts: seq<Stmt>, ignored: set<nat>, flag: nat)
    requires k < |table|
  {
    exists d :: StoppedAt(table, k, stmts, ignored, flag, d)
  }

  /** The loop over the statements of list k.  It moves its index past what it inserts. */
  method BracketList(table: Table, k: nat, ignored: set<nat>, flag: nat)
      returns (stmts: seq<Stmt>, bracketed: nat, nextFlag: nat, ok: bool)
    requires k < |table|
    ensures ok <==> ListAccepted(table, ignored, k)
    ensures ok ==> stmts == Expand(table[k], ignored, flag)
    ensures ok ==> bracketed == CountMarked(table[k], ignored) && nextFlag == flag + bracketed
    ensures !ok ==> bracketed == 0 && Stopped(table, k, stmts, ignored, flag)
  {
    ghost var ss, d := table[k], 0;
    stmts, bracketed, nextFlag := table[k], 0, flag;
    var i: nat := 0;
    while i < |stmts|
      invariant Through(stmts, ss, ignored, flag, d, i)
      invariant bracketed == CountMarked(ss[..d], ignored) && nextFlag == flag + bracketed
      invariant AcceptedUpTo(table, ignored, k, d)
      decreases |ss| - d
    {
      var stmt := stmts[i];
      KeptThrough(stmts, ss, ignored, flag, d, i);
      ExpandStep(ss, ignored, flag, d);
      if Marked(stmt, ignored) {
        if HasEscapingControlFlow(table, k, stmt) || Calls(table, k, stmt) > 1 {
          assert StoppedAt(table, k, stmts, ignored, flag, d);
          return stmts, 0, nextFlag, false;
        }
        stmts, i := InsertBrackets(stmts, i, nextFlag, ss, ignored, flag, d);
        nextFlag := nextFlag + 1;
        bracketed := bracketed + 1;
      }
      i, d := i + 1, d + 1;
    }
    assert ss[..|ss|] == ss;
    ok := true;
  }

  /** The statement lists of one file and the counter that numbers the guard variables. */
  class File {
    var lists: Table
    var nextFlag: nat

    constructor (lists: Table)
      ensures this.lists == lists && nextFlag == 0
    {
      this.lists, nextFlag := lists, 0;
    }

    /** Bracket the marked statements of list k.  At the first one that cannot be bracketed the
        list is left as far as it got, and the whole rewrite fails. */
    method BracketMarkedStmts(k: nat, ignored: set<nat>) returns (bracketed: nat, ok: bool)
      requires k < |lists|
      modifies this
      ensures ok <==> old(ListAccepted(lists, ignored, k))
      ensures |lists| == |old(lists)| && forall j :: 0 <= j < |lists| && j != k ==> lists[j] == old(lists)[j]
      ensures ok ==>
                lists[k] == Expand(old(lists)[k], ignored, old(nextFlag))
                && nextFlag == old(nextFlag) + bracketed && bracketed == CountMarked(old(lists)[k], ignored)
      ensures !ok ==> bracketed == 0 && Stopped(old(lists), k, lists[k], ignored, old(nextFlag))
    {
      var stmts;
      stmts, bracketed, nextFlag, ok := BracketList(lists, k, ignored, nextFlag);
      lists := lists[k := stmts];
    }

    /** All lists of the file in order. */
    method ApplyIgnoredCallSites(ignored: set<nat>) returns (changed: bool, ok: bool)
      modifies this
      ensures ok <==> old(Accepted(lists, ignored))
      ensures ok ==> lists == ExpandAll(old(lists), ignored, old(nextFlag))
      ensures ok ==> nextFlag == FlagAt(old(lists), ignored, old(nextFlag), |old(lists)|)
      ensures ok ==> (changed <==> nextFlag > old(nextFlag))
    {
      ghost var table, flag := lists, nextFlag;
      var bracketed := 0;
      for k := 0 to |lists|
        invariant Rewritten(lists, table, ignored, flag, k) && nextFlag == FlagAt(table, ignored, flag, k)
        invariant bracketed == nextFlag - flag
      {
        ghost var was := lists;
        AcceptedBelow(lists, table, ignored, k);
        var n;
        n, ok := BracketMarkedStmts(k, ignored);
        if !ok { return false, false; }
        RewrittenNext(was, lists, table, ignored, flag, k);
        bracketed := bracketed + n;
      }
      changed, ok := bracketed > 0, true;
      assert lists == ExpandAll(table, ignored, flag);
    }
  }

  /** The lists before number k are rewritten, the others are as they were. */
  ghost predicate Rewritten(lists: Table, table: Table, ignored: set<nat>, flag: nat, k: nat) {
    && |lists| == |table| && k <= |table|
    && (forall j :: 0 <= j < k ==> lists[j] == ExpandAll(table, ignored, flag)[j] && ListAccepted(table, ignored, j))
    && (forall j :: k <= j < |table| ==> lists[j] == table[j])
  }

  lemma {:induction false} RewrittenNext(was: Table, lists: Table, table: Table, ignored: set<nat>, flag: nat, k: nat)
    requires Rewritten(was, table, ignored, flag, k) && k < |was| == |lists| && ListAccepted(table, ignored, k)
    requires forall j :: 0 <= j < |lists| && j != k ==> lists[j] == was[j]
    requires lists[k] == Expand(table[k], ignored, FlagAt(table, ignored, flag, k))
    ensures Rewritten(lists, table, ignored, flag, k + 1)
  {
  }

  lemma {:induction false} AcceptedBelow(a: Table, b: Table, ignored: set<nat>, k: nat)
    requires k < |a| && SameBelow(a, b, k) && a[k] == b[k]
    ensures ListAccepted(a, ignored, k) == ListAccepted(b, ignored, k)
  {
    forall i | 0 <= i < |a[k]| ensures Rejected(a, k, a[k][i]) == Rejected(b, k, b[k][i]) {
      StmtLooksBelow(a, b, k, a[k][i]);
    }
  }
}
