/** The same ledger while deliveries, settlements, consumer ends and shutdowns run concurrently.  One
    step is one critical section, or one call that ends a span; steps of different goroutines
    interleave arbitrarily.  Tags are distinct, so a tag names its delivery, span and once-flag.
 */
module AmqpInterleaving {
  import opened Basics
  import opened AmqpLedger

  /** A map of unsettled deliveries: that of consumer c, or the k-th that the channel was given. */
  datatype Which = Local(c: nat) | Chan(k: nat)

  datatype Micro =
    | Add(at: Which, tag: nat)
    | Take(from: Which, upTo: nat, multiple: bool)   // the locked part of a settlement
    | TakeAll(from: Which)                           // the locked part of ending everything

  /** A goroutine first ends, in any order, the spans it took out, then goes on. */
  datatype Thread = Thread(ending: set<nat>, rest: seq<Micro>)

  /** `ends` counts how often each span was ended; `log` lists the critical sections so far. */
  datatype State = State(maps: map<Which, set<nat>>, done: set<nat>, ends: map<nat, nat>, threads: seq<Thread>,
      log: seq<Micro>)

  // ---------------------------------------------------------------- what the hooks do

  /** Entering a delivery: first in its consumer's map, if it has one, then in the channel's. */
  function Deliver(consumer: Option<nat>, k: nat, tag: nat): seq<Micro> {
    (if consumer.Some? then [Add(Local(consumer.value), tag)] else []) + [Add(Chan(k), tag)]
  }

  /** Settling through a delivery: the hook of the wrapped call, then both maps. */
  function Settle(hooked: Option<nat>, consumer: Option<nat>, k: nat, tag: nat, multiple: bool): seq<Micro> {
    (if hooked.Some? then [Take(Chan(hooked.value), tag, multiple)] else [])
    + (if consumer.Some? then [Take(Local(consumer.value), tag, multiple)] else [])
    + [Take(Chan(k), tag, multiple)]
  }

  // ---------------------------------------------------------------- steps

  function MapAt(s: State, m: Which): set<nat> { if m in s.maps then s.maps[m] else {} }

  predicate Hits(x: Micro, m: Which, t: nat) {
    match x
    case Add(_, _) => false
    case Take(f, n, multiple) => f == m && Covers(n, multiple, t)
    case TakeAll(f) => f == m
  }

  function TakenBy(s: State, x: Micro): set<nat> {
    if x.Add? then {} else set t | t in MapAt(s, x.from) && Hits(x, x.from, t)
  }

  function Apply(s: State, i: nat, x: Micro): State
    requires i < |s.threads| && s.threads[i].rest != []
  {
    var taken, rest := TakenBy(s, x), s.threads[i].rest[1..];
    var maps := if x.Add? then s.maps[x.at := MapAt(s, x.at) + {x.tag}] else s.maps[x.from := MapAt(s, x.from) - taken];
    s.(maps := maps, threads := s.threads[i := Thread(taken, rest)], log := s.log + [x])
  }

  /** The once-flag lets only the first call through. */
  function End(s: State, i: nat, t: nat): State
    requires i < |s.threads|
  {
    var th := s.threads[i];
    s.(threads := s.threads[i := th.(ending := th.ending - {t})], done := s.done + {t},
       ends := if t in s.done then s.ends else s.ends[t := EndsOf(s.ends, t) + 1])
  }

  /** Goroutine i does its next step; `t` is the span it ends if it has some to end. */
  function Step(s: State, i: nat, t: nat): State {
    if i >= |s.threads| then s
    else if s.threads[i].ending != {} then (if t in s.threads[i].ending then End(s, i, t) else s)
    else if s.threads[i].rest == [] then s
    else Apply(s, i, s.threads[i].rest[0])
  }

  function Run(s: State, sched: seq<(nat, nat)>): State
    decreases |sched|
  {
    if sched == [] then s else Run(Step(s, sched[0].0, sched[0].1), sched[1..])
  }

  predicate Initial(s: State) {
    s.maps == map[] && s.done == {} && s.ends == map[] && s.log == [] && forall i :: 0 <= i < |s.threads| ==>
      s.threads[i].ending == {}
  }

  // ---------------------------------------------------------------- what a log says

  predicate LiveFrom(log: seq<Micro>, m: Which, t: nat, i: nat) {
    i < |log| && log[i] == Add(m, t) && forall j :: i < j < |log| ==> !Hits(log[j], m, t)
  }

  /** Entered, and covered by nothing since. */
  ghost predicate Live(log: seq<Micro>, m: Which, t: nat) {
    exists i: nat :: LiveFrom(log, m, t, i)
  }

  predicate SettledAt(log: seq<Micro>, m: Which, t: nat, i: nat, j: nat) {
    i < j < |log| && log[i] == Add(m, t) && Hits(log[j], m, t)
  }

  /** Entered, and covered later. */
  ghost predicate Settled(log: seq<Micro>, m: Which, t: nat) {
    exists i: nat, j: nat :: SettledAt(log, m, t, i, j)
  }

  lemma {:induction false} LivePush(log: seq<Micro>, x: Micro, m: Which, t: nat)
    ensures Live(log + [x], m, t) <==> x == Add(m, t) || (Live(log, m, t) && !Hits(x, m, t))
  {
    var all := log + [x];
    if x == Add(m, t) { assert LiveFrom(all, m, t, |log|); }
    if Live(log, m, t) && !Hits(x, m, t) {
      var i: nat :| LiveFrom(log, m, t, i);
      assert LiveFrom(all, m, t, i);
    }
    if Live(all, m, t) && x != Add(m, t) {
      var i: nat :| LiveFrom(all, m, t, i);
      assert all[|log|] == x;
      assert forall j :: i < j < |log| ==> log[j] == all[j];
      assert LiveFrom(log, m, t, i);
    }
  }

  /** Behind an entry, the first thing that covers it settles it. */
  lemma {:induction false} LiveOrSettled(log: seq<Micro>, m: Which, t: nat, i: nat)
    requires i < |log| && log[i] == Add(m, t)
    ensures Live(log, m, t) || Settled(log, m, t)
  {
    if j :| i < j < |log| && Hits(log[j], m, t) {
      assert SettledAt(log, m, t, i, j);
    } else {
      assert LiveFrom(log, m, t, i);
    }
  }

  lemma {:induction false} SettledPush(log: seq<Micro>, x: Micro, m: Which, t: nat)
    ensures Settled(log + [x], m, t) <==> Settled(log, m, t) || (Live(log, m, t) && Hits(x, m, t))
  {
    var all := log + [x];
    if Settled(log, m, t) {
      var i: nat, j: nat :| SettledAt(log, m, t, i, j);
      assert SettledAt(all, m, t, i, j);
    }
    if Live(log, m, t) && Hits(x, m, t) {
      var i: nat :| LiveFrom(log, m, t, i);
      assert SettledAt(all, m, t, i, |log|);
    }
    if Settled(all, m, t) {
      var i: nat, j: nat :| SettledAt(all, m, t, i, j);
      if j < |log| { assert SettledAt(log, m, t, i, j); } else { LiveOrSettled(log, m, t, i); }
    }
  }

  // ---------------------------------------------------------------- invariant

  /** Ended, or taken out by a goroutine that is about to end it. */
  ghost predicate Over(s: State, t: nat) {
    t in s.done || exists i :: 0 <= i < |s.threads| && t in s.threads[i].ending
  }

  ghost predicate SomeSettled(log: seq<Micro>, t: nat) {
    exists m :: Settled(log, m, t)
  }

  ghost predicate Inv(s: State) {
    && (forall m, t :: t in MapAt(s, m) <==> Live(s.log, m, t))
    && (forall t :: Over(s, t) <==> SomeSettled(s.log, t))
    && forall t: nat :: EndsOf(s.ends, t) == if t in s.done then 1 else 0
  }

  lemma {:induction false} MapsStay(s: State, i: nat, m: Which, t: nat)
    requires Inv(s) && i < |s.threads| && s.threads[i].rest != []
    ensures var x := s.threads[i].rest[0];
            t in MapAt(Apply(s, i, x), m) <==> Live(s.log + [x], m, t)
  {
    var x := s.threads[i].rest[0];
    LivePush(s.log, x, m, t);
    assert t in MapAt(s, m) <==> Live(s.log, m, t);
  }

  /** Whatever a critical section takes out is settled by it, and nothing else is. */
  lemma {:induction false} OverStays(s: State, i: nat, t: nat)
    requires Inv(s) && i < |s.threads| && s.threads[i].ending == {} && s.threads[i].rest != []
    ensures var x := s.threads[i].rest[0];
            Over(Apply(s, i, x), t) <==> SomeSettled(s.log + [x], t)
  {
    var x := s.threads[i].rest[0];
    var s', log' := Apply(s, i, x), s.log + [x];
    assert Over(s', t) <==> Over(s, t) || t in TakenBy(s, x) by {
      assert s'.threads[i].ending == TakenBy(s, x);
      if Over(s, t) && t !in s.done {
        var k :| 0 <= k < |s.threads| && t in s.threads[k].ending;
        assert s'.threads[k] == s.threads[k];
      }
      if Over(s', t) && t !in s.done && t !in TakenBy(s, x) {
        var k :| 0 <= k < |s'.threads| && t in s'.threads[k].ending;
        assert s'.threads[k] == s.threads[k];
      }
    }
    forall m ensures Settled(log', m, t) <==> Settled(s.log, m, t) || (Live(s.log, m, t) && Hits(x, m, t)) {
      SettledPush(s.log, x, m, t);
    }
    assert t in TakenBy(s, x) ==> Settled(log', x.from, t);
    if SomeSettled(s.log, t) {
      var m :| Settled(s.log, m, t);
      assert Settled(log', m, t);
    }
    if SomeSettled(log', t) && !SomeSettled(s.log, t) {
      var m :| Settled(log', m, t);
      assert t in MapAt(s, m) <==> Live(s.log, m, t);
    }
  }

  lemma {:induction false} EndKeepsInv(s: State, i: nat, t: nat)
    requires Inv(s) && i < |s.threads| && t in s.threads[i].ending
    ensures Inv(End(s, i, t))
  {
    var s' := End(s, i, t);
    forall u ensures Over(s', u) <==> Over(s, u) {
      if Over(s, u) && u !in s.done && u != t {
        var k :| 0 <= k < |s.threads| && u in s.threads[k].ending;
        assert u in s'.threads[k].ending;
      }
      if Over(s', u) && u !in s'.done {
        var k :| 0 <= k < |s'.threads| && u in s'.threads[k].ending;
        assert u in s.threads[k].ending;
      }
    }
    forall m, u ensures u in MapAt(s', m) <==> Live(s'.log, m, u) { assert u in MapAt(s, m) <==> Live(s.log, m, u); }
  }

  lemma {:induction false} StepKeepsInv(s: State, i: nat, t: nat)
    requires Inv(s)
    ensures Inv(Step(s, i, t))
  {
    if i < |s.threads| {
      if s.threads[i].ending != {} {
        if t in s.threads[i].ending { EndKeepsInv(s, i, t); }
      } else if s.threads[i].rest != [] {
        var s' := Step(s, i, t);
        forall m, u ensures u in MapAt(s', m) <==> Live(s'.log, m, u) { MapsStay(s, i, m, u); }
        forall u ensures Over(s', u) <==> SomeSettled(s'.log, u) { OverStays(s, i, u); }
      }
    }
  }

  lemma {:induction false} RunKeepsInv(s: State, sched: seq<(nat, nat)>)
    requires Inv(s)
    ensures Inv(Run(s, sched))
    decreases |sched|
  {
    if sched != [] {
      StepKeepsInv(s, sched[0].0, sched[0].1);
      RunKeepsInv(Step(s, sched[0].0, sched[0].1), sched[1..]);
    }
  }

  // ---------------------------------------------------------------- main results

  /** No goroutine has a span left to end. */
  predicate Quiet(s: State) {
    forall i :: 0 <= i < |s.threads| ==> s.threads[i].ending == {}
  }

  lemma {:induction false} InitialInv(s: State)
    requires Initial(s)
    ensures Inv(s)
  {
    forall m, u ensures !Live([], m, u) && !Settled([], m, u) { }
  }

  /** However everything interleaves: no span ends twice; and once nobody is busy, a delivery's span
      has ended exactly when something covered the delivery after it was entered in some map. */
  lemma {:induction false} EndsExactlyTheSettled(s: State, sched: seq<(nat, nat)>, t: nat)
    requires Initial(s)
    ensures var s' := Run(s, sched);
            && EndsOf(s'.ends, t) <= 1
            && (Quiet(s') ==> (EndsOf(s'.ends, t) == 1 <==> SomeSettled(s'.log, t)))
  {
    InitialInv(s);
    RunKeepsInv(s, sched);
    var s' := Run(s, sched);
    assert Over(s', t) <==> SomeSettled(s'.log, t);
  }

  ghost predicate Before(log: seq<Micro>, x: Micro, y: Micro) {
    exists i: nat, j: nat :: i < j < |log| && log[i] == x && log[j] == y
  }

  /** Goroutine i has done the first part of program p, in order, since the log had `since` entries. */
  ghost predicate InOrder(p: seq<Micro>, s: State, i: nat, since: nat) {
    && i < |s.threads| && |s.threads[i].rest| <= |p| && since <= |s.log|
    && (var n, log := |p| - |s.threads[i].rest|, s.log[since..];
        && s.threads[i].rest == p[n..] && (forall a :: 0 <= a < n ==> p[a] in log)
        && forall a, b :: 0 <= a < b < n ==> Before(log, p[a], p[b]))
  }

  lemma {:induction false} BeforePush(log: seq<Micro>, z: Micro, x: Micro, y: Micro)
    ensures Before(log, x, y) ==> Before(log + [z], x, y)
    ensures x in log ==> Before(log + [z], x, z)
  {
    var all := log + [z];
    if Before(log, x, y) {
      var i: nat, j: nat :| i < j < |log| && log[i] == x && log[j] == y;
      assert all[i] == x && all[j] == y;
    }
    if x in log {
      var i: nat :| i < |log| && log[i] == x;
      assert all[i] == x && all[|log|] == z;
    }
  }

  lemma {:induction false} StepInOrder(p: seq<Micro>, s: State, i: nat, since: nat, k: nat, t: nat)
    requires InOrder(p, s, i, since)
    ensures InOrder(p, Step(s, k, t), i, since)
  {
    if k < |s.threads| && s.threads[k].ending == {} && s.threads[k].rest != [] {
      var z, n, log := s.threads[k].rest[0], |p| - |s.threads[i].rest|, s.log[since..];
      assert (s.log + [z])[since..] == log + [z];
      forall a, b | 0 <= a < b < n ensures Before(log + [z], p[a], p[b]) { BeforePush(log, z, p[a], p[b]); }
      if k == i {
        assert z == p[n] && p[n..][1..] == p[n + 1..];
        forall a | 0 <= a < n ensures Before(log + [z], p[a], p[n]) { BeforePush(log, z, p[a], p[a]); }
      }
    }
  }

  lemma {:induction false} RunInOrder(p: seq<Micro>, s: State, i: nat, since: nat, sched: seq<(nat, nat)>)
    requires InOrder(p, s, i, since)
    ensures InOrder(p, Run(s, sched), i, since)
    decreases |sched|
  {
    if sched != [] {
      StepInOrder(p, s, i, since, sched[0].0, sched[0].1);
      RunInOrder(p, Step(s, sched[0].0, sched[0].1), i, since, sched[1..]);
    }
  }

  /** What goroutine i does in a run, it does in order and after everything in the log so far. */
  lemma {:induction false} RunsOn(s: State, i: nat, sched: seq<(nat, nat)>)
    requires i < |s.threads|
    ensures InOrder(s.threads[i].rest, Run(s, sched), i, |s.log|)
    ensures s.log <= Run(s, sched).log
  {
    assert s.log[|s.log|..] == [];
    RunInOrder(s.threads[i].rest, s, i, |s.log|, sched);
    LogGrows(s, sched);
  }

  lemma {:induction false} LogGrows(s: State, sched: seq<(nat, nat)>)
    ensures s.log <= Run(s, sched).log
    decreases |sched|
  {
    if sched != [] { LogGrows(Step(s, sched[0].0, sched[0].1), sched[1..]); }
  }

  lemma {:induction false} RunConcat(s: State, a: seq<(nat, nat)>, b: seq<(nat, nat)>)
    ensures Run(s, a + b) == Run(Run(s, a), b)
    decreases |a|
  {
    if a == [] {
      assert a + b == b;
    } else {
      assert (a + b)[1..] == a[1..] + b;
      RunConcat(Step(s, a[0].0, a[0].1), a[1..], b);
    }
  }

  /** A goroutine that enters a delivery in a map and later covers it there ends its span, whatever
      the others do, a shutdown included: this is how a consumer's loop, when it ends, ends every
      delivery it has handed out. */
  lemma {:induction false} OwnDeliveriesEnd(s: State, sched: seq<(nat, nat)>, i: nat, a: nat, b: nat, m: Which, t: nat)
    requires Initial(s) && i < |s.threads| && a < b < |s.threads[i].rest|
    requires s.threads[i].rest[a] == Add(m, t) && Hits(s.threads[i].rest[b], m, t)
    requires var s' := Run(s, sched); Quiet(s') && i < |s'.threads| && s'.threads[i].rest == []
    ensures EndsOf(Run(s, sched).ends, t) == 1
  {
    var p, s' := s.threads[i].rest, Run(s, sched);
    RunsOn(s, i, sched);
    assert s'.log[0..] == s'.log && Before(s'.log, p[a], p[b]);
    var k: nat, j: nat :| k < j < |s'.log| && s'.log[k] == p[a] && s'.log[j] == p[b];
    assert SettledAt(s'.log, m, t, k, j);
    assert Settled(s'.log, m, t);
    EndsExactlyTheSettled(s, sched, t);
  }

  // ---------------------------------------------------------------- deliveries and settlements

  /** Goroutine i has an operation of its program behind it, which starts at position a ... */
  predicate Did(s0: State, s: State, i: nat, a: nat, op: seq<Micro>) {
    && i < |s0.threads| && i < |s.threads| && Calls(s0.threads[i].rest, a, op)
    && |s.threads[i].rest| <= |s0.threads[i].rest| - (a + |op|)
  }

  /** ... or still before it. */
  predicate WillDo(s0: State, s: State, i: nat, a: nat, op: seq<Micro>) {
    && i < |s0.threads| && i < |s.threads| && Calls(s0.threads[i].rest, a, op)
    && |s.threads[i].rest| >= |s0.threads[i].rest| - a
  }

  predicate Calls(p: seq<Micro>, a: nat, op: seq<Micro>) { a + |op| <= |p| && p[a..a + |op|] == op }

  /** What an operation accesses is in the log once it is done. */
  lemma {:induction false} DoneIsLogged(s: State, sched: seq<(nat, nat)>, i: nat, a: nat, op: seq<Micro>, e: nat)
    requires s.log == [] && Did(s, Run(s, sched), i, a, op) && e < |op|
    ensures op[e] in Run(s, sched).log
  {
    RunsOn(s, i, sched);
    var log := Run(s, sched).log;
    assert log[0..] == log;
    assert s.threads[i].rest[a + e] == s.threads[i].rest[a..a + |op|][e] == op[e];
  }

  /** What it accesses is logged after everything that was logged before it started. */
  lemma {:induction false} LoggedLater(s: State, pre: seq<(nat, nat)>, post: seq<(nat, nat)>, i: nat, a: nat,
      op: seq<Micro>, e: nat)
    requires WillDo(s, Run(s, pre), i, a, op) && Did(s, Run(s, pre + post), i, a, op) && e < |op|
    ensures var since := |Run(s, pre).log|;
            since <= |Run(s, pre + post).log| && op[e] in Run(s, pre + post).log[since..]
              && Run(s, pre).log <= Run(s, pre + post).log
  {
    var s1 := Run(s, pre);
    RunConcat(s, pre, post);
    RunsOn(s, i, pre);
    RunsOn(s1, i, post);
    var p, rest := s.threads[i].rest, s1.threads[i].rest;
    var done := |p| - |rest|;
    assert rest == p[done..] && rest[a + e - done] == p[a + e] == p[a..a + |op|][e];
  }

  /** The channel's map is the last that both operations access. */
  lemma {:induction false} LastAccess(consumer: Option<nat>, hooked: Option<nat>, other: Option<nat>, k: nat, t: nat,
      n: nat, multiple: bool)
    ensures var d, u := Deliver(consumer, k, t), Settle(hooked, other, k, n, multiple);
            d != [] && u != [] && d[|d| - 1] == Add(Chan(k), t) && u[|u| - 1] == Take(Chan(k), n, multiple)
  {
  }

  /** A settlement that starts after a delivery it covers has been entered ends the delivery's span,
      whatever else runs: whoever settles a delivery has received it. */
  lemma {:induction false} LaterSettlementEnds(
      s: State, pre: seq<(nat, nat)>, post: seq<(nat, nat)>, i: nat, a: nat, j: nat, b: nat,
      consumer: Option<nat>, hooked: Option<nat>, other: Option<nat>, k: nat, t: nat, n: nat, multiple: bool)
    requires Initial(s) && (if multiple then t <= n else t == n) && Quiet(Run(s, pre + post))
    requires Did(s, Run(s, pre), i, a, Deliver(consumer, k, t))
    requires var op := Settle(hooked, other, k, n, multiple);
             WillDo(s, Run(s, pre), j, b, op) && Did(s, Run(s, pre + post), j, b, op)
    ensures EndsOf(Run(s, pre + post).ends, t) == 1
  {
    var d, u := Deliver(consumer, k, t), Settle(hooked, other, k, n, multiple);
    var log0, log := Run(s, pre).log, Run(s, pre + post).log;
    LastAccess(consumer, hooked, other, k, t, n, multiple);
    DoneIsLogged(s, pre, i, a, d, |d| - 1);
    LoggedLater(s, pre, post, j, b, u, |u| - 1);
    var x: nat :| x < |log0| && log0[x] == Add(Chan(k), t);
    var y: nat :| y < |log[|log0|..]| && log[|log0|..][y] == Take(Chan(k), n, multiple);
    assert log[x] == log0[x] && log[|log0| + y] == Take(Chan(k), n, multiple);
    assert SettledAt(log, Chan(k), t, x, |log0| + y);
    assert Settled(log, Chan(k), t);
    EndsExactlyTheSettled(s, pre + post, t);
  }

  /** A shutdown of the channel that starts after a delivery has been entered ends the delivery's span. */
  lemma {:induction false} LaterShutdownEnds(
      s: State, pre: seq<(nat, nat)>, post: seq<(nat, nat)>, i: nat, a: nat, j: nat, b: nat,
      consumer: Option<nat>, k: nat, t: nat)
    requires Initial(s) && Quiet(Run(s, pre + post))
    requires Did(s, Run(s, pre), i, a, Deliver(consumer, k, t))
    requires WillDo(s, Run(s, pre), j, b, [TakeAll(Chan(k))]) && Did(s, Run(s, pre + post), j, b, [TakeAll(Chan(k))])
    ensures EndsOf(Run(s, pre + post).ends, t) == 1
  {
    var d, u := Deliver(consumer, k, t), [TakeAll(Chan(k))];
    var log0, log := Run(s, pre).log, Run(s, pre + post).log;
    DoneIsLogged(s, pre, i, a, d, |d| - 1);
    LoggedLater(s, pre, post, j, b, u, 0);
    var x: nat :| x < |log0| && log0[x] == Add(Chan(k), t);
    var y: nat :| y < |log[|log0|..]| && log[|log0|..][y] == TakeAll(Chan(k));
    assert log[x] == log0[x] && log[|log0| + y] == TakeAll(Chan(k));
    assert SettledAt(log, Chan(k), t, x, |log0| + y);
    assert Settled(log, Chan(k), t);
    EndsExactlyTheSettled(s, pre + post, t);
  }

  /** A consumer's loop that hands out a delivery and in the end takes all that is left of its own map
      ends the delivery's span. */
  lemma {:induction false} ConsumerLoopEnds(
      s: State, sched: seq<(nat, nat)>, i: nat, a: nat, b: nat, c: nat, k: nat, t: nat)
    requires Initial(s) && i < |s.threads| && Calls(s.threads[i].rest, a, Deliver(Some(c), k, t))
    requires a + 2 <= b && Calls(s.threads[i].rest, b, [TakeAll(Local(c))])
    requires var s' := Run(s, sched); Quiet(s') && i < |s'.threads| && s'.threads[i].rest == []
    ensures EndsOf(Run(s, sched).ends, t) == 1
  {
    var p, d := s.threads[i].rest, Deliver(Some(c), k, t);
    assert p[a] == p[a..a + |d|][0] == Add(Local(c), t);
    assert p[b] == p[b..b + 1][0] == TakeAll(Local(c));
    OwnDeliveriesEnd(s, sched, i, a, b, Local(c), t);
  }

  /** No access to any map that would settle tag t. */
  predicate Spares(x: Micro, t: nat) {
    match x
    case Add(_, _) => true
    case Take(_, n, multiple) => if multiple then n < t else n != t
    case TakeAll(_) => false
  }

  ghost predicate AllSpare(s: State, t: nat) {
    && (forall e :: 0 <= e < |s.log| ==> Spares(s.log[e], t))
    && forall i, e :: 0 <= i < |s.threads| && 0 <= e < |s.threads[i].rest| ==> Spares(s.threads[i].rest[e], t)
  }

  lemma {:induction false} StepSpares(s: State, i: nat, u: nat, t: nat)
    requires AllSpare(s, t)
    ensures AllSpare(Step(s, i, u), t)
  {
    if i < |s.threads| && s.threads[i].ending == {} && s.threads[i].rest != [] {
      var s1 := Step(s, i, u);
      forall j, e | 0 <= j < |s1.threads| && 0 <= e < |s1.threads[j].rest| ensures Spares(s1.threads[j].rest[e], t) {
        if j == i { assert s1.threads[i].rest[e] == s.threads[i].rest[e + 1]; }
      }
    }
  }

  lemma {:induction false} RunSpares(s: State, sched: seq<(nat, nat)>, t: nat)
    requires AllSpare(s, t)
    ensures AllSpare(Run(s, sched), t)
    decreases |sched|
  {
    if sched != [] {
      StepSpares(s, sched[0].0, sched[0].1, t);
      RunSpares(Step(s, sched[0].0, sched[0].1), sched[1..], t);
    }
  }

  /** A delivery that nobody settles stays open: only smaller tags are settled "up to", no other tag by
      itself ends it, and neither its consumer nor its channel ends. */
  lemma {:induction false} UnsettledStaysOpen(s: State, sched: seq<(nat, nat)>, t: nat)
    requires Initial(s) && Quiet(Run(s, sched))
    requires forall i, e :: 0 <= i < |s.threads| && 0 <= e < |s.threads[i].rest| ==> Spares(s.threads[i].rest[e], t)
    ensures EndsOf(Run(s, sched).ends, t) == 0 && t !in Run(s, sched).done
  {
    RunSpares(s, sched, t);
    var log := Run(s, sched).log;
    forall m, j | 0 <= j < |log| ensures !Hits(log[j], m, t) { assert Spares(log[j], t); }
    assert forall m, i, j :: !SettledAt(log, m, t, i, j);
    assert forall m :: !Settled(log, m, t);
    EndsExactlyTheSettled(s, sched, t);
    EndedIsDone(s, sched, t);
  }

  /** A delivery's span can be missed only if every access that covers it in some map came before the
      delivery was entered there. */
  lemma {:induction false} MissedOnlyBefore(s: State, sched: seq<(nat, nat)>, t: nat, m: Which, x: nat, y: nat)
    requires Initial(s) && Quiet(Run(s, sched)) && t !in Run(s, sched).done
    requires var log := Run(s, sched).log; x < |log| && y < |log| && log[x] == Add(m, t) && Hits(log[y], m, t)
    ensures y < x
  {
    var log := Run(s, sched).log;
    if x < y {
      assert SettledAt(log, m, t, x, y);
      assert Settled(log, m, t);
    }
    EndsExactlyTheSettled(s, sched, t);
    EndedIsDone(s, sched, t);
  }

  lemma {:induction false} EndedIsDone(s: State, sched: seq<(nat, nat)>, t: nat)
    requires Initial(s)
    ensures EndsOf(Run(s, sched).ends, t) == 1 <==> t in Run(s, sched).done
  {
    InitialInv(s);
    RunKeepsInv(s, sched);
  }

  const ENTER_LOCAL := Add(Local(0), 1)
  const ENTER_CHAN := Add(Chan(0), 1)
  const UP_TO_TWO := Take(Chan(0), 2, true)
  const OVERLAP := State(map[], {}, map[], [Thread({}, [ENTER_LOCAL, ENTER_CHAN]), Thread({}, [UP_TO_TWO])], [])

  /** A settlement that runs while an earlier delivery of another consumer is between its two maps
      misses it, although it covers its tag: everybody is done, and the span is open. */
  lemma {:induction false} OverlapIsMissed()
    ensures Initial(OVERLAP) && OVERLAP.threads
            == [Thread({}, Deliver(Some(0), 0, 1)), Thread({}, Settle(None, None, 0, 2, true))]
    ensures var s := Run(OVERLAP, [(0, 0), (1, 0), (0, 0)]);
            Quiet(s) && s.threads == [Thread({}, []), Thread({}, [])] && Hits(UP_TO_TWO, Chan(0), 1) && 1 !in s.done
  {
    assert Deliver(Some(0), 0, 1) == [ENTER_LOCAL, ENTER_CHAN];
    assert Settle(None, None, 0, 2, true) == [] + [] + [UP_TO_TWO] == [UP_TO_TWO];
    var idle := Thread({}, []);
    var s1 := Apply(OVERLAP, 0, ENTER_LOCAL);
    assert [ENTER_LOCAL, ENTER_CHAN][1..] == [ENTER_CHAN];
    assert s1.threads == [Thread({}, [ENTER_CHAN]), Thread({}, [UP_TO_TWO])] && MapAt(s1, Chan(0)) == {};
    var s2 := Apply(s1, 1, UP_TO_TWO);
    assert [UP_TO_TWO][1..] == [] && TakenBy(s1, UP_TO_TWO) == {};
    assert s2.threads == [Thread({}, [ENTER_CHAN]), idle];
    var s3 := Apply(s2, 0, ENTER_CHAN);
    assert [ENTER_CHAN][1..] == [] && s3.threads == [idle, idle] && s3.done == {};
    var sched: seq<(nat, nat)> := [(0, 0), (1, 0), (0, 0)];
    assert sched[1..] == [(1, 0), (0, 0)] && sched[1..][1..] == [(0, 0)] && sched[1..][1..][1..] == [];
    assert Run(OVERLAP, sched) == Run(s1, sched[1..]) == Run(s2, sched[1..][1..]) == Run(s3, []) == s3;
  }
}
