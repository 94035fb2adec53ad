/** The functions that take and release the build lock, as one process executes them while the
    other processes do whatever they like between any two of its system calls.
 */
module BuildLockCalls {
  import opened Basics
  import opened BuildLock

  /** What happens around one system call: first steps of other processes, then the call itself,
      which may fail. */
  datatype Moment = Moment(others: Schedule, fails: bool)

  predicate ByOthers(sched: Schedule, p: nat) {
    forall i :: 0 <= i < |sched| ==> sched[i].0 != p
  }

  lemma {:induction false} OthersLeaveMeAlone(c: Config, s: State, sched: Schedule, p: nat)
    requires p < |s.pcs| && ByOthers(sched, p)
    ensures Run(c, s, sched).pcs[p] == s.pcs[p]
    decreases |sched|
  {
    if sched != [] { OthersLeaveMeAlone(c, Step(c, s, sched[0].0, sched[0].1), sched[1..], p); }
  }

  /** Where one system call takes a process, whatever the others did. */
  predicate Moves(a: Pc, b: Pc) {
    match a
    case Idle => b.Idle? || b.Opened?
    case Opened(_) => b.Locked? || b.Failed?
    case Locked(_) => b.Holding? || b.Failed?
    case Failed(_) => b.Idle?
    case Holding(_) => b.Releasing?
    case Releasing(_) => b.Unlocking?
    case Unlocking(_, r) => b.Leaked? || (b.Unlocked? && b.removed == r)
    case Unlocked(_, r) => if r then b.Idle? else b.Closed?
    case Closed => b.Idle?
    case Leaked(_) => b == a
  }

  /** One call of a process: the state it found, and whether it went well. */
  datatype Own = Own(at: State, act: Act)

  /** All calls that process p makes in a run. */
  function Calls(c: Config, s: State, sched: Schedule, p: nat): seq<Own>
    decreases |sched|
  {
    if sched == [] then []
    else
      (if sched[0].0 == p then [Own(s, sched[0].1)] else [])
      + Calls(c, Step(c, s, sched[0].0, sched[0].1), sched[1..], p)
  }

  lemma {:induction false} CallsConcat(c: Config, s: State, a: Schedule, b: Schedule, p: nat)
    ensures Calls(c, s, a + b, p) == Calls(c, s, a, p) + Calls(c, Run(c, s, a), b, p)
    decreases |a|
  {
    if a == [] {
      assert a + b == b;
    } else {
      assert (a + b)[0] == a[0] && (a + b)[1..] == a[1..] + b;
      CallsConcat(c, Step(c, s, a[0].0, a[0].1), a[1..], b, p);
    }
  }

  lemma {:induction false} OthersAreNotMine(c: Config, s: State, sched: Schedule, p: nat)
    requires ByOthers(sched, p)
    ensures Calls(c, s, sched, p) == []
    decreases |sched|
  {
    if sched != [] { OthersAreNotMine(c, Step(c, s, sched[0].0, sched[0].1), sched[1..], p); }
  }

  /** A call of p after others have moved. */
  lemma {:induction false} OneMoreCall(c: Config, start: State, sched: Schedule, others: Schedule, p: nat, act: Act)
    requires ByOthers(others, p)
    ensures var before := Run(c, Run(c, start, sched), others);
            Calls(c, start, sched + others + [(p, act)], p) == Calls(c, start, sched, p) + [Own(before, act)]
  {
    CallsConcat(c, start, sched + others, [(p, act)], p);
    CallsConcat(c, start, sched, others, p);
    RunConcat(c, start, sched, others);
    OthersAreNotMine(c, Run(c, start, sched), others, p);
    var mine: Schedule := [(p, act)];
    assert mine[1..] == [];
  }

  // ---------------------------------------------------------------- the calls of one attempt

  /** The calls are in order and each finds p where the one before has left it. */
  predicate Follows(c: Config, calls: seq<Own>, p: nat) {
    && (forall k :: 0 <= k < |calls| ==> p < |calls[k].at.pcs| && !calls[k].act.Crash?)
    && forall k :: 0 < k < |calls| ==> calls[k].at.pcs[p] == Step(c, calls[k - 1].at, p, calls[k - 1].act).pcs[p]
  }

  /** Opening, locking and comparing have all succeeded. */
  predicate Acquires(c: Config, calls: seq<Own>, p: nat) {
    && |calls| == 3 && Follows(c, calls, p) && calls[0].at.pcs[p].Idle? && calls[0].act.Go?
    && calls[1].at.pcs[p].Opened? && LockGranted(calls[1], p)
    && calls[2].at.pcs[p].Locked? && SameFile(calls[2], p)
  }

  predicate LockGranted(call: Own, p: nat)
    requires p < |call.at.pcs| && call.at.pcs[p].Opened?
  {
    call.act.Go? && call.at.pcs[p].ino !in call.at.owner
  }

  predicate SameFile(call: Own, p: nat)
    requires p < |call.at.pcs| && call.at.pcs[p].Locked?
  {
    call.act.Go? && call.at.path == Some(call.at.pcs[p].ino)
  }

  /** Opening has failed; or locking has, for the file was locked or the call failed; or the path no
      longer named the locked file, or could not be compared.  In the end the handle is closed. */
  predicate GivesUp(c: Config, calls: seq<Own>, p: nat) {
    && calls != [] && Follows(c, calls, p) && calls[0].at.pcs[p].Idle?
    && match |calls| {
         case 1 => !calls[0].act.Go?
         case 3 => calls[1].at.pcs[p].Opened? && !LockGranted(calls[1], p) && calls[2].at.pcs[p].Failed?
         case 4 =>
           && calls[1].at.pcs[p].Opened? && LockGranted(calls[1], p)
           && calls[2].at.pcs[p].Locked? && !SameFile(calls[2], p) && calls[3].at.pcs[p].Failed?
         case _ => false
       }
  }

  predicate Undisturbed(ms: seq<Moment>) {
    forall m :: m in ms ==> m.others == [] && !m.fails
  }

  /** What a call comes to, by the place where it finds p. */
  predicate ComesTo(c: Config, call: Own, p: nat, after: Pc)
    requires p < |call.at.pcs|
  {
    match call.at.pcs[p]
    case Idle => if call.act.Go? then after.Opened? else after.Idle?
    case Opened(_) => if LockGranted(call, p) then after.Locked? else after.Failed?
    case Locked(_) => if SameFile(call, p) then after.Holding? else after.Failed?
    case Releasing(_) => after.Unlocking? && (after.removed <==> Step(c, call.at, p, call.act).path != call.at.path)
    case _ => true
  }

  /** Where p is behind a call. */
  function After(c: Config, call: Own, p: nat): Pc
    requires p < |call.at.pcs|
  {
    Step(c, call.at, p, call.act).pcs[p]
  }

  lemma {:induction false} StepComesTo(c: Config, call: Own, p: nat)
    requires Sane(c) && p < |call.at.pcs| && !call.act.Crash?
    ensures ComesTo(c, call, p, Step(c, call.at, p, call.act).pcs[p])
    ensures Moves(call.at.pcs[p], Step(c, call.at, p, call.act).pcs[p])
  {
  }

  /** Call b finds p where call a has left it. */
  predicate Next(c: Config, a: Own, b: Own, p: nat) {
    && p < |a.at.pcs| && p < |b.at.pcs| && !b.act.Crash?
    && b.at.pcs[p] == Step(c, a.at, p, a.act).pcs[p]
  }

  predicate First(a: Own, p: nat) { p < |a.at.pcs| && !a.act.Crash? && a.at.pcs[p] == Idle }

  lemma {:induction false} OpenFails(c: Config, x: Own, p: nat)
    requires Sane(c) && First(x, p) && After(c, x, p) == Idle
    ensures GivesUp(c, [x], p) && !x.act.Go?
  {
    StepComesTo(c, x, p);
  }

  lemma {:induction false} ThreeCalls(c: Config, x: Own, y: Own, z: Own, p: nat, acquired: bool)
    requires Sane(c) && First(x, p) && Next(c, x, y, p) && Next(c, y, z, p) && y.at.pcs[p].Opened?
    requires if acquired then z.at.pcs[p].Locked? && After(c, z, p).Holding? else z.at.pcs[p].Failed?
    ensures if acquired then Acquires(c, [x, y, z], p) else GivesUp(c, [x, y, z], p)
  {
    StepComesTo(c, x, p);
    StepComesTo(c, y, p);
    StepComesTo(c, z, p);
  }

  lemma {:induction false} FourCalls(c: Config, x: Own, y: Own, z: Own, w: Own, p: nat)
    requires Sane(c) && First(x, p) && Next(c, x, y, p) && Next(c, y, z, p) && Next(c, z, w, p)
    requires y.at.pcs[p].Opened? && z.at.pcs[p].Locked? && w.at.pcs[p].Failed?
    ensures GivesUp(c, [x, y, z, w], p)
  {
    StepComesTo(c, x, p);
    StepComesTo(c, y, p);
    StepComesTo(c, z, p);
  }

  /** What releasing amounts to: one attempt to remove the file, then unlocking; a second attempt
      exactly when the first has failed and the lock was given up. */
  predicate Releases(c: Config, calls: seq<Own>, p: nat, last: Pc) {
    && Follows(c, calls, p) && |calls| >= 3
    && calls[1].at.pcs[p].Releasing? && calls[2].at.pcs[p].Unlocking?
    && |calls| == (if last.Leaked? then 3 else if calls[2].at.pcs[p].removed then 4 else 5)
    && (calls[2].at.pcs[p].removed <==> Step(c, calls[1].at, p, calls[1].act).path != calls[1].at.path)
    && (|calls| == 5 ==> calls[4].at.pcs[p] == Closed)
  }

  lemma {:induction false} ReleaseEnds(c: Config, x: Own, y: Own, z: Own, rest: seq<Own>, p: nat, last: Pc)
    requires Sane(c) && p < |x.at.pcs| && !x.act.Crash? && Next(c, x, y, p) && Next(c, y, z, p)
    requires y.at.pcs[p].Releasing? && z.at.pcs[p].Unlocking?
    requires if rest == [] then last.Leaked?
             else
               && !last.Leaked? && Next(c, z, rest[0], p) && |rest| == (if z.at.pcs[p].removed then 1 else 2)
               && (|rest| == 2 ==> Next(c, rest[0], rest[1], p) && rest[1].at.pcs[p] == Closed)
    ensures Releases(c, [x, y, z] + rest, p, last)
  {
    StepComesTo(c, y, p);
  }

  /** Alone, from s0 on, an attempt is decided by whether the file is locked. */
  lemma {:induction false} AloneAttempt(c: Config, s0: State, p: nat)
    requires Sane(c) && p < |s0.pcs| && s0.pcs[p] == Idle
    ensures var s1 := Step(c, s0, p, Go);
            var s2 := Step(c, s1, p, Go);
            && s1.pcs[p].Opened? && (s2.pcs[p].Locked? <==> OpenedIno(s0) !in s0.owner)
            && (s2.pcs[p].Locked? ==> Step(c, s2, p, Go).pcs[p].Holding?)
  {
    var s1 := Step(c, s0, p, Go);
    assert s1.pcs[p] == Opened(OpenedIno(s0)) && s1.owner == s0.owner && s1.path == Some(OpenedIno(s0));
  }

  /** Every attempt but a last successful one has given up. */
  ghost predicate Polled(c: Config, p: nat, tries: seq<seq<Own>>, acquired: bool) {
    && (acquired ==> tries != [] && Acquires(c, tries[|tries| - 1], p))
    && forall k :: 0 <= k < |tries| - (if acquired then 1 else 0) ==> GivesUp(c, tries[k], p)
  }

  lemma {:induction false} PolledMore(c: Config, p: nat, tries: seq<seq<Own>>, calls: seq<Own>, acquired: bool)
    requires Polled(c, p, tries, false) && if acquired then Acquires(c, calls, p) else GivesUp(c, calls, p)
    ensures Polled(c, p, tries + [calls], acquired) && Flatten(tries + [calls]) == Flatten(tries) + calls
  {
    FlattenPush(tries, calls);
  }

  class System {
    const c: Config
    const start: State
    var s: State
    ghost var sched: Schedule

    constructor (c: Config, start: State)
      requires Sane(c) && Initial(start)
      ensures this.c == c && this.start == start && s == start && Valid()
    {
      this.c, this.start, s, sched := c, start, start, [];
    }

    /** The state is one that some interleaving reaches. */
    ghost predicate Valid()
      reads this
    {
      Sane(c) && Initial(start) && s == Run(c, start, sched)
    }

    /** The calls of process p so far. */
    ghost function CallsOf(p: nat): seq<Own>
      reads this
    {
      Calls(c, start, sched, p)
    }

    /** Others move, then p makes its next call. */
    method Move(p: nat, m: Moment) returns (ghost call: Own)
      requires Valid() && p < |s.pcs| && ByOthers(m.others, p)
      modifies this
      ensures Valid() && |s.pcs| == |old(s).pcs| && Moves(old(s).pcs[p], s.pcs[p])
      ensures CallsOf(p) == old(CallsOf(p)) + [call] && call.act == if m.fails then Err else Go
      ensures p < |call.at.pcs| && call.at.pcs[p] == old(s).pcs[p] && After(c, call, p) == s.pcs[p]
      ensures m.others == [] && !m.fails ==> s == Step(c, old(s), p, Go)
    {
      var act := if m.fails then Err else Go;
      call := Own(Run(c, s, m.others), act);
      OthersLeaveMeAlone(c, s, m.others, p);
      OneMoreCall(c, start, sched, m.others, p, act);
      StepComesTo(c, call, p);
      RunConcat(c, start, sched, m.others);
      RunConcat(c, start, sched + m.others, [(p, act)]);
      s := Step(c, Run(c, s, m.others), p, act);
      ghost var mine: Schedule := [(p, act)];
      assert mine[1..] == [];
      sched := sched + m.others + mine;
    }

    /** One attempt on a fresh handle: open, lock, compare inodes; on failure drop everything.
        `calls` are the calls it makes. */
    method TryAcquire(p: nat, ms: seq<Moment>) returns (acquired: bool, ghost calls: seq<Own>)
      requires Valid() && p < |s.pcs| && s.pcs[p] == Idle
      requires |ms| >= 4 && forall m :: m in ms ==> ByOthers(m.others, p)
      modifies this
      ensures Valid() && |s.pcs| == |old(s).pcs|
      ensures if acquired then s.pcs[p].Holding? else s.pcs[p] == Idle
      ensures CallsOf(p) == old(CallsOf(p)) + calls
      ensures if acquired then Acquires(c, calls, p) else GivesUp(c, calls, p)
      ensures Undisturbed(ms) ==> (acquired <==> OpenedIno(old(s)) !in old(s).owner)
    {
      AloneAttempt(c, s, p);
      ghost var x := Move(p, ms[0]);
      if s.pcs[p] == Idle {
        OpenFails(c, x, p);
        return false, [x];
      }
      acquired, calls := LockAndCompare(p, ms[1..4], x);
    }

    /** The rest of an attempt, with the file opened by call x. */
    method LockAndCompare(p: nat, ms: seq<Moment>, ghost x: Own) returns (acquired: bool, ghost calls: seq<Own>)
      requires Valid() && p < |s.pcs| && s.pcs[p].Opened? && First(x, p) && After(c, x, p) == s.pcs[p]
      requires |ms| == 3 && forall m :: m in ms ==> ByOthers(m.others, p)
      modifies this
      ensures Valid() && |s.pcs| == |old(s).pcs|
      ensures if acquired then s.pcs[p].Holding? else s.pcs[p] == Idle
      ensures [x] <= calls && CallsOf(p) == old(CallsOf(p)) + calls[1..]
      ensures if acquired then Acquires(c, calls, p) else GivesUp(c, calls, p)
      ensures Undisturbed(ms) ==> var s2 := Step(c, old(s), p, Go);
                                  acquired <==> s2.pcs[p].Locked? && Step(c, s2, p, Go).pcs[p].Holding?
    {
      ghost var y := Move(p, ms[0]);
      if s.pcs[p].Locked? {
        ghost var z := Move(p, ms[1]);
        if s.pcs[p].Holding? {
          ThreeCalls(c, x, y, z, p, true);
          return true, [x, y, z];
        }
        ghost var w := Move(p, ms[2]);
        FourCalls(c, x, y, z, w, p);
        return false, [x, y, z, w];
      }
      ghost var z := Move(p, ms[2]);
      ThreeCalls(c, x, y, z, p, false);
      return false, [x, y, z];
    }

    /** One more attempt behind those recorded in `tries`. */
    method TryAgain(p: nat, ms: seq<Moment>, ghost calls0: seq<Own>, ghost tries: seq<seq<Own>>)
        returns (acquired: bool, ghost tries': seq<seq<Own>>)
      requires Valid() && p < |s.pcs| && s.pcs[p] == Idle
      requires |ms| >= 4 && forall m :: m in ms ==> ByOthers(m.others, p)
      requires CallsOf(p) == calls0 + Flatten(tries) && Polled(c, p, tries, false)
      modifies this
      ensures Valid() && |s.pcs| == |old(s).pcs|
      ensures if acquired then s.pcs[p].Holding? else s.pcs[p] == Idle
      ensures |tries'| == |tries| + 1 && CallsOf(p) == calls0 + Flatten(tries') && Polled(c, p, tries', acquired)
      ensures Undisturbed(ms) && OpenedIno(old(s)) !in old(s).owner ==> acquired
    {
      ghost var calls;
      acquired, calls := TryAcquire(p, ms);
      PolledMore(c, p, tries, calls, acquired);
      tries' := tries + [calls];
    }

    /** Keep trying; the caller gives up after as many attempts as there are entries.  `tries` are the
        calls of each attempt. */
    method AcquireBuildLock(p: nat, attempts: seq<seq<Moment>>) returns (acquired: bool, ghost tries: seq<seq<Own>>)
      requires Valid() && p < |s.pcs| && s.pcs[p] == Idle
      requires forall ms :: ms in attempts ==> |ms| >= 4 && forall m :: m in ms ==> ByOthers(m.others, p)
      modifies this
      ensures Valid() && |s.pcs| == |old(s).pcs|
      ensures if acquired then s.pcs[p].Holding? else s.pcs[p] == Idle
      ensures CallsOf(p) == old(CallsOf(p)) + Flatten(tries) && Polled(c, p, tries, acquired)
      ensures if acquired then |tries| <= |attempts| else |tries| == |attempts|
      ensures attempts != [] && Undisturbed(attempts[0]) && OpenedIno(old(s)) !in old(s).owner ==> acquired
    {
      ghost var calls0, free := CallsOf(p), attempts != [] && Undisturbed(attempts[0]) && OpenedIno(s) !in s.owner;
      acquired, tries := false, [];
      var i := 0;
      while i < |attempts| && !acquired
        invariant i <= |attempts| && Valid() && |s.pcs| == |old(s).pcs|
        invariant if acquired then s.pcs[p].Holding? else s.pcs[p] == Idle
        invariant CallsOf(p) == calls0 + Flatten(tries) && |tries| == i && Polled(c, p, tries, acquired)
        invariant i == 0 ==> s == old(s) && !acquired
        invariant i > 0 && free ==> acquired
      {
        assert attempts[i] in attempts;
        acquired, tries := TryAgain(p, attempts[i], calls0, tries);
        i := i + 1;
      }
    }

    /** Remove the file while it is locked, unlock, and remove it again only if that failed.  `calls`
        are the calls it makes. */
    method Release(p: nat, ms: seq<Moment>) returns (ghost calls: seq<Own>)
      requires Valid() && p < |s.pcs| && s.pcs[p].Holding?
      requires |ms| >= 5 && forall m :: m in ms ==> ByOthers(m.others, p)
      modifies this
      ensures Valid() && |s.pcs| == |old(s).pcs| && (s.pcs[p] == Idle || s.pcs[p].Leaked?)
      ensures CallsOf(p) == old(CallsOf(p)) + calls && Releases(c, calls, p, s.pcs[p])
    {
      ghost var x := Move(p, ms[0]);
      ghost var y := Move(p, ms[1]);
      var removed := s.pcs[p].removed;
      ghost var z := Move(p, ms[2]);
      ghost var rest: seq<Own> := [];
      if s.pcs[p].Unlocked? { rest := CloseAndRemove(p, ms[3..5], removed); }
      ReleaseEnds(c, x, y, z, rest, p, s.pcs[p]);
      calls := [x, y, z] + rest;
    }

    /** The rest of releasing once the lock is given up. */
    method CloseAndRemove(p: nat, ms: seq<Moment>, removed: bool) returns (ghost calls: seq<Own>)
      requires Valid() && p < |s.pcs| && s.pcs[p].Unlocked? && s.pcs[p].removed == removed
      requires |ms| == 2 && forall m :: m in ms ==> ByOthers(m.others, p)
      modifies this
      ensures Valid() && |s.pcs| == |old(s).pcs| && s.pcs[p] == Idle && CallsOf(p) == old(CallsOf(p)) + calls
      ensures |calls| == (if removed then 1 else 2)
      ensures forall k :: 0 <= k < |calls| ==> p < |calls[k].at.pcs| && !calls[k].act.Crash?
      ensures calls[0].at.pcs[p] == old(s).pcs[p]
      ensures |calls| == 2 ==> Next(c, calls[0], calls[1], p) && calls[1].at.pcs[p] == Closed
    {
      ghost var u := Move(p, ms[0]);
      calls := [u];
      if !removed {
        ghost var w := Move(p, ms[1]);
        calls := [u, w];
      }
    }

    /** Run a body under the lock.  The body makes `depth` nested calls, one inside the other; a
        nested call finds the lock held and runs its body directly. */
    method WithBuildLock(p: nat, held: bool, depth: nat, attempts: seq<seq<Moment>>, body: seq<Schedule>,
        ms: seq<Moment>) returns (ran: nat, ghost tries: seq<seq<Own>>)
      requires Valid() && p < |s.pcs| && (if held then s.pcs[p].Holding? else s.pcs[p] == Idle)
      requires forall a :: a in attempts ==> |a| >= 4 && forall m :: m in a ==> ByOthers(m.others, p)
      requires |ms| >= 5 && forall m :: m in ms ==> ByOthers(m.others, p)
      requires |body| > depth && forall b :: b in body ==> ByOthers(b, p)
      modifies this
      ensures Valid() && |s.pcs| == |old(s).pcs| && (ran == 0 || ran == depth + 1)
      ensures held ==> ran == depth + 1 && s.pcs[p] == old(s).pcs[p] && CallsOf(p) == old(CallsOf(p))
      ensures !held ==> s.pcs[p] == Idle || s.pcs[p].Leaked?
      ensures !held ==> old(CallsOf(p)) + Flatten(tries) <= CallsOf(p) && Polled(c, p, tries, ran > 0)
      ensures !held && ran == 0 ==> |tries| == |attempts| && CallsOf(p) == old(CallsOf(p)) + Flatten(tries)
      ensures !held && attempts != [] && Undisturbed(attempts[0]) && OpenedIno(old(s)) !in old(s).owner ==> ran > 0
      decreases depth, !held
    {
      tries := [];
      if held {
        RunsAlone(p);
        assert body[depth] in body;
        OthersLeaveMeAlone(c, s, body[depth], p);
        RunConcat(c, start, sched, body[depth]);
        CallsConcat(c, start, sched, body[depth], p);
        OthersAreNotMine(c, s, body[depth], p);
        s, sched := Run(c, s, body[depth]), sched + body[depth];
        ran := 1;
        if depth > 0 {
          var inner, _ := WithBuildLock(p, true, depth - 1, attempts, body, ms);
          ran := ran + inner;
        }
      } else {
        var acquired;
        acquired, tries := AcquireBuildLock(p, attempts);
        if !acquired { return 0, tries; }
        ghost var none;
        ran, none := WithBuildLock(p, true, depth, attempts, body, ms);
        ghost var calls := Release(p, ms);
      }
    }

    /** While a process runs its body, no other process does. */
    lemma {:induction false} RunsAlone(p: nat)
      requires Valid() && p < |s.pcs| && s.pcs[p].Holding?
      ensures forall q :: 0 <= q < |s.pcs| && q != p ==> !Critical(s.pcs[q])
    {
      AtMostOneHolder(c, start, sched);
      forall q | 0 <= q < |s.pcs| && q != p ensures !Critical(s.pcs[q]) {
        assert if p < q then !(Critical(s.pcs[p]) && Critical(s.pcs[q]))
               else !(Critical(s.pcs[q]) && Critical(s.pcs[p]));
      }
    }
  }
}
