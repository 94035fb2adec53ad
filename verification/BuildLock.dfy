/** The build lock: any number of processes serialize on an advisory lock on a file that its holder
    deletes.  One step is one system call of one process; steps interleave arbitrarily, calls fail,
    and a process can die between any two of them, which closes its handle and drops its lock.
    The directory of the file exists, and nothing but this protocol touches the file.
 */
module BuildLock {
  import opened Basics

  /** When can the file be removed?  `Always`; never `WhileOpen` by any process; or removal may
      fail for any reason. */
  datatype Removal = Always | NotWhileOpen | Flaky

  /** `recheck` is false in a protocol that does not compare inodes after locking. */
  datatype Config = Config(removal: Removal, recheck: bool)

  datatype Pc =
    | Idle                                    // not started, finished or dead
    | Opened(ino: nat)
    | Locked(ino: nat)                        // locked, inode not compared yet
    | Failed(ino: nat)                        // not acquired, handle still to be closed
    | Holding(ino: nat)                       // runs its body
    | Releasing(ino: nat)
    | Unlocking(ino: nat, removed: bool)
    | Unlocked(ino: nat, removed: bool)
    | Closed                                  // the first removal failed
    | Leaked(ino: nat)                        // unlocking failed; the lock stays until the process ends

  /** `path` is the inode the path names; `owner` maps each locked inode to the process. */
  datatype State = State(path: Option<nat>, nextIno: nat, owner: map<nat, nat>, pcs: seq<Pc>)

  function HandleOf(pc: Pc): Option<nat> {
    match pc
    case Idle => None
    case Closed => None
    case _ => Some(pc.ino)
  }

  function LockOf(pc: Pc): Option<nat> {
    match pc
    case Locked(i) => Some(i)
    case Holding(i) => Some(i)
    case Releasing(i) => Some(i)
    case Unlocking(i, _) => Some(i)
    case Leaked(i) => Some(i)
    case _ => None
  }

  predicate Critical(pc: Pc) { pc.Holding? || pc.Releasing? }

  predicate IsOpen(s: State, ino: nat) {
    exists q :: 0 <= q < |s.pcs| && HandleOf(s.pcs[q]) == Some(ino)
  }

  // ---------------------------------------------------------------- steps

  /** `Go` is the next call; `Err` is the next call failing where it can; `Crash` ends the process. */
  datatype Act = Go | Err | Crash

  function At(s: State, p: nat, pc: Pc): State
    requires p < |s.pcs|
  {
    s.(pcs := s.pcs[p := pc])
  }

  /** Open the file, creating it when the path names nothing. */
  function Open(s: State, p: nat): State
    requires p < |s.pcs|
  {
    if s.path.Some? then At(s, p, Opened(s.path.value))
    else At(s.(path := Some(s.nextIno), nextIno := s.nextIno + 1), p, Opened(s.nextIno))
  }

  function Unlock(s: State, ino: nat): State { s.(owner := s.owner - {ino}) }

  predicate CanRemove(c: Config, s: State) {
    s.path.Some? && (c.removal.NotWhileOpen? ==> !IsOpen(s, s.path.value))
  }

  function Step(c: Config, s: State, p: nat, act: Act): (s': State)
    ensures |s'.pcs| == |s.pcs|
  {
    if p >= |s.pcs| then s
    else if act.Crash? then
      var lock := LockOf(s.pcs[p]);
      At(if lock.Some? then Unlock(s, lock.value) else s, p, Idle)
    else match s.pcs[p]
      case Idle => if act.Go? then Open(s, p) else s
      case Opened(i) => if act.Go? && i !in s.owner then At(s.(owner := s.owner[i := p]), p, Locked(i))
        else At(s, p, Failed(i))
      case Locked(i) =>
        if act.Go? && (!c.recheck || s.path == Some(i)) then At(s, p, Holding(i)) else At(Unlock(s, i), p, Failed(i))
      case Failed(_) => At(s, p, Idle)
      case Holding(i) => At(s, p, Releasing(i))
      case Releasing(i) =>
        if CanRemove(c, s) && !(act.Err? && c.removal.Flaky?) then At(s.(path := None), p, Unlocking(i, true))
        else At(s, p, Unlocking(i, false))
      case Unlocking(i, r) => if act.Go? then At(Unlock(s, i), p, Unlocked(i, r)) else At(s, p, Leaked(i))
      case Unlocked(_, r) => At(s, p, if r then Idle else Closed)
      case Closed =>
        At(if CanRemove(c, s) && !(act.Err? && c.removal.Flaky?) then s.(path := None) else s, p, Idle)
      case Leaked(_) => s
  }

  type Schedule = seq<(nat, Act)>

  function Run(c: Config, s: State, sched: Schedule): (s': State)
    ensures |s'.pcs| == |s.pcs|
    decreases |sched|
  {
    if sched == [] then s else Run(c, Step(c, s, sched[0].0, sched[0].1), sched[1..])
  }

  /** Nobody is running; a file left by an earlier invocation may exist. */
  predicate Initial(s: State) {
    && (forall p :: 0 <= p < |s.pcs| ==> s.pcs[p] == Idle)
    && s.owner == map[] && (s.path.Some? ==> s.path.value < s.nextIno)
  }

  predicate MutualExclusion(s: State) {
    forall p, q :: 0 <= p < q < |s.pcs| ==> !(Critical(s.pcs[p]) && Critical(s.pcs[q]))
  }

  // ---------------------------------------------------------------- invariant

  /** A process that runs its body, or has not yet removed the file, locks the file the path names. */
  ghost predicate PcOk(c: Config, s: State, p: nat)
    requires p < |s.pcs|
  {
    var pc := s.pcs[p];
    && (HandleOf(pc).Some? ==> HandleOf(pc).value < s.nextIno)
    && (LockOf(pc).Some? ==> LockOf(pc).value in s.owner && s.owner[LockOf(pc).value] == p)
    && (Critical(pc) ==> s.path == Some(pc.ino))
    && (c.removal.Always? ==> !pc.Closed? && (pc.Unlocking? || pc.Unlocked? ==> pc.removed))
  }

  ghost predicate OwnerOk(s: State, i: nat)
    requires i in s.owner
  {
    i < s.nextIno && s.owner[i] < |s.pcs| && LockOf(s.pcs[s.owner[i]]) == Some(i)
  }

  ghost predicate Inv(c: Config, s: State) {
    && (s.path.Some? ==> s.path.value < s.nextIno)
    && (forall p :: 0 <= p < |s.pcs| ==> PcOk(c, s, p))
    && (forall i :: i in s.owner ==> OwnerOk(s, i))
  }

  ghost predicate Sane(c: Config) { !c.removal.Flaky? && c.recheck }

  lemma {:induction false} InvMeansExclusion(c: Config, s: State)
    requires Inv(c, s)
    ensures MutualExclusion(s)
  {
    forall p, q | 0 <= p < q < |s.pcs| ensures !(Critical(s.pcs[p]) && Critical(s.pcs[q])) {
      assert PcOk(c, s, p) && PcOk(c, s, q);
    }
  }

  /** A file that someone holds is removed by nobody else. */
  lemma {:induction false} HolderKeepsPath(c: Config, s: State, p: nat, q: nat, act: Act)
    requires Sane(c) && Inv(c, s) && p < |s.pcs| && q < |s.pcs| && p != q && Critical(s.pcs[q])
    ensures Step(c, s, p, act).path == s.path
  {
    assert PcOk(c, s, p) && PcOk(c, s, q);
    assert IsOpen(s, s.pcs[q].ino);
  }

  lemma {:induction false} OthersStayOk(c: Config, s: State, p: nat, q: nat, act: Act)
    requires Sane(c) && Inv(c, s) && p < |s.pcs| && q < |s.pcs| && p != q
    ensures PcOk(c, Step(c, s, p, act), q)
  {
    assert PcOk(c, s, p) && PcOk(c, s, q);
    if Critical(s.pcs[q]) { HolderKeepsPath(c, s, p, q, act); }
  }

  lemma {:induction false} MoverStaysOk(c: Config, s: State, p: nat, act: Act)
    requires Sane(c) && Inv(c, s) && p < |s.pcs|
    ensures PcOk(c, Step(c, s, p, act), p)
  {
    assert PcOk(c, s, p);
  }

  lemma {:induction false} OwnersStayOk(c: Config, s: State, p: nat, act: Act, i: nat)
    requires Sane(c) && Inv(c, s) && p < |s.pcs| && i in Step(c, s, p, act).owner
    ensures OwnerOk(Step(c, s, p, act), i)
  {
    assert PcOk(c, s, p);
    if i in s.owner { assert OwnerOk(s, i); }
  }

  lemma {:induction false} StepKeepsInv(c: Config, s: State, p: nat, act: Act)
    requires Sane(c) && Inv(c, s)
    ensures Inv(c, Step(c, s, p, act))
  {
    if p < |s.pcs| {
      var s' := Step(c, s, p, act);
      forall q | 0 <= q < |s'.pcs| ensures PcOk(c, s', q) {
        if q == p { MoverStaysOk(c, s, p, act); } else { OthersStayOk(c, s, p, q, act); }
      }
      forall i | i in s'.owner ensures OwnerOk(s', i) { OwnersStayOk(c, s, p, act, i); }
    }
  }

  lemma {:induction false} RunKeepsInv(c: Config, s: State, sched: Schedule)
    requires Sane(c) && Inv(c, s)
    ensures Inv(c, Run(c, s, sched))
    decreases |sched|
  {
    if sched != [] {
      StepKeepsInv(c, s, sched[0].0, sched[0].1);
      RunKeepsInv(c, Step(c, s, sched[0].0, sched[0].1), sched[1..]);
    }
  }

  /** `n` times `Go` by process p. */
  function Times(p: nat, n: nat): Schedule
    decreases n
  {
    if n == 0 then [] else [(p, Go)] + Times(p, n - 1)
  }

  function Solo(c: Config, s: State, p: nat, n: nat): State
    decreases n
  {
    if n == 0 then s else Solo(c, Step(c, s, p, Go), p, n - 1)
  }

  lemma {:induction false} SoloIsRun(c: Config, s: State, p: nat, n: nat)
    ensures Run(c, s, Times(p, n)) == Solo(c, s, p, n)
    decreases n
  {
    if n > 0 {
      assert Times(p, n)[1..] == Times(p, n - 1);
      SoloIsRun(c, Step(c, s, p, Go), p, n - 1);
    }
  }

  // ---------------------------------------------------------------- main results

  /** However many processes interleave, fail and die: at most one is inside at any time. */
  lemma {:induction false} AtMostOneHolder(c: Config, s: State, sched: Schedule)
    requires Sane(c) && Initial(s)
    ensures MutualExclusion(Run(c, s, sched))
  {
    RunKeepsInv(c, s, sched);
    InvMeansExclusion(c, Run(c, s, sched));
  }

  /** Nobody has a file locked, in particular when everybody is idle or dead. */
  ghost predicate NobodyLocks(s: State) {
    forall q :: 0 <= q < |s.pcs| ==> LockOf(s.pcs[q]).None?
  }

  /** The lock never gets lost: in any reachable state in which nobody has it, an idle process
      that is left alone acquires it in one attempt. */
  lemma {:induction false} AttemptSucceeds(c: Config, s0: State, sched: Schedule, p: nat)
    requires Sane(c) && Initial(s0) && p < |s0.pcs|
    requires NobodyLocks(Run(c, s0, sched)) && Run(c, s0, sched).pcs[p] == Idle
    ensures Run(c, s0, sched + Times(p, 3)).pcs[p].Holding?
  {
    RunKeepsInv(c, s0, sched);
    var s := Run(c, s0, sched);
    RunConcat(c, s0, sched, Times(p, 3));
    SoloAttempt(c, s, p);
    FreeWhenNobodyLocks(c, s);
  }

  function OpenedIno(s: State): nat {
    if s.path.Some? then s.path.value else s.nextIno
  }

  /** An attempt without interference succeeds unless the file the path names is locked; then the
      process is left with a handle to close. */
  lemma {:induction false} SoloAttempt(c: Config, s: State, p: nat)
    requires Sane(c) && Inv(c, s) && p < |s.pcs| && s.pcs[p] == Idle
    ensures var s3 := Run(c, s, Times(p, 3));
            && |s3.pcs| == |s.pcs|
            && (OpenedIno(s) !in s.owner ==>
              s3.pcs[p] == Holding(OpenedIno(s)) && s3.owner == s.owner[OpenedIno(s) := p])
            && (OpenedIno(s) in s.owner ==> s3.pcs[p] == Idle && s3.owner == s.owner)
  {
    var s1 := Step(c, s, p, Go);
    var s2 := Step(c, s1, p, Go);
    var s3 := Step(c, s2, p, Go);
    assert s1.pcs[p] == Opened(OpenedIno(s)) && s1.path == Some(OpenedIno(s));
    assert Solo(c, s, p, 3) == s3;
    SoloIsRun(c, s, p, 3);
  }

  lemma {:induction false} FreeWhenNobodyLocks(c: Config, s: State)
    requires Inv(c, s)
    ensures NobodyLocks(s) ==> s.owner.Keys == {}
  {
    forall i | i in s.owner ensures !NobodyLocks(s) {
      assert OwnerOk(s, i);
      assert LockOf(s.pcs[s.owner[i]]).Some?;
    }
  }

  lemma {:induction false} RunConcat(c: Config, s: State, a: Schedule, b: Schedule)
    ensures Run(c, s, a + b) == Run(c, Run(c, s, a), b)
    decreases |a|
  {
    if a == [] {
      assert a + b == b;
    } else {
      assert (a + b)[1..] == a[1..] + b;
      RunConcat(c, Step(c, s, a[0].0, a[0].1), a[1..], b);
    }
  }

  // ---------------------------------------------------------------- why each measure is needed

  const START := State(None, 0, map[], [Idle, Idle, Idle])

  /** Without the comparison of inodes, a process that opened the file before its removal and locked
      it afterwards would run beside one that created the file anew. */
  lemma {:induction false} RecheckIsNeeded()
    ensures exists sched :: !MutualExclusion(Run(Config(Always, false), START, sched))
  {
    var c := Config(Always, false);
    var s1 := Solo(c, START, 0, 3);
    assert s1 == State(Some(0), 1, map[0 := 0], [Holding(0), Idle, Idle]);
    var s2 := Step(c, s1, 1, Go);
    assert s2 == State(Some(0), 1, map[0 := 0], [Holding(0), Opened(0), Idle]);
    var s3 := Solo(c, s2, 0, 4);
    assert s3 == State(None, 1, map[], [Idle, Opened(0), Idle]);
    var s4 := Solo(c, s3, 1, 2);
    assert s4 == State(None, 1, map[0 := 1], [Idle, Holding(0), Idle]);
    var s5 := Solo(c, s4, 2, 3);
    assert s5 == State(Some(1), 2, map[0 := 1, 1 := 2], [Idle, Holding(0), Holding(1)]);
    var t := Times(0, 3) + Times(1, 1) + Times(0, 4) + Times(1, 2) + Times(2, 3);
    FiveRuns(c, START, Times(0, 3), Times(1, 1), Times(0, 4), Times(1, 2), Times(2, 3));
    SoloIsRun(c, START, 0, 3);
    SoloIsRun(c, s1, 1, 1);
    SoloIsRun(c, s2, 0, 4);
    SoloIsRun(c, s3, 1, 2);
    SoloIsRun(c, s4, 2, 3);
    assert Critical(s5.pcs[1]) && Critical(s5.pcs[2]);
    assert !MutualExclusion(Run(c, START, t));
  }

  lemma {:induction false} FiveRuns(c: Config, s: State, a: Schedule, b: Schedule, d: Schedule, e: Schedule,
      f: Schedule)
    ensures Run(c, s, a + b + d + e + f) == Run(c, Run(c, Run(c, Run(c, Run(c, s, a), b), d), e), f)
  {
    RunConcat(c, s, a + b + d + e, f);
    RunConcat(c, s, a + b + d, e);
    RunConcat(c, s, a + b, d);
    RunConcat(c, s, a, b);
  }

  const FLAKY := Config(Flaky, true)
  const LEFT_BEHIND := State(Some(0), 1, map[], [Closed, Idle, Idle])

  lemma {:induction false} FlakyLeaves()
    ensures Run(FLAKY, START, Times(0, 4) + [(0, Err)] + Times(0, 2)) == LEFT_BEHIND
  {
    var c, err: Schedule := FLAKY, [(0, Err)];
    var s1 := Solo(c, START, 0, 4);
    assert s1 == State(Some(0), 1, map[0 := 0], [Releasing(0), Idle, Idle]);
    var s2 := Step(c, s1, 0, Err);
    assert s2 == State(Some(0), 1, map[0 := 0], [Unlocking(0, false), Idle, Idle]);
    assert Solo(c, s2, 0, 2) == LEFT_BEHIND;
    RunConcat(c, START, Times(0, 4) + err, Times(0, 2));
    RunConcat(c, START, Times(0, 4), err);
    SoloIsRun(c, START, 0, 4);
    assert err[1..] == [];
    SoloIsRun(c, s2, 0, 2);
  }

  lemma {:induction false} FlakySteals()
    ensures Run(FLAKY, LEFT_BEHIND, Times(1, 3) + Times(0, 1) + Times(2, 3))
         == State(Some(1), 2, map[0 := 1, 1 := 2], [Idle, Holding(0), Holding(1)])
  {
    var c := FLAKY;
    var s4 := Solo(c, LEFT_BEHIND, 1, 3);
    assert s4 == State(Some(0), 1, map[0 := 1], [Closed, Holding(0), Idle]);
    var s5 := Solo(c, s4, 0, 1);
    assert s5 == State(None, 1, map[0 := 1], [Idle, Holding(0), Idle]);
    assert Solo(c, s5, 2, 3) == State(Some(1), 2, map[0 := 1, 1 := 2], [Idle, Holding(0), Holding(1)]);
    RunConcat(c, LEFT_BEHIND, Times(1, 3) + Times(0, 1), Times(2, 3));
    RunConcat(c, LEFT_BEHIND, Times(1, 3), Times(0, 1));
    SoloIsRun(c, LEFT_BEHIND, 1, 3);
    SoloIsRun(c, s4, 0, 1);
    SoloIsRun(c, s5, 2, 3);
  }

  /** If removing the file while holding the lock could fail although nothing prevents removing it
      later, the second removal would take away a file somebody else has locked by then. */
  lemma {:induction false} FlakyRemovalBreaks()
    ensures exists sched :: !MutualExclusion(Run(FLAKY, START, sched))
  {
    var a, b := Times(0, 4) + [(0, Err)] + Times(0, 2), Times(1, 3) + Times(0, 1) + Times(2, 3);
    FlakyLeaves();
    FlakySteals();
    RunConcat(FLAKY, START, a, b);
    var s := Run(FLAKY, START, a + b);
    assert Critical(s.pcs[1]) && Critical(s.pcs[2]);
  }
}
