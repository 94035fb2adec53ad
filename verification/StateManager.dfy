/** The manager that lets a build put back every file it changed, even when it is killed. */
module StateManager {
  import opened Basics
  import opened Storage

  type Tracked = map<string, bool>

  // ---------------------------------------------------------------- the manifest

  /** An entry is a path, with a dash in front when the file did not exist. */
  function Entry(path: string, existed: bool): string {
    if existed then path else "-" + path
  }

  function Decode(entries: seq<string>): Tracked {
    if entries == [] then map[]
    else
      var rest, e := Decode(entries[..|entries| - 1]), entries[|entries| - 1];
      if e != [] && e[0] == '-' then rest[e[1..] := false] else rest[e := true]
  }

  /** All that the manifest asks of an absolute path, on any system: it does not begin with a dash. */
  predicate Absolute(path: string) { path != [] && path[0] != '-' }

  lemma {:induction false} DecodePush(entries: seq<string>, path: string, existed: bool)
    requires Absolute(path)
    ensures Decode(entries + [Entry(path, existed)]) == Decode(entries)[path := existed]
  {
    assert (entries + [Entry(path, existed)])[..|entries|] == entries;
    assert !existed ==> Entry(path, existed)[1..] == path;
  }

  /** What the manifest on disk says; nothing when there is none. */
  function Persisted(files: Files): Tracked {
    if Manifest in files then Decode(files[Manifest].data) else map[]
  }

  // ---------------------------------------------------------------- recoverability

  type Orig = map<string, Option<File>>

  /** Reverting this entry gives the file back: a correct snapshot exists, or the file is as it was. */
  ghost predicate EntryOk(files: Files, orig: Orig, p: string, existed: bool) {
    && Absolute(p) && p in orig && existed == orig[p].Some?
    && (existed ==> if Snap(p) in files then files[Snap(p)] == orig[p].value else Content(files, p) == orig[p])
  }

  /** The manifest covers p, or p is as it was. */
  ghost predicate CoveredOr(files: Files, orig: Orig, p: string)
    requires p in orig
  {
    p in Persisted(files) || Content(files, p) == orig[p]
  }

  /** Loading the manifest and reverting gives back every tracked file. */
  ghost predicate Recoverable(files: Files, orig: Orig) {
    && (forall p :: p in Persisted(files) ==> EntryOk(files, orig, p, Persisted(files)[p]))
    && (forall p :: p in orig ==> CoveredOr(files, orig, p))
  }

  ghost predicate RecoverableFrom(c: seq<Crash>, from: nat) {
    forall i :: from <= i < |c| ==> Recoverable(c[i].files, c[i].orig)
  }

  lemma {:induction false} RecoverableFromParts(c: seq<Crash>, from: nat, middle: nat)
    requires from <= middle <= |c|
    ensures RecoverableFrom(c, from) <==> RecoverableFrom(c[..middle], from) && RecoverableFrom(c, middle)
  {
    forall i | middle <= i < |c| && RecoverableFrom(c, from) ensures Recoverable(c[i].files, c[i].orig) { }
  }

  /** A tracked file with content that the manifest does not name: copying it back cuts it short
      while nothing on disk says that it was tracked. */
  predicate AtRisk(files: Files, tracked: Tracked, p: string) {
    p in tracked && tracked[p] && p !in Persisted(files) && Snap(p) in files && files[Snap(p)].data != []
  }

  /** No snapshot that a revert needs is missing. */
  predicate HasSnapshots(files: Files, tracked: Tracked) {
    forall p :: p in tracked && tracked[p] ==> Snap(p) in files
  }

  /** Manifest and snapshots are as they were. */
  ghost predicate StateKept(a: Files, b: Files) {
    forall q: Path :: q.Manifest? || q.Snap? ==> SameAt(a, b, q)
  }

  /** Neither manifest nor snapshots are left. */
  ghost predicate StateGone(files: Files) {
    Manifest !in files && forall p :: Snap(p) !in files
  }

  /** The user's files other than the tracked ones are as they were. */
  ghost predicate OthersKept(a: Files, b: Files, tracked: Tracked) {
    forall p :: p !in tracked ==> SameAt(a, b, User(p))
  }

  predicate Safe(files: Files, tracked: Tracked) {
    forall p :: p in tracked ==> !AtRisk(files, tracked, p)
  }

  /** Every tracked file is as it was when first tracked. */
  ghost predicate Restored(files: Files, orig: Orig) {
    forall p :: p in orig ==> Content(files, p) == orig[p]
  }

  // ---------------------------------------------------------------- what does not disturb recovery

  /** Copying to the snapshot of a path that the manifest does not name. */
  lemma {:induction false} SnapshotIsHarmless(a: Files, b: Files, orig: Orig, p: string)
    requires Recoverable(a, orig) && p !in Persisted(a) && SameExcept(b, a, {Snap(p)})
    ensures Recoverable(b, orig) && Persisted(b) == Persisted(a)
  {
    assert SameAt(b, a, Manifest);
    forall q | q in Persisted(b) ensures EntryOk(b, orig, q, Persisted(b)[q]) {
      assert EntryOk(a, orig, q, Persisted(a)[q]) && SameAt(b, a, Snap(q)) && SameAt(b, a, User(q));
    }
    forall q | q in orig ensures CoveredOr(b, orig, q) { assert CoveredOr(a, orig, q) && SameAt(b, a, User(q)); }
  }

  /** Writing to a file that the manifest names and whose snapshot, if it needs one, is there. */
  lemma {:induction false} CoveredWriteIsHarmless(a: Files, b: Files, orig: Orig, p: string)
    requires Recoverable(a, orig) && p in Persisted(a) && (Persisted(a)[p] ==> Snap(p) in a)
             && SameExcept(b, a, {User(p)})
    ensures Recoverable(b, orig) && Persisted(b) == Persisted(a)
  {
    assert SameAt(b, a, Manifest);
    forall q | q in Persisted(b) ensures EntryOk(b, orig, q, Persisted(b)[q]) {
      assert EntryOk(a, orig, q, Persisted(a)[q]) && SameAt(b, a, Snap(q));
      if q != p { assert SameAt(b, a, User(q)); }
    }
    forall q | q in orig ensures CoveredOr(b, orig, q) {
      assert CoveredOr(a, orig, q);
      if q != p { assert SameAt(b, a, User(q)); }
    }
  }

  /** Writing anything while nothing of the state or of the tracked files changes. */
  lemma {:induction false} UnrelatedIsHarmless(a: Files, b: Files, orig: Orig)
    requires Recoverable(a, orig) && forall q: Path :: !q.Temp? ==> SameAt(b, a, q)
    ensures Recoverable(b, orig) && Persisted(b) == Persisted(a)
  {
    assert SameAt(b, a, Manifest);
    forall q | q in Persisted(b) ensures EntryOk(b, orig, q, Persisted(b)[q]) {
      assert EntryOk(a, orig, q, Persisted(a)[q]) && SameAt(b, a, Snap(q)) && SameAt(b, a, User(q));
    }
    forall q | q in orig ensures CoveredOr(b, orig, q) { assert CoveredOr(a, orig, q) && SameAt(b, a, User(q)); }
  }

  /** Removing state while every tracked file is as it was. */
  lemma {:induction false} RemovalIsHarmless(a: Files, b: Files, orig: Orig)
    requires Recoverable(a, orig) && Restored(a, orig) && (forall p :: SameAt(b, a, User(p)))
    requires forall q :: q in b ==> q in a && b[q] == a[q]
    ensures Recoverable(b, orig) && Restored(b, orig)
  {
    forall p | p in orig ensures Content(b, p) == orig[p] { assert SameAt(b, a, User(p)) && Content(a, p) == orig[p]; }
    forall p | p in Persisted(b) ensures EntryOk(b, orig, p, Persisted(b)[p]) {
      assert EntryOk(a, orig, p, Persisted(a)[p]);
      assert Content(b, p) == orig[p];
    }
  }

  /** A manifest that names everything the old one did, and only what can be reverted. */
  lemma {:induction false} ManifestWritten(a: Files, b: Files, orig: Orig, files: Tracked)
    requires Recoverable(a, orig) && (forall q: Path :: q != Manifest && !q.Temp? ==> SameAt(b, a, q))
    requires Manifest in b && Decode(b[Manifest].data) == files
    requires (forall p :: p in files ==> EntryOk(a, orig, p, files[p]))
             && (forall p :: p in Persisted(a) ==> p in files)
    ensures Recoverable(b, orig) && Persisted(b) == files
  {
    forall q | q in files ensures EntryOk(b, orig, q, files[q]) {
      assert EntryOk(a, orig, q, files[q]) && SameAt(b, a, Snap(q)) && SameAt(b, a, User(q));
    }
    forall q | q in orig ensures CoveredOr(b, orig, q) { assert CoveredOr(a, orig, q) && SameAt(b, a, User(q)); }
  }

  lemma {:induction false} AtomicallyWritten(a: Files, c: Crash, orig: Orig, files: Tracked, entries: seq<string>)
    requires Recoverable(a, orig) && Wrote(a, c, orig, Manifest, entries) && Decode(entries) == files
    requires (forall p :: p in files ==> EntryOk(a, orig, p, files[p]))
             && (forall p :: p in Persisted(a) ==> p in files)
    ensures Recoverable(c.files, orig)
  {
    if Manifest in c.files && c.files[Manifest].data == entries {
      ManifestWritten(a, c.files, orig, files);
    } else {
      UnrelatedIsHarmless(a, c.files, orig);
    }
  }

  /** A file without content loses nothing while it is copied back. */
  lemma {:induction false} EmptyCopyIsHarmless(a: Files, b: Files, orig: Orig, p: string)
    requires Recoverable(a, orig) && EntryOk(a, orig, p, true) && p !in Persisted(a) && Snap(p) in a
             && a[Snap(p)].data == []
    requires SameExcept(b, a, {User(p)}) && Cut(b, a, Snap(p), User(p))
    ensures Recoverable(b, orig)
  {
    assert CoveredOr(a, orig, p);
    assert b[User(p)] == a[User(p)];
    forall q: Path ensures SameAt(b, a, q) { }
    UnrelatedIsHarmless(a, b, orig);
  }

  /** The moment at which a file at risk is cut short. */
  lemma {:induction false} CutIsNotRecoverable(a: Files, c: Crash, orig: Orig, tracked: Tracked, p: string)
    requires AtRisk(a, tracked, p) && EntryOk(a, orig, p, true) && SameExcept(c.files, a, {User(p)}) && c.orig == orig
    requires User(p) in c.files && c.files[User(p)].data == []
    ensures !Recoverable(c.files, c.orig)
  {
    assert SameAt(c.files, a, Manifest);
    assert !CoveredOr(c.files, orig, p);
  }

  // ---------------------------------------------------------------- the manager

  class Manager {
    const disk: Disk
    var files: Tracked

    constructor (disk: Disk)
      ensures this.disk == disk && files == map[]
    {
      this.disk, files := disk, map[];
    }

    /** The manager knows how to revert what it tracks, and everything the manifest names. */
    ghost predicate Linked()
      reads this, disk
    {
      && Recoverable(disk.files, disk.orig)
      && (forall p :: p in files ==> EntryOk(disk.files, disk.orig, p, files[p]))
      && (forall p :: p in Persisted(disk.files) ==> p in files)
    }

    /** No snapshot is missing. */
    ghost predicate Complete()
      reads this, disk
    {
      forall p :: p in files && files[p] ==> Snap(p) in disk.files
    }

    /** Everything tracked is in the manifest. */
    ghost predicate Synced()
      reads this, disk
    {
      forall p :: p in files ==> p in Persisted(disk.files)
    }

    /** Write the manifest. */
    method Commit() returns (ok: bool)
      requires Linked() && Complete()
      modifies disk`files, disk`crashes, disk`faults, disk`plan
      ensures Linked() && Complete() && RecoverableFrom(disk.crashes, |old(disk.crashes)|)
              && old(disk.crashes) <= disk.crashes
      ensures if ok then Synced() else Persisted(disk.files) == old(Persisted(disk.files))
      ensures disk.faults >= old(disk.faults) && (disk.faults == old(disk.faults) ==> ok)
      ensures forall p :: Content(disk.files, p) == old(Content(disk.files, p))
      ensures files != map[] && FailsAfter(old(disk.plan), 0) ==>
                !ok && disk.files == old(disk.files) && disk.plan == old(disk.plan)[1..]
    {
      if files == map[] { return true; }
      var entries := Entries();
      var bad := disk.Fails();
      if bad { return false; }
      ghost var f0, n := disk.files, |disk.crashes|;
      ok := disk.WriteFileAtomic(Manifest, entries);
      forall i | n <= i < |disk.crashes| ensures Recoverable(disk.crashes[i].files, disk.crashes[i].orig) {
        AtomicallyWritten(f0, disk.crashes[i], disk.orig, files, entries);
      }
      StillLinked(f0, ok);
    }

    /** After an attempt to write the manifest. */
    lemma {:induction false} StillLinked(f0: Files, ok: bool)
      requires Recoverable(f0, disk.orig) && (forall p :: p in files ==> EntryOk(f0, disk.orig, p, files[p]))
      requires (forall p :: p in Persisted(f0) ==> p in files) && (forall p :: p in files && files[p] ==> Snap(p) in f0)
      requires forall q: Path :: q != Manifest && !q.Temp? ==> SameAt(disk.files, f0, q)
      requires if ok then Manifest in disk.files && Decode(disk.files[Manifest].data) == files
               else SameAt(disk.files, f0, Manifest)
      ensures Linked() && Complete() && (ok ==> Synced()) && forall p :: Content(disk.files, p) == Content(f0, p)
    {
      if ok {
        ManifestWritten(f0, disk.files, disk.orig, files);
      } else {
        UnrelatedIsHarmless(f0, disk.files, disk.orig);
      }
      forall p | p in files
        ensures EntryOk(disk.files, disk.orig, p, files[p]) && (files[p] ==> Snap(p) in disk.files) {
        assert EntryOk(f0, disk.orig, p, files[p]) && SameAt(disk.files, f0, Snap(p))
               && SameAt(disk.files, f0, User(p));
      }
      forall p ensures Content(disk.files, p) == Content(f0, p) { assert SameAt(disk.files, f0, User(p)); }
    }

    method Entries() returns (entries: seq<string>)
      requires forall p :: p in files ==> Absolute(p)
      ensures Decode(entries) == files
    {
      entries := [];
      var todo := files.Keys;
      while todo != {}
        invariant todo <= files.Keys && Decode(entries) == files - todo
      {
        var p :| p in todo;
        DecodePush(entries, p, files[p]);
        entries := entries + [Entry(p, files[p])];
        todo := todo - {p};
      }
      assert files - {} == files;
    }

    /** Remember how `path` is now, the first time it is tracked. */
    ghost method Remember(path: string)
      requires Linked() && Complete() && Absolute(path) && path !in files
      modifies disk`orig
      ensures Linked() && Complete() && path in disk.orig && Content(disk.files, path) == disk.orig[path]
      ensures disk.orig == old(disk.orig)[path := Content(disk.files, path)]
    {
      assert path in disk.orig ==> CoveredOr(disk.files, disk.orig, path);
      ghost var orig0 := disk.orig;
      disk.orig := disk.orig[path := Content(disk.files, path)];
      forall p | p in files ensures EntryOk(disk.files, disk.orig, p, files[p]) {
        assert EntryOk(disk.files, orig0, p, files[p]);
      }
      forall p | p in Persisted(disk.files) ensures EntryOk(disk.files, disk.orig, p, Persisted(disk.files)[p]) {
        assert EntryOk(disk.files, orig0, p, Persisted(disk.files)[p]);
      }
      forall p | p in disk.orig ensures CoveredOr(disk.files, disk.orig, p) {
        if p != path { assert CoveredOr(disk.files, orig0, p); }
      }
    }

    /** Copy a path that is not tracked yet into its snapshot. */
    method Snapshot(path: string) returns (ok: bool)
      requires Linked() && Complete() && path !in files && User(path) in disk.files
      modifies disk`files, disk`crashes, disk`faults, disk`plan
      ensures Linked() && Complete() && RecoverableFrom(disk.crashes, |old(disk.crashes)|)
              && old(disk.crashes) <= disk.crashes
      ensures ok ==> Snap(path) in disk.files && disk.files[Snap(path)] == old(disk.files[User(path)])
      ensures Persisted(disk.files) == old(Persisted(disk.files))
      ensures forall p :: Content(disk.files, p) == old(Content(disk.files, p))
      ensures disk.faults >= old(disk.faults) && (disk.faults == old(disk.faults) ==> ok)
      ensures Calm(old(disk.plan), |old(disk.files[User(path)]).data| + 3) ==>
                ok && disk.plan == old(disk.plan)[|old(disk.files[User(path)]).data| + 3..]
    {
      ghost var f0, n := disk.files, |disk.crashes|;
      ok := disk.CopyFile(User(path), Snap(path));
      forall i | n <= i < |disk.crashes| ensures Recoverable(disk.crashes[i].files, disk.crashes[i].orig) {
        SnapshotIsHarmless(f0, disk.crashes[i].files, disk.orig, path);
      }
      SnapshotIsHarmless(f0, disk.files, disk.orig, path);
      forall p | p in files
        ensures EntryOk(disk.files, disk.orig, p, files[p]) && (files[p] ==> Snap(p) in disk.files) {
        assert EntryOk(f0, disk.orig, p, files[p]) && SameAt(disk.files, f0, Snap(p))
               && SameAt(disk.files, f0, User(p));
      }
      forall p ensures Content(disk.files, p) == Content(f0, p) { assert SameAt(disk.files, f0, User(p)); }
    }

    /** The plan lets the snapshot of a new path with content succeed and the manifest fail. */
    ghost predicate CommitFails(f: Files, tracked: Tracked, plan: seq<bool>, path: string) {
      path !in tracked && User(path) in f && f[User(path)].data != [] && FailsAfter(plan, |f[User(path)].data| + 3)
    }

    /** Record the current state of a path, cleaned and made absolute by the caller.  A path that is
        tracked already is ignored, even if its entry never reached the manifest. */
    method Track(path: string) returns (ok: bool)
      requires Linked() && Complete() && Absolute(path)
      modifies this`files, disk
      ensures Linked() && Complete() && RecoverableFrom(disk.crashes, |old(disk.crashes)|)
              && old(disk.crashes) <= disk.crashes
      ensures path in old(files) ==>
                && ok && files == old(files)
                && disk.files == old(disk.files) && disk.orig == old(disk.orig) && disk.plan == old(disk.plan)
      ensures path !in old(files) ==>
                && disk.orig == old(disk.orig)[path := old(Content(disk.files, path))]
                && old(files.Keys) <= files.Keys <= old(files.Keys) + {path}
      ensures ok ==> path in files && (path !in old(files) || old(Synced()) ==> Synced())
      ensures forall p :: p in old(Persisted(disk.files)) ==> p in Persisted(disk.files)
      ensures CommitFails(old(disk.files), old(files), old(disk.plan), path) ==>
                !ok && disk.plan == old(disk.plan)[|old(disk.files[User(path)]).data| + 4..]
                  && AtRisk(disk.files, files, path)
      ensures disk.faults >= old(disk.faults) && (disk.faults == old(disk.faults) ==> ok)
      ensures forall p :: Content(disk.files, p) == old(Content(disk.files, p))
    {
      if path in files { return true; }
      Remember(path);
      if User(path) !in disk.files {
        files := files[path := false];
        ok := Commit();
        return;
      }
      ok := Snapshot(path);
      if !ok { return; }
      files := files[path := true];
      ok := Commit();
    }

    /** What is remembered of a path is what was, or for an untracked one its content then. */
    ghost predicate OrigKept(tracked0: Tracked, orig0: Orig, files0: Files)
      reads disk`orig
    {
      forall p :: p in disk.orig ==>
        if p in orig0 && disk.orig[p] == orig0[p] then true else p !in tracked0 && disk.orig[p] == Content(files0, p)
    }

    /** Track each of the paths, carrying on after failures.  A later success writes the entries that an
        earlier failure left behind. */
    method TrackAll(paths: seq<string>) returns (ok: bool)
      requires Linked() && Complete() && forall p :: p in paths ==> Absolute(p)
      modifies this`files, disk
      ensures Linked() && Complete() && RecoverableFrom(disk.crashes, |old(disk.crashes)|)
              && old(disk.crashes) <= disk.crashes
      ensures old(files.Keys) <= files.Keys && (ok ==> forall p :: p in paths ==> p in files)
      ensures OrigKept(old(files), old(disk.orig), old(disk.files))
      ensures ok && old(Synced()) ==> Synced()
      ensures old(Synced()) ==> forall p :: p in files && p !in paths ==> p in Persisted(disk.files)
      ensures disk.faults >= old(disk.faults) && (disk.faults == old(disk.faults) ==> ok)
      ensures forall p :: Content(disk.files, p) == old(Content(disk.files, p))
    {
      ok := true;
      for i := 0 to |paths|
        invariant Linked() && Complete() && RecoverableFrom(disk.crashes, |old(disk.crashes)|)
                  && old(disk.crashes) <= disk.crashes
        invariant old(files.Keys) <= files.Keys && (ok ==> forall p :: p in paths[..i] ==> p in files)
        invariant OrigKept(old(files), old(disk.orig), old(disk.files))
        invariant ok && old(Synced()) ==> Synced()
        invariant old(Synced()) ==> forall p :: p in files && p !in paths[..i] ==> p in Persisted(disk.files)
        invariant disk.faults >= old(disk.faults) && (disk.faults == old(disk.faults) ==> ok)
        invariant forall p :: Content(disk.files, p) == old(Content(disk.files, p))
      {
        assert paths[i] in paths && paths[..i + 1] == paths[..i] + [paths[i]];
        var one := Track(paths[i]);
        ok := ok && one;
      }
      assert paths[..|paths|] == paths;
    }

    /** The build changes or removes a file it has tracked. */
    method Modify(path: string, f: Option<File>)
      requires Linked() && Complete() && Synced() && path in files
      modifies disk`files, disk`crashes
      ensures Linked() && Complete() && Synced() && RecoverableFrom(disk.crashes, |old(disk.crashes)|)
              && old(disk.crashes) <= disk.crashes
      ensures forall p :: Content(disk.files, p) == if p == path then f else old(Content(disk.files, p))
    {
      ghost var f0 := disk.files;
      assert EntryOk(f0, disk.orig, path, files[path]) && EntryOk(f0, disk.orig, path, Persisted(f0)[path]);
      if f.Some? { disk.Put(User(path), f.value); } else { disk.Delete(User(path)); }
      CoveredWriteIsHarmless(f0, disk.files, disk.orig, path);
      forall p | p in files
        ensures EntryOk(disk.files, disk.orig, p, files[p]) && (files[p] ==> Snap(p) in disk.files) {
        assert EntryOk(f0, disk.orig, p, files[p]) && SameAt(disk.files, f0, Snap(p));
        if p != path { assert SameAt(disk.files, f0, User(p)); }
      }
    }

    // -------------------------------------------------------------- giving files back

    /** What a reverting manager relies on and keeps: it can still revert everything it tracks. */
    ghost predicate Reverting()
      reads this, disk
    {
      forall p :: p in files ==> EntryOk(disk.files, disk.orig, p, files[p])
    }

    /** Give one file back.  A crash in the middle is harmless exactly when the file is not at risk. */
    method RevertOne(path: string) returns (ok: bool)
      requires Reverting() && path in files
      modifies disk`files, disk`crashes, disk`faults, disk`plan
      ensures Reverting() && SameExcept(disk.files, old(disk.files), {User(path)}) && old(disk.crashes) <= disk.crashes
      ensures ok ==> Content(disk.files, path) == disk.orig[path]
      ensures disk.faults >= old(disk.faults)
              && (disk.faults == old(disk.faults) ==> Content(disk.files, path) == disk.orig[path])
      ensures disk.faults == old(disk.faults) ==> (ok <==> !files[path] || Snap(path) in old(disk.files))
      ensures old(disk.plan) == [] ==> disk.plan == [] && disk.faults == old(disk.faults)
      ensures old(Recoverable(disk.files, disk.orig)) && !AtRisk(old(disk.files), files, path) ==>
                Recoverable(disk.files, disk.orig) && RecoverableFrom(disk.crashes, |old(disk.crashes)|)
      ensures disk.faults == old(disk.faults) && AtRisk(old(disk.files), files, path) ==>
                !RecoverableFrom(disk.crashes, |old(disk.crashes)|)
    {
      ghost var f0, c0 := disk.files, disk.crashes;
      assert EntryOk(f0, disk.orig, path, files[path]);
      ok := true;
      if !files[path] {
        if User(path) in disk.files {
          var bad := disk.Fails();
          if bad { ok := false; } else { disk.Delete(User(path)); }
        }
      } else {
        ok := disk.CopyFile(Snap(path), User(path));
      }
      forall p | p in files ensures EntryOk(disk.files, disk.orig, p, files[p]) {
        assert EntryOk(f0, disk.orig, p, files[p]) && SameAt(disk.files, f0, Snap(p));
        if p != path { assert SameAt(disk.files, f0, User(p)); }
      }
      if AtRisk(f0, files, path) {
        if disk.faults == old(disk.faults) { CutIsNotRecoverable(f0, disk.crashes[|c0|], disk.orig, files, path); }
      } else if Recoverable(f0, disk.orig) {
        RevertedOne(f0, c0, path);
      }
    }

    /** What happened while a file was given back. */
    ghost predicate GaveBack(f0: Files, c0: seq<Crash>, path: string)
      reads this, disk
      requires path in files
    {
      if files[path] && Snap(path) in f0 then
        Copying(f0, c0, disk.files, disk.crashes, disk.orig, Snap(path), User(path))
      else if files[path] || User(path) !in f0 then
        disk.files == f0 && disk.crashes == c0
      else
        SameExcept(disk.files, f0, {User(path)}) && Extends(c0, disk.crashes, f0, disk.orig, {User(path)})
    }

    lemma {:induction false} RevertedOne(f0: Files, c0: seq<Crash>, path: string)
      requires Recoverable(f0, disk.orig) && path in files && EntryOk(f0, disk.orig, path, files[path])
      requires !AtRisk(f0, files, path) && GaveBack(f0, c0, path)
      ensures Recoverable(disk.files, disk.orig) && RecoverableFrom(disk.crashes, |c0|)
    {
      var c := disk.crashes;
      if disk.files == f0 && c == c0 {
      } else if path in Persisted(f0) {
        assert EntryOk(f0, disk.orig, path, Persisted(f0)[path]);
        CoveredWriteIsHarmless(f0, disk.files, disk.orig, path);
        forall i | |c0| <= i < |c| ensures Recoverable(c[i].files, c[i].orig) {
          CoveredWriteIsHarmless(f0, c[i].files, disk.orig, path);
        }
      } else {
        assert CoveredOr(f0, disk.orig, path) && files[path];
        if |c| > |c0| { EmptyCopyIsHarmless(f0, disk.files, disk.orig, path); }
        forall i | |c0| <= i < |c| ensures Recoverable(c[i].files, c[i].orig) {
          EmptyCopyIsHarmless(f0, c[i].files, disk.orig, path);
        }
      }
    }

    /** Every tracked path outside `todo` is as it was. */
    ghost predicate Back(todo: set<string>)
      reads this, disk
      requires Reverting()
    {
      forall p :: p in files && p !in todo ==>
        EntryOk(disk.files, disk.orig, p, files[p]) && Content(disk.files, p) == disk.orig[p]
    }

    /** One round of the loop over all tracked files. */
    method RevertNext(p: string, ghost todo: set<string>, ghost f0: Files, ghost n: nat) returns (ok: bool)
      requires Reverting() && p in todo && todo <= files.Keys && OnlyUsers(disk.files, f0, files.Keys)
      requires n <= |disk.crashes|
      modifies disk`files, disk`crashes, disk`faults, disk`plan
      ensures Reverting() && old(disk.crashes) <= disk.crashes && OnlyUsers(disk.files, f0, files.Keys)
      ensures disk.faults >= old(disk.faults)
      ensures old(disk.plan) == [] ==> disk.plan == [] && disk.faults == old(disk.faults)
      ensures disk.faults == old(disk.faults) ==> (ok <==> !files[p] || Snap(p) in f0)
      ensures old(Back(todo)) && (ok || disk.faults == old(disk.faults)) ==> Back(todo - {p})
      ensures old(Recoverable(disk.files, disk.orig) && RecoverableFrom(disk.crashes, n)) && !AtRisk(f0, files, p) ==>
                Recoverable(disk.files, disk.orig) && RecoverableFrom(disk.crashes, n)
      ensures disk.faults == old(disk.faults) && AtRisk(f0, files, p) ==> !RecoverableFrom(disk.crashes, n)
      ensures !old(RecoverableFrom(disk.crashes, n)) ==> !RecoverableFrom(disk.crashes, n)
    {
      ghost var f1, c1 := disk.files, disk.crashes;
      assert SameAt(f1, f0, Manifest) && SameAt(f1, f0, Snap(p));
      ok := RevertOne(p);
      OnlyUsersStep(f1, f0, p);
      forall q | q in files && q !in todo ensures SameAt(disk.files, f1, User(q)) { }
      assert disk.crashes[..|c1|] == c1;
      RecoverableFromParts(disk.crashes, n, |c1|);
    }

    /** Give every tracked file back, in any order, carrying on after failures.  It may be killed at
        any point exactly when no tracked file is at risk. */
    method Revert() returns (ok: bool)
      requires Linked()
      modifies disk`files, disk`crashes, disk`faults, disk`plan
      ensures Reverting() && old(disk.crashes) <= disk.crashes
      ensures ok ==> Linked() && Restored(disk.files, disk.orig)
      ensures StateKept(disk.files, old(disk.files)) && OthersKept(disk.files, old(disk.files), files)
      ensures disk.faults == old(disk.faults) ==> (ok <==> HasSnapshots(old(disk.files), files))
      ensures disk.faults >= old(disk.faults) && (disk.faults == old(disk.faults) ==> Restored(disk.files, disk.orig))
      ensures old(disk.plan) == [] ==> disk.plan == [] && disk.faults == old(disk.faults)
      ensures Safe(old(disk.files), files) ==> Linked() && RecoverableFrom(disk.crashes, |old(disk.crashes)|)
      ensures disk.faults == old(disk.faults) ==>
                (RecoverableFrom(disk.crashes, |old(disk.crashes)|) <==> Safe(old(disk.files), files))
    {
      ok := true;
      if files == map[] {
        return;
      }
      ghost var f0, n := disk.files, |disk.crashes|;
      var todo := files.Keys;
      while todo != {}
        invariant todo <= files.Keys && Reverting() && old(disk.crashes) <= disk.crashes
                  && disk.faults >= old(disk.faults)
        invariant OnlyUsers(disk.files, f0, files.Keys)
        invariant old(disk.plan) == [] ==> disk.plan == [] && disk.faults == old(disk.faults)
        invariant ok ==> Back(todo)
        invariant disk.faults == old(disk.faults) ==>
                    (ok <==> forall q :: q in files && files[q] && q !in todo ==> Snap(q) in f0)
        invariant disk.faults == old(disk.faults) ==> Back(todo)
        invariant Safe(f0, files) ==> Recoverable(disk.files, disk.orig) && RecoverableFrom(disk.crashes, n)
        invariant disk.faults == old(disk.faults) && RecoverableFrom(disk.crashes, n) ==>
                    forall q :: q in files && q !in todo ==> !AtRisk(f0, files, q)
      {
        var p :| p in todo;
        var one := RevertNext(p, todo, f0, n);
        if !one { ok := false; }
        todo := todo - {p};
      }
      AllBack(f0);
    }

    /** The files differ only at paths in `ps`. */
    ghost predicate OnlyUsers(a: Files, b: Files, ps: set<string>) {
      forall q: Path :: (q.User? ==> q.p !in ps) ==> SameAt(a, b, q)
    }

    lemma {:induction false} OnlyUsersStep(f1: Files, f0: Files, p: string)
      requires OnlyUsers(f1, f0, files.Keys) && p in files && SameExcept(disk.files, f1, {User(p)})
      ensures OnlyUsers(disk.files, f0, files.Keys)
    {
      forall q: Path | q.User? ==> q.p !in files.Keys ensures SameAt(disk.files, f0, q) {
        assert SameAt(disk.files, f1, q) && SameAt(f1, f0, q);
      }
    }

    /** What the manager did not track was as it had been from the start. */
    lemma {:induction false} AllBack(f0: Files)
      requires Reverting() && Recoverable(f0, disk.orig) && (forall p :: p in Persisted(f0) ==> p in files)
      requires forall p :: p in files ==> EntryOk(f0, disk.orig, p, files[p])
      requires OnlyUsers(disk.files, f0, files.Keys)
      ensures Persisted(disk.files) == Persisted(f0)
      ensures Back({}) ==> Restored(disk.files, disk.orig) && Linked()
      ensures Recoverable(disk.files, disk.orig) ==> Linked()
    {
      assert SameAt(disk.files, f0, Manifest);
      forall p | p in disk.orig && p !in files ensures Content(disk.files, p) == disk.orig[p] {
        assert CoveredOr(f0, disk.orig, p) && SameAt(disk.files, f0, User(p));
      }
      if Back({}) {
        forall p | p in disk.orig ensures Content(disk.files, p) == disk.orig[p] { }
        forall p | p in Persisted(disk.files) ensures EntryOk(disk.files, disk.orig, p, Persisted(disk.files)[p]) {
          assert EntryOk(f0, disk.orig, p, Persisted(f0)[p]) && EntryOk(disk.files, disk.orig, p, files[p]);
        }
      }
    }

    /** Remove the manifest and then the snapshots.  Only after a successful Revert. */
    method Discard() returns (ok: bool)
      requires Linked() && Restored(disk.files, disk.orig)
      modifies disk`files, disk`crashes, disk`faults, disk`plan
      ensures Recoverable(disk.files, disk.orig) && Restored(disk.files, disk.orig)
      ensures old(disk.crashes) <= disk.crashes && RecoverableFrom(disk.crashes, |old(disk.crashes)|)
      ensures disk.faults >= old(disk.faults) && (disk.faults == old(disk.faults) ==> ok)
      ensures old(disk.plan) == [] ==> disk.plan == [] && disk.faults == old(disk.faults)
      ensures ok && files != map[] ==> StateGone(disk.files)
      ensures forall p :: SameAt(disk.files, old(disk.files), User(p))
    {
      if files == map[] { return true; }
      ok := true;
      if Manifest in disk.files {
        var bad := disk.Fails();
        if bad { ok := false; } else { Drop({Manifest}); }
      }
      ghost var f0, n := disk.files, |disk.crashes|;
      var snaps := set q | q in disk.files && q.Snap?;
      var gone := disk.RemoveAll(snaps);
      RemovedHarmless(f0, n, snaps);
      forall p ensures SameAt(disk.files, f0, User(p)) { assert User(p) !in snaps; }
      if !gone { ok := false; }
    }

    method Drop(doomed: set<Path>)
      requires Recoverable(disk.files, disk.orig) && Restored(disk.files, disk.orig) && doomed == {Manifest}
      modifies disk`files, disk`crashes
      ensures Recoverable(disk.files, disk.orig) && Restored(disk.files, disk.orig)
              && disk.files == old(disk.files) - doomed
      ensures old(disk.crashes) <= disk.crashes && RecoverableFrom(disk.crashes, |old(disk.crashes)|)
    {
      ghost var f0 := disk.files;
      disk.Delete(Manifest);
      RemovalIsHarmless(f0, disk.files, disk.orig);
    }

    lemma {:induction false} RemovedHarmless(f0: Files, n: nat, doomed: set<Path>)
      requires Recoverable(f0, disk.orig) && Restored(f0, disk.orig) && (forall q :: q in doomed ==> !q.User?)
      requires n <= |disk.crashes| && Removed(disk.files, f0, doomed)
      requires forall i :: n <= i < |disk.crashes| ==>
               disk.crashes[i].orig == disk.orig && Removed(disk.crashes[i].files, f0, doomed)
      ensures Recoverable(disk.files, disk.orig) && Restored(disk.files, disk.orig) && RecoverableFrom(disk.crashes, n)
    {
      forall p ensures SameAt(disk.files, f0, User(p)) { assert User(p) !in doomed; }
      RemovalIsHarmless(f0, disk.files, disk.orig);
      forall i | n <= i < |disk.crashes| ensures Recoverable(disk.crashes[i].files, disk.crashes[i].orig) {
        forall p ensures SameAt(disk.crashes[i].files, f0, User(p)) { assert User(p) !in doomed; }
        RemovalIsHarmless(f0, disk.crashes[i].files, disk.orig);
      }
    }

    /** Read the manifest of an earlier process. */
    method ReadManifest()
      requires files == map[] && Manifest in disk.files
      modifies this`files
      ensures files == Persisted(disk.files)
    {
      var entries := disk.files[Manifest].data;
      for i := 0 to |entries|
        invariant files == Decode(entries[..i])
      {
        assert entries[..i + 1][..i] == entries[..i];
        var e := entries[i];
        if e != [] && e[0] == '-' { files := files[e[1..] := false]; } else { files := files[e := true]; }
      }
      assert entries[..|entries|] == entries;
    }
  }

  /** The manager a killed process left behind, if it left one. */
  method Load(disk: Disk) returns (m: Manager?, ok: bool)
    modifies disk`faults, disk`plan
    ensures m != null ==> fresh(m) && m.disk == disk && m.files == Persisted(disk.files) && ok
    ensures m == null && ok ==> Persisted(disk.files) == map[]
    ensures disk.faults >= old(disk.faults) && (disk.faults == old(disk.faults) ==> ok)
    ensures old(disk.plan) == [] ==> disk.plan == [] && disk.faults == old(disk.faults)
  {
    m := null;
    if Manifest !in disk.files { return null, true; }
    var bad := disk.Fails();
    if bad { return null, false; }
    m := new Manager(disk);
    m.ReadManifest();
    ok := true;
  }

  /** Revert, then discard, then remove the whole working directory, each only after the one before
      has succeeded.  Without a manager of its own it uses what the manifest says.  It may be killed
      at any point exactly when no file that its manager tracks is at risk. */
  method CleanupLocked(disk: Disk, own: Manager?, cleanAll: bool) returns (ok: bool)
    requires own != null ==> own.disk == disk && own.Linked()
    requires own == null ==> Recoverable(disk.files, disk.orig)
    modifies disk`files, disk`crashes, disk`faults, disk`plan
    ensures old(disk.crashes) <= disk.crashes && disk.faults >= old(disk.faults)
    ensures old(disk.plan) == [] ==> disk.faults == old(disk.faults)
    ensures disk.faults == old(disk.faults) ==> Restored(disk.files, disk.orig)
    ensures own == null || Safe(old(disk.files), own.files) ==>
              Recoverable(disk.files, disk.orig) && RecoverableFrom(disk.crashes, |old(disk.crashes)|)
    ensures disk.faults == old(disk.faults) ==>
              (RecoverableFrom(disk.crashes, |old(disk.crashes)|) <==> own == null || Safe(old(disk.files), own.files))
    ensures OthersKept(disk.files, old(disk.files), TrackedBy(own, old(disk.files)))
    ensures Restored(disk.files, disk.orig) || StateKept(disk.files, old(disk.files))
    ensures disk.faults == old(disk.faults) ==>
              Consumed(disk.files, old(disk.files), TrackedBy(own, old(disk.files)), cleanAll)
  {
    var m := own;
    if m == null {
      m, ok := Load(disk);
      if !ok { return; }
    }
    ok := true;
    var reverted := true;
    if m != null {
      reverted := RevertAndDiscard(disk, m);
    }
    if cleanAll && reverted {
      ghost var f0, n := disk.files, |disk.crashes|;
      var gone := disk.RemoveAll(set q | q in disk.files && !q.User?);
      AllRemoved(disk, f0, n);
    }
  }

  /** What a cleanup reverts. */
  function TrackedBy(own: Manager?, files: Files): Tracked
    reads own
  {
    if own == null then Persisted(files) else own.files
  }

  /** After a cleanup without failing calls the state is gone, and with `cleanAll` the whole working
      directory; if a snapshot was missing everything is kept. */
  ghost predicate Consumed(files: Files, before: Files, tracked: Tracked, cleanAll: bool) {
    if HasSnapshots(before, tracked) then
      && (tracked != map[] ==> StateGone(files))
      && (cleanAll ==> forall q :: q in files ==> q.User?)
    else StateKept(files, before)
  }

  method RevertAndDiscard(disk: Disk, m: Manager) returns (reverted: bool)
    requires m.disk == disk && m.Linked()
    modifies disk`files, disk`crashes, disk`faults, disk`plan
    ensures old(disk.crashes) <= disk.crashes && disk.faults >= old(disk.faults)
    ensures old(disk.plan) == [] ==> disk.plan == [] && disk.faults == old(disk.faults)
    ensures reverted ==> Recoverable(disk.files, disk.orig)
    ensures OthersKept(disk.files, old(disk.files), m.files) && (!reverted ==> StateKept(disk.files, old(disk.files)))
    ensures disk.faults == old(disk.faults) ==>
              (reverted <==> HasSnapshots(old(disk.files), m.files))
              && (reverted && m.files != map[] ==> StateGone(disk.files))
    ensures reverted || disk.faults == old(disk.faults) ==> Restored(disk.files, disk.orig)
    ensures Safe(old(disk.files), m.files) ==>
              Recoverable(disk.files, disk.orig) && RecoverableFrom(disk.crashes, |old(disk.crashes)|)
    ensures disk.faults == old(disk.faults) && RecoverableFrom(disk.crashes, |old(disk.crashes)|) ==>
              Safe(old(disk.files), m.files)
  {
    reverted := m.Revert();
    if reverted {
      ghost var n, c := |old(disk.crashes)|, disk.crashes;
      var discarded := m.Discard();
      assert disk.crashes[..|c|] == c;
      RecoverableFromParts(disk.crashes, n, |c|);
    }
  }

  lemma {:induction false} AllRemoved(disk: Disk, f0: Files, n: nat)
    requires Recoverable(f0, disk.orig) && Restored(f0, disk.orig) && n <= |disk.crashes|
    requires Removed(disk.files, f0, set q | q in f0 && !q.User?)
    requires forall i :: n <= i < |disk.crashes| ==>
               disk.crashes[i].orig == disk.orig && Removed(disk.crashes[i].files, f0, set q | q in f0 && !q.User?)
    ensures Recoverable(disk.files, disk.orig) && Restored(disk.files, disk.orig) && RecoverableFrom(disk.crashes, n)
    ensures forall p :: SameAt(disk.files, f0, User(p))
  {
    var m := set q | q in f0 && !q.User?;
    forall p ensures SameAt(disk.files, f0, User(p)) { assert User(p) !in m; }
    RemovalIsHarmless(f0, disk.files, disk.orig);
    forall i | n <= i < |disk.crashes| ensures Recoverable(disk.crashes[i].files, disk.crashes[i].orig) {
      forall p ensures SameAt(disk.crashes[i].files, f0, User(p)) { assert User(p) !in m; }
      RemovalIsHarmless(f0, disk.crashes[i].files, disk.orig);
    }
  }

  // ---------------------------------------------------------------- whole runs

  datatype Op = TrackAll(paths: seq<string>) | Modify(path: string, f: Option<File>)

  ghost predicate TrackedIn(ops: seq<Op>, path: string) {
    exists i :: 0 <= i < |ops| && ops[i].TrackAll? && path in ops[i].paths
  }

  /** Every change is to a path tracked before. */
  ghost predicate TracksFirst(ops: seq<Op>) {
    && (forall i :: 0 <= i < |ops| && ops[i].TrackAll? ==> forall p :: p in ops[i].paths ==> Absolute(p))
    && forall i :: 0 <= i < |ops| && ops[i].Modify? ==> TrackedIn(ops[..i], ops[i].path)
  }

  /** What a file is after these steps. */
  function Wanted(ops: seq<Op>, p: string, before: Option<File>): Option<File> {
    if ops == [] then before
    else
      var last := ops[|ops| - 1];
      if last.Modify? && last.path == p then last.f else Wanted(ops[..|ops| - 1], p, before)
  }

  /** Where a build over the files `files0` stands after some steps. */
  ghost predicate BuildAt(m: Manager, ops: seq<Op>, steps: nat, ok: bool, files0: Files)
    reads m, m.disk
  {
    && steps <= |ops| && m.Linked() && m.Complete() && RecoverableFrom(m.disk.crashes, 0)
    && (ok ==> m.Synced() && forall p :: TrackedIn(ops[..steps], p) ==> p in m.files)
    && (!ok ==> steps > 0 && ops[steps - 1].TrackAll?)
    && (!ok ==> forall p :: p in m.files && p !in ops[steps - 1].paths ==> p in Persisted(m.disk.files))
    && ContentsAt(m, ops[..steps], files0)
  }

  /** Files are as the steps want them, untracked ones unchanged, and the manager's memory is right. */
  ghost predicate ContentsAt(m: Manager, done: seq<Op>, files0: Files)
    reads m, m.disk
  {
    && (forall p :: Content(m.disk.files, p) == Wanted(done, p, Content(files0, p)))
    && (forall p :: p in m.disk.orig ==> m.disk.orig[p] == Content(files0, p))
    && (forall p :: p !in m.files ==> Content(m.disk.files, p) == Content(files0, p))
  }

  method TrackStep(m: Manager, ops: seq<Op>, steps: nat, ghost files0: Files) returns (ok: bool)
    requires BuildAt(m, ops, steps, true, files0) && steps < |ops| && TracksFirst(ops) && ops[steps].TrackAll?
    modifies m`files, m.disk
    ensures BuildAt(m, ops, steps + 1, ok, files0)
    ensures m.disk.faults >= old(m.disk.faults) && (m.disk.faults == old(m.disk.faults) ==> ok)
  {
    assert ops[..steps + 1][..steps] == ops[..steps];
    TrackedInMore(ops, steps);
    ok := m.TrackAll(ops[steps].paths);
  }

  method ModifyStep(m: Manager, ops: seq<Op>, steps: nat, ghost files0: Files)
    requires BuildAt(m, ops, steps, true, files0) && steps < |ops| && TracksFirst(ops) && ops[steps].Modify?
    modifies m.disk`files, m.disk`crashes
    ensures BuildAt(m, ops, steps + 1, true, files0)
  {
    WantedMore(ops, steps, files0);
    TrackedInMore(ops, steps);
    assert TrackedIn(ops[..steps], ops[steps].path);
    ghost var c := m.disk.crashes;
    m.Modify(ops[steps].path, ops[steps].f);
    assert m.disk.crashes[..|c|] == c;
    RecoverableFromParts(m.disk.crashes, 0, |c|);
  }

  method BuildStep(m: Manager, ops: seq<Op>, steps: nat, ghost files0: Files) returns (steps': nat, ok: bool)
    requires BuildAt(m, ops, steps, true, files0) && steps < |ops| && TracksFirst(ops)
    modifies m`files, m.disk
    ensures steps' == steps + 1 && BuildAt(m, ops, steps', ok, files0)
    ensures m.disk.faults >= old(m.disk.faults) && (m.disk.faults == old(m.disk.faults) ==> ok)
  {
    steps', ok := steps + 1, true;
    match ops[steps] {
      case TrackAll(_) => ok := TrackStep(m, ops, steps, files0);
      case Modify(_, _) => ModifyStep(m, ops, steps, files0);
    }
  }

  /** A build that starts without a manifest, tracks and changes files, and stops after the first
      step that fails, the last of the `steps` it took.  Only a path that this step was to track can be
      missing from the manifest. */
  method Build(disk: Disk, ops: seq<Op>) returns (m: Manager, ok: bool, steps: nat)
    requires Manifest !in disk.files && disk.orig == map[] && disk.crashes == [] && TracksFirst(ops)
    modifies disk
    ensures fresh(m) && m.disk == disk && BuildAt(m, ops, steps, ok, old(disk.files)) && (ok ==> steps == |ops|)
    ensures disk.faults >= old(disk.faults) && (disk.faults == old(disk.faults) ==> ok)
  {
    ghost var files0 := disk.files;
    m := new Manager(disk);
    assert ops[..0] == [];
    steps, ok := 0, true;
    while steps < |ops| && ok
      invariant m.disk == disk && fresh(m) && BuildAt(m, ops, steps, ok, files0)
      invariant disk.faults >= old(disk.faults) && (disk.faults == old(disk.faults) ==> ok)
    {
      steps, ok := BuildStep(m, ops, steps, files0);
    }
    assert ops[..|ops|] == ops;
  }

  lemma {:induction false} WantedMore(ops: seq<Op>, n: nat, files0: Files)
    requires n < |ops| && ops[n].Modify?
    ensures forall p :: Wanted(ops[..n + 1], p, Content(files0, p))
                        == if p == ops[n].path then ops[n].f else Wanted(ops[..n], p, Content(files0, p))
  {
    assert ops[..n + 1][..n] == ops[..n];
  }

  lemma {:induction false} TrackedInMore(ops: seq<Op>, n: nat)
    requires n < |ops|
    ensures forall p :: TrackedIn(ops[..n + 1], p) ==>
              TrackedIn(ops[..n], p) || (ops[n].TrackAll? && p in ops[n].paths)
  {
    forall p | TrackedIn(ops[..n + 1], p) ensures TrackedIn(ops[..n], p) || (ops[n].TrackAll? && p in ops[n].paths) {
      var i :| 0 <= i < n + 1 && ops[..n + 1][i].TrackAll? && p in ops[..n + 1][i].paths;
      if i < n { assert ops[..n][i] == ops[i]; }
    }
  }

  /** A build and its cleanup.  `tracked` and `before` are what the manager knew and the files on disk
      when the build was over after `steps` and the cleanup began, `ok` whether the build ran to its end. */
  method RunBuild(disk: Disk, ops: seq<Op>)
      returns (ok: bool, steps: nat, tracked: Tracked, before: Files, ghost faults: nat)
    requires Manifest !in disk.files && disk.orig == map[] && disk.crashes == [] && TracksFirst(ops)
    modifies disk
    ensures ok ==> Safe(before, tracked)
    ensures steps <= |ops| && if ok then steps == |ops| else steps > 0 && ops[steps - 1].TrackAll?
    ensures forall p :: AtRisk(before, tracked, p) ==> !ok && p in ops[steps - 1].paths
    ensures Safe(before, tracked) ==> RecoverableFrom(disk.crashes, 0) && Recoverable(disk.files, disk.orig)
    ensures old(disk.faults) <= faults <= disk.faults && (faults == old(disk.faults) ==> ok)
    ensures faults == disk.faults ==>
              Restored(disk.files, disk.orig) && (RecoverableFrom(disk.crashes, 0) <==> Safe(before, tracked))
    ensures ok ==> forall p :: TrackedIn(ops, p) ==> p in tracked
    ensures forall p :: Content(before, p) == Wanted(ops[..steps], p, old(Content(disk.files, p)))
    ensures faults == disk.faults ==> forall p :: Content(disk.files, p) == old(Content(disk.files, p))
    ensures faults == disk.faults && tracked != map[] ==> StateGone(disk.files)
    ensures OthersKept(disk.files, before, tracked)
  {
    var m;
    m, ok, steps := Build(disk, ops);
    tracked, before, faults := m.files, disk.files, disk.faults;
    ghost var c := disk.crashes;
    var _ := CleanupLocked(disk, m, false);
    assert disk.crashes[..|c|] == c;
    RecoverableFromParts(disk.crashes, 0, |c|);
    if faults == disk.faults {
      forall p ensures Content(disk.files, p) == old(Content(disk.files, p)) {
        if p in tracked {
          assert EntryOk(before, disk.orig, p, tracked[p]);
        } else {
          assert SameAt(disk.files, before, User(p));
        }
      }
    }
  }

  /** After a crash, and after any number of crashes during recovery: the next cleanup, unless calls
      fail again, leaves every tracked file as it was; and it may itself be killed at any point. */
  method Recover(c: Crash, plan: seq<bool>, cleanAll: bool) returns (disk: Disk)
    requires Recoverable(c.files, c.orig)
    ensures fresh(disk) && disk.orig == c.orig
    ensures RecoverableFrom(disk.crashes, 0) && Recoverable(disk.files, c.orig)
    ensures disk.faults == 0 ==>
              Restored(disk.files, c.orig) && Consumed(disk.files, c.files, Persisted(c.files), cleanAll)
    ensures OthersKept(disk.files, c.files, Persisted(c.files))
    ensures plan == [] ==> disk.faults == 0
  {
    disk := new Disk(c.files, c.orig, plan);
    var _ := CleanupLocked(disk, null, cleanAll);
  }

  // ---------------------------------------------------------------- where the guarantee ends

  /** A run in which one call fails: the manifest for a file with content cannot be written.  Track
      reports it the first time and not when it is asked again, and the cleanup that gives the file
      back goes through a state from which it could not be recovered. */
  method FailedCommitRun(path: string, file: File) returns (disk: Disk, first: bool, again: bool)
    requires Absolute(path) && file.data != []
    ensures fresh(disk) && !first && again
    ensures !RecoverableFrom(disk.crashes, 0) && Restored(disk.files, disk.orig)
  {
    disk := new Disk(map[User(path) := file], map[], seq(|file.data| + 3, _ => false) + [true]);
    var m := new Manager(disk);
    assert m.CommitFails(disk.files, m.files, disk.plan, path);
    first := m.Track(path);
    assert disk.plan == [];
    again := m.Track(path);
    ghost var c := disk.crashes;
    var _ := CleanupLocked(disk, m, false);
    assert disk.crashes[..|c|] == c;
    RecoverableFromParts(disk.crashes, 0, |c|);
  }

  /** A path that itself began with a dash would come back as a file that did not exist. */
  lemma {:induction false} DashIsAmbiguous(p: string)
    ensures Decode([Entry("-" + p, true)]) == map[p := false]
  {
    var entries := [Entry("-" + p, true)];
    assert entries[..0] == [] && entries[0][1..] == p;
  }
}
