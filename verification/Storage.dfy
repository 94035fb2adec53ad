/** The file system under the state manager, one call at a time.  Every call may fail, and the
    process may be killed between any two of them: `crashes` records each state in between.
 */
module Storage {
  import opened Basics

  /** A file of the user's module, the manifest, a temporary file, or the snapshot of a path. */
  datatype Path = User(p: string) | Manifest | Temp(n: nat) | Snap(p: string)

  /** `data` are the blocks of a file; the blocks of the manifest are its entries. */
  datatype File = File(data: seq<string>, perm: nat)

  type Files = map<Path, File>

  const DEFAULT_PERM := 420
  const TEMP_PERM := 384

  /** What a killed process leaves: the files, and the tracked paths as they were when first tracked. */
  datatype Crash = Crash(files: Files, orig: map<string, Option<File>>)

  function Content(files: Files, p: string): Option<File> {
    if User(p) in files then Some(files[User(p)]) else None
  }

  function PermAt(files: Files, q: Path): nat {
    if q in files then files[q].perm else DEFAULT_PERM
  }

  /** The next n calls are planned, and none of them fails. */
  ghost predicate Calm(plan: seq<bool>, n: nat) {
    |plan| >= n && forall i :: 0 <= i < n ==> !plan[i]
  }

  /** Of the next calls, the one after n others is the first to fail. */
  ghost predicate FailsAfter(plan: seq<bool>, n: nat) {
    Calm(plan, n) && |plan| > n && plan[n]
  }

  /** A copy from `src` got so far: the destination is there and holds a prefix of the source. */
  ghost predicate Cut(f: Files, f0: Files, src: Path, dst: Path)
    requires src in f0
  {
    dst in f && f[dst].data <= f0[src].data && (f[dst].perm == f0[src].perm || f[dst].perm == PermAt(f0, dst))
  }

  /** Only the destination of the copy has changed so far, and it was truncated first. */
  ghost predicate Copying(f0: Files, c0: seq<Crash>, f: Files, c: seq<Crash>, orig: map<string, Option<File>>,
      src: Path, dst: Path)
    requires src in f0
  {
    && SameExcept(f, f0, {dst}) && Extends(c0, c, f0, orig, {dst})
    && (if |c| == |c0| then f == f0 else Cut(f, f0, src, dst))
    && (forall i :: |c0| <= i < |c| ==> Cut(c[i].files, f0, src, dst))
    && (|c| > |c0| ==> dst in c[|c0|].files && c[|c0|].files[dst].data == [])
  }

  ghost predicate SameExcept(a: Files, b: Files, at: set<Path>) {
    forall q :: q !in at ==> SameAt(a, b, q)
  }

  ghost predicate SameAt(a: Files, b: Files, q: Path) {
    (q in a <==> q in b) && (q in a ==> a[q] == b[q])
  }

  /** The states added to the record differ from `files` only at `at`. */
  ghost predicate Extends(c0: seq<Crash>, c: seq<Crash>, files: Files, orig: map<string, Option<File>>, at: set<Path>) {
    && c0 <= c
    && forall i :: |c0| <= i < |c| ==> c[i].orig == orig && SameExcept(c[i].files, files, at)
  }

  class Disk {
    var files: Files
    ghost var orig: map<string, Option<File>>
    ghost var crashes: seq<Crash>
    ghost var faults: nat
    /** Which of the calls to come fail; those behind the last one do not. */
    var plan: seq<bool>

    constructor (files: Files, ghost orig: map<string, Option<File>>, plan: seq<bool>)
      ensures this.files == files && this.orig == orig && crashes == [] && faults == 0 && this.plan == plan
    {
      this.files, this.orig, this.plan, crashes, faults := files, orig, plan, [], 0;
    }

    method Put(q: Path, f: File)
      modifies this`files, this`crashes
      ensures files == old(files)[q := f] && crashes == old(crashes) + [Crash(files, orig)]
    {
      files := files[q := f];
      crashes := crashes + [Crash(files, orig)];
    }

    method Delete(q: Path)
      modifies this`files, this`crashes
      ensures files == old(files) - {q} && crashes == old(crashes) + [Crash(files, orig)]
    {
      files := files - {q};
      crashes := crashes + [Crash(files, orig)];
    }

    /** Replace `to` by `from` in one step. */
    method Rename(src: Path, dst: Path)
      requires src in files && src != dst
      modifies this`files, this`crashes
      ensures files == old(files)[dst := old(files)[src]] - {src} && crashes == old(crashes) + [Crash(files, orig)]
    {
      files := files[dst := files[src]] - {src};
      crashes := crashes + [Crash(files, orig)];
    }

    /** Does the next call fail? */
    method Fails() returns (bad: bool)
      modifies this`faults, this`plan
      ensures faults == old(faults) + if bad then 1 else 0
      ensures if old(plan) == [] then !bad && plan == [] else bad == old(plan)[0] && plan == old(plan)[1..]
    {
      bad := false;
      if plan != [] { bad, plan := plan[0], plan[1..]; }
      if bad { faults := faults + 1; }
    }

    /** Put the next part of a copy from `src` in place. */
    method PutCopy(src: Path, dst: Path, f: File, ghost f0: Files, ghost c0: seq<Crash>)
      requires src in f0 && src != dst && Copying(f0, c0, files, crashes, orig, src, dst)
      requires f.data <= f0[src].data && (f.perm == f0[src].perm || f.perm == PermAt(f0, dst))
      requires |crashes| == |c0| ==> f.data == []
      modifies this`files, this`crashes
      ensures Copying(f0, c0, files, crashes, orig, src, dst)
      ensures files == f0[dst := f] && |crashes| == old(|crashes|) + 1
    {
      Put(dst, f);
      forall q ensures q in files <==> q in f0[dst := f] { assert q != dst ==> SameAt(old(files), f0, q); }
      assert forall q :: q in files && q != dst ==> SameAt(old(files), f0, q);
      assert files == f0[dst := f];
    }

    /** Copy a file block by block; the destination is truncated first, so a failure or a crash
        leaves any prefix of the source, and the permissions come last. */
    method CopyFile(src: Path, dst: Path) returns (ok: bool)
      modifies this`files, this`crashes, this`faults, this`plan
      ensures ok ==> src in old(files) && files == old(files)[dst := old(files)[src]]
      ensures src !in old(files) ==> !ok && files == old(files) && crashes == old(crashes) && faults == old(faults)
      ensures src in old(files) ==> Copying(old(files), old(crashes), files, crashes, orig, src, dst)
      ensures src in old(files) && src != dst && ok ==> |crashes| > |old(crashes)|
      ensures faults >= old(faults) && (src in old(files) && faults == old(faults) ==> ok)
      ensures old(plan) == [] ==> plan == [] && faults == old(faults)
      ensures src in old(files) && src != dst && Calm(old(plan), |old(files)[src].data| + 3) ==>
                ok && plan == old(plan)[|old(files)[src].data| + 3..]
    {
      if src !in files { return false; }
      ghost var f0, c0 := files, crashes;
      ok := false;
      var bad := Fails();
      if bad { return; }
      if src == dst {
        assert files == files[dst := files[src]];
        return true;
      }
      var info := files[src];
      bad := Fails();
      if bad { return; }
      var perm := PermAt(files, dst);
      PutCopy(src, dst, File([], perm), f0, c0);
      var n := 0;
      while n < |info.data|
        invariant n <= |info.data| && faults == old(faults)
        invariant Copying(f0, c0, files, crashes, orig, src, dst) && |crashes| > |c0|
        invariant old(plan) == [] ==> plan == []
        invariant Calm(old(plan), |info.data| + 3) ==> plan == old(plan)[n + 2..]
      {
        bad := Fails();
        if bad { return; }
        n := n + 1;
        PutCopy(src, dst, File(info.data[..n], perm), f0, c0);
      }
      bad := Fails();
      if bad { return; }
      PutCopy(src, dst, info, f0, c0);
      ok := true;
    }

    /** Change a temporary file while `dst` is being replaced. */
    method PutTemp(t: Path, f: Option<File>, ghost f0: Files, ghost c0: seq<Crash>, ghost dst: Path,
        ghost data: seq<string>)
      requires t.Temp? && !dst.Temp? && InFlight(f0, c0, files, crashes, orig, dst, data)
      modifies this`files, this`crashes
      ensures InFlight(f0, c0, files, crashes, orig, dst, data)
      ensures f.Some? ==> t in files && files[t] == f.value
    {
      if f.Some? { Put(t, f.value); } else { Delete(t); }
      assert Wrote(f0, crashes[|crashes| - 1], orig, dst, data);
    }

    /** Put a temporary file in the place of `dst`. */
    method RenameTemp(t: Path, ghost f0: Files, ghost c0: seq<Crash>, dst: Path, ghost data: seq<string>)
      requires t.Temp? && !dst.Temp? && t in files && files[t].data == data
               && InFlight(f0, c0, files, crashes, orig, dst, data)
      modifies this`files, this`crashes
      ensures dst in files && files[dst].data == data && forall q: Path :: q != dst && !q.Temp? ==> SameAt(files, f0, q)
      ensures c0 <= crashes && forall i :: |c0| <= i < |crashes| ==> Wrote(f0, crashes[i], orig, dst, data)
    {
      Rename(t, dst);
      assert Wrote(f0, crashes[|crashes| - 1], orig, dst, data);
    }

    /** Write a temporary file and rename it: at any time the target has its old or its new content. */
    method WriteFileAtomic(dst: Path, data: seq<string>) returns (ok: bool)
      requires !dst.Temp?
      modifies this`files, this`crashes, this`faults, this`plan
      ensures ok ==> dst in files && files[dst].data == data
      ensures !ok ==> SameAt(files, old(files), dst)
      ensures forall q: Path :: q != dst && !q.Temp? ==> SameAt(files, old(files), q)
      ensures old(crashes) <= crashes
      ensures forall i :: |old(crashes)| <= i < |crashes| ==> Wrote(old(files), crashes[i], orig, dst, data)
      ensures faults >= old(faults) && (faults == old(faults) ==> ok)
    {
      ghost var f0, c0 := files, crashes;
      ok := false;
      var mode := PermAt(files, dst);
      var bad := Fails();
      if bad { return; }
      var t := FreshTemp();
      PutTemp(t, Some(File([], TEMP_PERM)), f0, c0, dst, data);
      bad := Fails();
      if !bad {
        PutTemp(t, Some(File(data, TEMP_PERM)), f0, c0, dst, data);
        bad := Fails();
      }
      if !bad {
        PutTemp(t, Some(File(data, mode)), f0, c0, dst, data);
        bad := Fails();
      }
      if bad {
        PutTemp(t, None, f0, c0, dst, data);
        return;
      }
      RenameTemp(t, f0, c0, dst, data);
      ok := true;
    }

    method FreshTemp() returns (t: Path)
      ensures t.Temp? && t !in files
    {
      var n: nat := 0;
      ghost var left := files.Keys;
      while Temp(n) in files
        invariant left <= files.Keys && forall k: nat :: k >= n && Temp(k) in files ==> Temp(k) in left
        decreases |left|
      {
        assert |left - {Temp(n)}| < |left|;
        left := left - {Temp(n)};
        n := n + 1;
      }
      t := Temp(n);
    }

    /** Remove the files in `doomed` in some order, stopping at the first failure. */
    method RemoveAll(doomed: set<Path>) returns (ok: bool)
      modifies this`files, this`crashes, this`faults, this`plan
      ensures ok ==> files == old(files) - doomed
      ensures Removed(files, old(files), doomed)
      ensures old(crashes) <= crashes
      ensures forall i :: |old(crashes)| <= i < |crashes| ==>
              crashes[i].orig == orig && Removed(crashes[i].files, old(files), doomed)
      ensures faults >= old(faults) && (faults == old(faults) ==> ok)
      ensures old(plan) == [] ==> plan == [] && faults == old(faults)
    {
      var todo := doomed;
      while todo != {}
        invariant todo <= doomed && Removed(files, old(files), doomed) && faults == old(faults)
        invariant old(plan) == [] ==> plan == []
        invariant old(crashes) <= crashes
        invariant forall i :: |old(crashes)| <= i < |crashes| ==>
                  crashes[i].orig == orig && Removed(crashes[i].files, old(files), doomed)
        invariant forall q :: q in doomed && q !in todo ==> q !in files
        decreases |todo|
      {
        var bad := Fails();
        if bad { return false; }
        var q :| q in todo;
        Delete(q);
        todo := todo - {q};
      }
      assert files == old(files) - doomed;
      ok := true;
    }
  }

  /** The target of an atomic write is untouched so far. */
  ghost predicate InFlight(f0: Files, c0: seq<Crash>, f: Files, c: seq<Crash>, orig: map<string, Option<File>>,
      dst: Path, data: seq<string>) {
    && (forall q: Path :: !q.Temp? ==> SameAt(f, f0, q)) && c0 <= c
    && forall i :: |c0| <= i < |c| ==> Wrote(f0, c[i], orig, dst, data)
  }

  /** Some of the doomed files are gone, everything else is as before. */
  ghost predicate Removed(a: Files, b: Files, doomed: set<Path>) {
    && (forall q :: q !in doomed ==> SameAt(a, b, q))
    && (forall q :: q in a ==> q in b && a[q] == b[q])
  }

  /** A state during or after an atomic write. */
  ghost predicate Wrote(before: Files, c: Crash, orig: map<string, Option<File>>, dst: Path, data: seq<string>) {
    && c.orig == orig
    && (forall q: Path :: q != dst && !q.Temp? ==> SameAt(c.files, before, q))
    && (SameAt(c.files, before, dst) || (dst in c.files && c.files[dst].data == data))
  }
}
