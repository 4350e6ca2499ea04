/** The operating system's view of one credential directory, and the recovery as a method over it. */
module Directory {
  import opened Option
  import opened Disk
  import opened Recovery

  // ----- the directory as an object -----

  function Stored(d: Disk, f: File): Option<Data> {
    var dir := Live(d);
    if Final(f) in dir && dir[Final(f)] in d.inodes then Some(d.inodes[dir[Final(f)]].data) else None
  }

  function Lookup(creds: Creds, f: File): Option<Data> {
    if f in creds then Some(creds[f]) else None
  }

  lemma StoredIsHeld(d: Disk, x: Creds, a: Creds, b: Creds)
    requires Stands(d, x, a, b) && Marker !in Live(d)
    ensures forall f: File :: Stored(d, f) == Lookup(x, f)
  {
    forall f: File ensures Stored(d, f) == Lookup(x, f) {
      assert f in Resolve(Live(d)) <==> Final(f) in Live(d);
    }
  }

  lemma Bound(s: set<nat>) returns (b: nat)
    ensures forall i | i in s :: i < b
  {
    b := 0;
    var rest := s;
    while rest != {}
      invariant forall i | i in s :: i in rest || i < b
    {
      var x :| x in rest;
      rest := rest - {x};
      b := if x < b then b else x + 1;
    }
  }

  // `seen` records every state the disk has been in: each is a state a crash can hit. `succeeds` is what
  // the operating system will answer: whether the k-th system call works. Nobody can know it beforehand.
  class Folder {
    const succeeds: nat -> bool
    var calls: nat
    var disk: Disk
    ghost var seen: seq<Disk>

    constructor (disk: Disk, succeeds: nat -> bool)
      ensures this.disk == disk && this.succeeds == succeeds && calls == 0 && seen == []
    {
      this.disk, this.succeeds := disk, succeeds;
      calls, seen := 0, [];
    }

    // No system call since then has failed.
    ghost predicate Fine(start: nat)
      reads this
    {
      forall k | start <= k < calls :: succeeds(k)
    }

    // A recovery that starts now lists the directory, and then fails to see a marker that is there.
    ghost predicate Overlooks()
      reads this
    {
      Marker in Live(disk) && succeeds(calls) && !succeeds(calls + 1)
    }

    method Call() returns (ok: bool)
      modifies this`calls
      ensures ok == succeeds(old(calls)) && calls == old(calls) + 1
    {
      ok := succeeds(calls);
      calls := calls + 1;
    }

    // From the given point on, power failures leave exactly a or exactly b.
    ghost predicate SafeSince(start: nat, a: Creds, b: Creds)
      reads this
    {
      start <= |seen| && forall j | start <= j < |seen| :: Admits(seen[j], a, b)
    }

    // At some point since then a power failure may leave bytes that nobody wrote.
    ghost predicate Exposed(start: nat)
      reads this
    {
      exists j :: start <= j < |seen| && Nowhere(seen[j])
    }

    // Opens a file for writing, creating or truncating it.
    method Create(n: Name) returns (ok: bool, i: Inode)
      modifies this
      ensures ok == succeeds(old(calls)) && calls == old(calls) + 1
      ensures !ok ==> disk == old(disk) && seen == old(seen)
      ensures ok && n in Live(old(disk)) ==>
        i == Live(old(disk))[n] && disk == Filled(old(disk), i, Content(Text(""), false)) && seen == old(seen) + [disk]
      ensures ok && n !in Live(old(disk)) ==>
        && i !in old(disk).inodes
        && disk == Logged(Filled(old(disk), i, Content(Text(""), false)), Link(n, i))
        && seen == old(seen) + [disk]
    {
      i := 0;
      ok := Call();
      if ok {
        if n in Live(disk) {
          i := Live(disk)[n];
          disk := Filled(disk, i, Content(Text(""), false));
        } else {
          ghost var b := Bound(disk.inodes.Keys);
          assert b !in disk.inodes;
          i :| i !in disk.inodes;
          disk := Logged(Filled(disk, i, Content(Text(""), false)), Link(n, i));
        }
        seen := seen + [disk];
      }
    }

    // Writes the whole content; a failed write leaves unknown bytes behind.
    method Write(i: Inode, data: Data) returns (ok: bool, ghost written: Data)
      modifies this
      ensures ok == succeeds(old(calls)) && calls == old(calls) + 1
      ensures disk == Filled(old(disk), i, Content(written, false)) && seen == old(seen) + [disk]
      ensures ok ==> written == data
    {
      ok := Call();
      var bytes: Data := *;
      if ok {
        bytes := data;
      }
      written := bytes;
      disk := Filled(disk, i, Content(bytes, false));
      seen := seen + [disk];
    }

    // Reads a file; one that is missing and one that cannot be read look the same.
    method ReadFile(f: File) returns (content: Option<Data>, ghost read: bool)
      modifies this`calls
      ensures read == succeeds(old(calls)) && calls == old(calls) + 1
      ensures content == if read then Stored(disk, f) else None
    {
      var readable := Call();
      var dir := Live(disk);
      read := readable;
      content := if readable && Final(f) in dir && dir[Final(f)] in disk.inodes
          then Some(disk.inodes[dir[Final(f)]].data) else None;
    }

    // Looks whether a file is missing; any other error counts as its presence.
    method Exists(f: File) returns (there: bool, ghost read: bool)
      modifies this`calls
      ensures read == succeeds(old(calls)) && calls == old(calls) + 1
      ensures there <==> !read || Stored(disk, f).Some?
    {
      var readable := Call();
      var dir := Live(disk);
      read := readable;
      there := !readable || (Final(f) in dir && dir[Final(f)] in disk.inodes);
    }

    method SyncFile(i: Inode) returns (ok: bool)
      requires i in disk.inodes
      modifies this
      ensures ok == succeeds(old(calls)) && calls == old(calls) + 1
      ensures !ok ==> disk == old(disk) && seen == old(seen)
      ensures ok ==> disk == Filled(old(disk), i, Content(old(disk).inodes[i].data, true)) && seen == old(seen) + [disk]
    {
      ok := Call();
      if ok {
        disk := Filled(disk, i, Content(disk.inodes[i].data, true));
        seen := seen + [disk];
      }
    }

    // One rename or removal, which may fail.
    method Change(e: Entry) returns (ok: bool)
      modifies this
      ensures ok == succeeds(old(calls)) && calls == old(calls) + 1
      ensures !ok ==> disk == old(disk) && seen == old(seen)
      ensures ok ==> disk == Logged(old(disk), e) && seen == old(seen) + [disk]
    {
      ok := Call();
      if ok {
        Carry(Log(e));
      }
    }

    method SyncDirectory() returns (ok: bool)
      modifies this
      ensures ok == succeeds(old(calls)) && calls == old(calls) + 1
      ensures !ok ==> disk == old(disk) && seen == old(seen)
      ensures ok ==> disk == DirSynced(old(disk)) && seen == old(seen) + [disk]
    {
      ok := Call();
      if ok {
        Carry(SyncDir);
      }
    }

    // A synchronisation whose failure nobody looks at.
    method TrySync() returns (ghost synced: bool)
      modifies this
      ensures synced == succeeds(old(calls)) && calls == old(calls) + 1
      ensures disk == After(old(disk), Sync(synced)) && seen == old(seen) + if synced then [disk] else []
    {
      synced := SyncDirectory();
    }

    // A step that does not fail.
    method Carry(s: Step)
      modifies this`disk, this`seen
      ensures disk == After(old(disk), s) && seen == old(seen) + [disk]
    {
      disk := After(disk, s);
      seen := seen + [disk];
    }

    // Reads the directory and keeps the pending names, in whatever order they come. If that fails nobody uses them.
    method ListPending() returns (ok: bool, order: seq<File>)
      modifies this`calls
      ensures ok == succeeds(old(calls)) && calls == old(calls) + 1
      ensures Lists(order, Live(disk))
    {
      ok := Call();
      var rest := set f: File | Pending(f) in Live(disk);
      order := [];
      while rest != {}
        modifies {}
        invariant forall f: File :: Pending(f) in Live(disk) <==> f in rest || f in order
        invariant forall f | f in order :: f !in rest
        invariant forall i, j | 0 <= i < j < |order| :: order[i] != order[j]
      {
        var f :| f in rest;
        order, rest := order + [f], rest - {f};
      }
    }

    // Looks for the marker; any error reads as its absence.
    method FindMarker() returns (found: bool)
      modifies this`calls
      ensures found <==> Marker in Live(disk) && succeeds(old(calls))
      ensures calls == old(calls) + 1
    {
      var readable := Call();
      found := Marker in Live(disk) && readable;
    }

    /** Brings the directory to a consistent state: finishes the renames if it finds the marker, discards the pending
        files otherwise. It carries out a prefix of RecoverySteps, all of them unless it reports an error; it reports
        one only if a call fails, and overlooks the marker exactly if the look for it fails. `safe` says that the disk
        stands for one of two file sets at the start. Then nothing on the way admits a third one exactly when the
        marker was not overlooked or that was harmless; if it was not overlooked, the disk stands for the same one
        throughout. */
    method RecoverPendingRotation(ghost safe: bool, ghost x: Creds, ghost a: Creds, ghost b: Creds)
      returns (ok: bool, ghost order: seq<File>, ghost syncs: Syncs, ghost n: nat)
      requires safe ==> Stands(disk, x, a, b)
      modifies this
      ensures old(calls) <= calls && (Fine(old(calls)) ==> ok && syncs == Syncs(true, true))
      ensures Lists(order, Live(old(disk))) && (old(Overlooks()) ==> ok && Marker in Live(disk))
      ensures
        var steps := RecoverySteps(Believed(old(disk), old(Overlooks())), order, syncs);
        n <= |steps| && disk == StateAt(old(disk), steps[..n]) && (ok ==> n == |steps|)
      ensures old(seen) <= seen
      ensures safe ==> (SafeSince(|old(seen)|, a, b) <==> !old(Overlooks()) || Harmless(old(disk), a, b))
      ensures safe && !old(Overlooks()) ==> Stands(disk, x, a, b) && (ok ==> Clean(Live(disk)))
      ensures safe && ok && Believed(old(disk), old(Overlooks())) && (syncs.renames || syncs.removal) ==>
        Settled(disk, x)
      ensures safe && !ok ==> disk == old(disk) || (Marker in Live(old(disk)) && Marker in Live(disk))
    {
      hide Phase, Admits, Settled, Stands, Lists, Clean, Live, Logged, DirSynced, RecoverySteps, StateAt, Harmless,
        Discarding;
      ghost var d, misread := disk, Overlooks();
      var files, marked;
      ok, files := ListPending();
      order, n, syncs := files, 0, Syncs(true, true);
      StateAtNothing(d, RecoverySteps(Believed(d, misread), order, syncs));
      if !ok {
        return;
      }
      marked := FindMarker();
      if marked {
        ok, syncs, n := FinishPending(files, safe, x, a, b);
      } else {
        DiscardPending(files);
        n := |files|;
        DiscardingIsRecovering(d, order, syncs, n);
        if misread {
          AllDiscarded(d, order, a, b);
        }
        if safe {
          DiscardedStands(d, disk, order, x, a, b);
          TrailSafe(d, order, old(seen), seen, x, a, b);
        }
      }
    }

    // No marker was found: the pending files are removed.
    method DiscardPending(files: seq<File>)
      modifies this`disk, this`seen
      ensures disk == Discarding(old(disk), files, |files|)
      ensures seen == old(seen) + Trail(old(disk), files, |files|)
    {
      var i := 0;
      while i < |files|
        invariant i <= |files| && disk == Discarding(old(disk), files, i)
        invariant seen == old(seen) + Trail(old(disk), files, i)
      {
        Carry(Log(Unlink(Pending(files[i]))));
        i := i + 1;
      }
    }

    // The marker was found: the renames are finished and the marker removed.
    method FinishPending(files: seq<File>, ghost safe: bool, ghost x: Creds, ghost a: Creds, ghost b: Creds)
      returns (ok: bool, ghost syncs: Syncs, ghost n: nat)
      requires Marker in Live(disk) && Lists(files, Live(disk)) && (safe ==> Stands(disk, x, a, b))
      modifies this
      ensures old(calls) <= calls && (Fine(old(calls)) ==> ok && syncs == Syncs(true, true))
      ensures n <= |RecoverySteps(true, files, syncs)| && (ok ==> n == |RecoverySteps(true, files, syncs)|)
      ensures disk == StateAt(old(disk), RecoverySteps(true, files, syncs)[..n])
      ensures old(seen) <= seen
      ensures safe ==> SafeSince(|old(seen)|, a, b) && Stands(disk, x, a, b)
      ensures safe && ok ==> Clean(Live(disk)) && (syncs.renames || syncs.removal ==> Settled(disk, x))
      ensures safe && !ok ==> Marker in Live(disk)
    {
      hide Phase, Admits, Settled, Stands, Lists, Clean, Live, Logged, DirSynced, RecoverySteps, StateAt;
      n, syncs := 0, Syncs(false, false);
      ghost var d := disk;
      TheSteps(true, files, syncs);
      StateAtNothing(d, RecoverySteps(true, files, syncs));
      if safe {
        PhaseStart(d, files, x, a, b);
      }
      var i := 0;
      while i < |files|
        invariant n == i <= |files| && syncs == Syncs(false, false) && old(calls) <= calls
        invariant disk == StateAt(d, RecoverySteps(true, files, syncs)[..n])
        invariant safe ==> Phase(disk, true, files, n, x, a, b)
        invariant old(seen) <= seen && (safe ==> SafeSince(|old(seen)|, a, b))
      {
        StateAtNext(d, RecoverySteps(true, files, syncs), n);
        if safe {
          HandleStep(disk, true, files, n, x, a, b);
          PhaseSafe(After(disk, Handle(true, files[n])), true, files, n + 1, x, a, b);
          PhaseMarked(disk, true, files, n, x, a, b);
          PhaseStands(disk, true, files, n, x, a, b);
        }
        ok := Change(Move(Pending(files[i]), Final(files[i])));
        if !ok {
          return;
        }
        i, n := i + 1, n + 1;
      }
      ok, syncs, n := FinishRecovery(d, files, safe, x, a, b);
      TheSteps(true, files, syncs);
      if safe {
        PhaseStands(disk, true, files, n, x, a, b);
        PhaseMarked(disk, true, files, n, x, a, b);
        if ok {
          PhaseEnds(disk, true, files, n, x, a, b);
        }
      }
    }

    // After the renames: synchronises the directory, removes the marker and synchronises again.
    method FinishRecovery(ghost d: Disk, ghost order: seq<File>, ghost safe: bool,
                          ghost x: Creds, ghost a: Creds, ghost b: Creds)
      returns (ok: bool, ghost syncs: Syncs, ghost n: nat)
      requires disk == StateAt(d, RecoverySteps(true, order, Syncs(false, false))[..|order|])
      requires safe ==> Phase(disk, true, order, |order|, x, a, b)
      modifies this
      ensures old(calls) <= calls && (Fine(old(calls)) ==> ok && syncs == Syncs(true, true))
      ensures n <= |RecoverySteps(true, order, syncs)| && disk == StateAt(d, RecoverySteps(true, order, syncs)[..n])
      ensures n == |order| + if ok then 3 else 1
      ensures old(seen) <= seen
      ensures safe ==> SafeSince(|old(seen)|, a, b) && Phase(disk, true, order, n, x, a, b)
      ensures safe && ok ==> (syncs.renames || syncs.removal ==> Settled(disk, x))
    {
      hide Phase, Admits, Settled, Lists, Live, Logged, DirSynced, RecoverySteps, StateAt, After, Sync;
      n := |order|;
      var synced := SyncSafely(order, n, safe, x, a, b);
      syncs := Syncs(synced, false);
      FinishSteps(d, order, syncs);
      SamePrefix(order, n, Syncs(false, false), syncs);
      n := n + 1;
      ok := RemoveMarker(order, safe, x, a, b);
      if !ok {
        return;
      }
      n := n + 1;
      synced := SyncSafely(order, n, safe, x, a, b);
      SamePrefix(order, n, syncs, Syncs(syncs.renames, synced));
      syncs, n := Syncs(syncs.renames, synced), n + 1;
      FinishSteps(d, order, syncs);
    }

    method SyncSafely(ghost order: seq<File>, ghost n: nat, ghost safe: bool,
                      ghost x: Creds, ghost a: Creds, ghost b: Creds)
      returns (ghost synced: bool)
      requires n >= |order| && n != |order| + 1 && (safe ==> Phase(disk, true, order, n, x, a, b))
      modifies this
      ensures synced == succeeds(old(calls)) && calls == old(calls) + 1
      ensures disk == After(old(disk), Sync(synced)) && old(seen) <= seen
      ensures safe ==>
        && SafeSince(|old(seen)|, a, b) && Phase(disk, true, order, n + 1, x, a, b)
        && (synced || Settled(old(disk), x) ==> Settled(disk, x))
    {
      hide Phase, Admits, Settled, After, Sync;
      ghost var s := disk;
      synced := TrySync();
      if safe {
        SyncStep(s, order, n, synced, x, a, b);
        PhaseSafe(disk, true, order, n + 1, x, a, b);
      }
    }

    method RemoveMarker(ghost order: seq<File>, ghost safe: bool, ghost x: Creds, ghost a: Creds, ghost b: Creds)
      returns (ok: bool)
      requires safe ==> Phase(disk, true, order, |order| + 1, x, a, b)
      modifies this
      ensures ok == succeeds(old(calls)) && calls == old(calls) + 1
      ensures old(seen) <= seen
      ensures disk == if ok then After(old(disk), Log(Unlink(Marker))) else old(disk)
      ensures safe ==> SafeSince(|old(seen)|, a, b)
      ensures safe && ok ==>
        Phase(disk, true, order, |order| + 2, x, a, b) && (Settled(old(disk), x) ==> Settled(disk, x))
    {
      hide Phase, Admits, Settled, After, Logged;
      ghost var s := disk;
      if safe {
        RemovalStep(s, order, x, a, b);
        PhaseSafe(After(s, Log(Unlink(Marker))), true, order, |order| + 2, x, a, b);
      }
      LoggedIsAfter(s, Unlink(Marker));
      ok := Change(Unlink(Marker));
    }
  }
}
