/** Crash recovery of one credential directory: what each of its steps leaves to a power failure. */
module Recovery {
  import opened Disk

  // One directory operation of a recovery; Unsynced is a synchronisation that failed without anybody looking.
  datatype Step = Log(e: Entry) | SyncDir | Unsynced

  function After(d: Disk, s: Step): Disk {
    match s
    case Log(e) => Logged(d, e)
    case SyncDir => DirSynced(d)
    case Unsynced => d
  }

  function StateAt(d: Disk, steps: seq<Step>): Disk {
    if steps == [] then d
    else After(StateAt(d, steps[..|steps| - 1]), steps[|steps| - 1])
  }

  ghost predicate Lists(order: seq<File>, dir: Dir) {
    && (forall f: File :: Pending(f) in dir <==> f in order)
    && (forall i, j | 0 <= i < j < |order| :: order[i] != order[j])
  }

  // Which of the two synchronisations of a recovery succeed.
  datatype Syncs = Syncs(renames: bool, removal: bool)

  function Sync(succeeds: bool): Step {
    if succeeds then SyncDir else Unsynced
  }

  function Handle(marked: bool, f: File): Step {
    Log(if marked then Move(Pending(f), Final(f)) else Unlink(Pending(f)))
  }

  // What recovery does, given whether the marker exists and the order the pending files are read in.
  function RecoverySteps(marked: bool, order: seq<File>, syncs: Syncs): seq<Step> {
    seq(|order|, i requires 0 <= i < |order| => Handle(marked, order[i]))
    + if marked then [Sync(syncs.renames), Log(Unlink(Marker)), Sync(syncs.removal)] else []
  }

  /** The disk stands for x, and a power failure would leave a or b. Recovery chooses x,
      because x is what the live directory holds with the marker taken into account. */
  ghost predicate Stands(d: Disk, x: Creds, a: Creds, b: Creds) {
    (x == a || x == b) && Admits(d, a, b) && Holds(d.inodes, Live(d), x)
  }

  // A disk that admits a or b after a power failure also stands for one of them as it is.
  lemma AdmitsStands(d: Disk, a: Creds, b: Creds)
    requires Admits(d, a, b)
    ensures Stands(d, a, a, b) || Stands(d, b, a, b)
  {
    LiveHolds(d, a, b);
  }

  lemma SettledStands(d: Disk, x: Creds, a: Creds, b: Creds)
    requires Settled(d, x) && (x == a || x == b)
    ensures Stands(d, x, a, b)
  {
    LiveHolds(d, x, x);
  }

  // An entry that does not change what the directory stands for changes no outcome.
  lemma LoggedStands(d: Disk, e: Entry, x: Creds, a: Creds, b: Creds)
    requires Stands(d, x, a, b) && Resolve(Enter(Live(d), e)) == Resolve(Live(d))
    ensures Stands(Logged(d, e), x, a, b) && Live(Logged(d, e)) == Enter(Live(d), e)
  {
    LoggedReplays(d, e);
    assert Holds(d.inodes, Enter(Live(d), e), x);
    LoggedAdmits(d, e, a, b);
  }

  lemma SyncedStands(d: Disk, x: Creds, a: Creds, b: Creds)
    requires Stands(d, x, a, b)
    ensures Stands(DirSynced(d), x, a, b) && Settled(DirSynced(d), x) && Live(DirSynced(d)) == Live(d)
  {
    DirSyncedAdmits(d, x);
    SettledStands(DirSynced(d), x, a, b);
  }

  // How far a recovery has come after n of its steps.
  ghost predicate Phase(s: Disk, marked: bool, order: seq<File>, n: nat, x: Creds, a: Creds, b: Creds) {
    && Stands(s, x, a, b)
    && if !marked then n <= |order| && Marker !in Live(s) && Lists(order[n..], Live(s))
       else if n <= |order| then Marker in Live(s) && Lists(order[n..], Live(s))
       else (Marker in Live(s) <==> n == |order| + 1) && forall f: File :: Pending(f) !in Live(s)
  }

  lemma ListsNext(order: seq<File>, n: nat, dir: Dir, next: Dir)
    requires n < |order| && Lists(order[n..], dir)
    requires forall f: File :: Pending(f) in next <==> Pending(f) in dir && f != order[n]
    ensures Pending(order[n]) in dir && Lists(order[n + 1..], next)
  {
    var rest := order[n..];
    assert rest[0] == order[n] && rest[1..] == order[n + 1..];
  }

  lemma ListsNothing(order: seq<File>, dir: Dir)
    requires Lists(order[|order|..], dir)
    ensures forall f: File :: Pending(f) !in dir
  {
    assert order[|order|..] == [];
  }

  lemma HandleStep(s: Disk, marked: bool, order: seq<File>, n: nat, x: Creds, a: Creds, b: Creds)
    requires Phase(s, marked, order, n, x, a, b) && n < |order|
    ensures Phase(After(s, Handle(marked, order[n])), marked, order, n + 1, x, a, b)
  {
    hide Stands, Admits;
    var f := order[n];
    assert order[n..][0] == f;
    if marked {
      MoveKeepsResolve(Live(s), f);
      LoggedStands(s, Move(Pending(f), Final(f)), x, a, b);
      ListsNext(order, n, Live(s), Enter(Live(s), Move(Pending(f), Final(f))));
    } else {
      DiscardKeepsResolve(Live(s), f);
      LoggedStands(s, Unlink(Pending(f)), x, a, b);
      ListsNext(order, n, Live(s), Enter(Live(s), Unlink(Pending(f))));
    }
  }

  lemma SyncStep(s: Disk, order: seq<File>, n: nat, succeeds: bool, x: Creds, a: Creds, b: Creds)
    requires Phase(s, true, order, n, x, a, b) && n >= |order| && n != |order| + 1
    ensures Phase(After(s, Sync(succeeds)), true, order, n + 1, x, a, b)
    ensures succeeds || Settled(s, x) ==> Settled(After(s, Sync(succeeds)), x)
  {
    hide Stands, Settled, Live;
    if n == |order| {
      ListsNothing(order, Live(s));
    }
    if succeeds {
      SyncedStands(s, x, a, b);
    }
  }

  lemma RemovalStep(s: Disk, order: seq<File>, x: Creds, a: Creds, b: Creds)
    requires Phase(s, true, order, |order| + 1, x, a, b)
    ensures Phase(After(s, Log(Unlink(Marker))), true, order, |order| + 2, x, a, b)
    ensures Settled(s, x) ==> Settled(After(s, Log(Unlink(Marker))), x)
  {
    hide Stands, Settled;
    MarkerGoesWhenNothingPends(Live(s));
    LoggedStands(s, Unlink(Marker), x, a, b);
    if Settled(s, x) {
      SettledStands(s, x, x, x);
      LoggedStands(s, Unlink(Marker), x, x, x);
      StandsMeans(After(s, Log(Unlink(Marker))), x, x, x);
    }
  }

  lemma StandsMeans(d: Disk, x: Creds, a: Creds, b: Creds)
    requires Stands(d, x, a, b)
    ensures (x == a || x == b) && Admits(d, a, b) && Holds(d.inodes, Live(d), x)
    ensures a == b ==> Settled(d, x)
  {
  }

  lemma PhaseStart(d: Disk, order: seq<File>, x: Creds, a: Creds, b: Creds)
    requires Stands(d, x, a, b) && Lists(order, Live(d))
    ensures Phase(d, Marker in Live(d), order, 0, x, a, b)
  {
    assert order[0..] == order;
  }

  lemma PhaseEnds(s: Disk, marked: bool, order: seq<File>, n: nat, x: Creds, a: Creds, b: Creds)
    requires Phase(s, marked, order, n, x, a, b) && n == |order| + if marked then 3 else 0
    ensures Clean(Live(s))
  {
    if !marked {
      ListsNothing(order, Live(s));
    }
  }

  lemma StateAtNext(d: Disk, steps: seq<Step>, n: nat)
    requires n < |steps|
    ensures StateAt(d, steps[..n + 1]) == After(StateAt(d, steps[..n]), steps[n])
  {
    assert steps[..n + 1][..n] == steps[..n];
  }

  lemma StateAtNothing(d: Disk, steps: seq<Step>)
    ensures StateAt(d, steps[..0]) == d
  {
    assert steps[..0] == [];
  }

  // The steps one by one.
  lemma TheSteps(marked: bool, order: seq<File>, syncs: Syncs)
    ensures
      var steps := RecoverySteps(marked, order, syncs);
      && |steps| == |order| + (if marked then 3 else 0)
      && (forall i | 0 <= i < |order| :: steps[i] == Handle(marked, order[i]))
      && (marked ==> steps[|order|..] == [Sync(syncs.renames), Log(Unlink(Marker)), Sync(syncs.removal)])
      && (marked ==> steps[|order|] == Sync(syncs.renames) && steps[|order| + 1] == Log(Unlink(Marker))
                     && steps[|order| + 2] == Sync(syncs.removal))
  {
  }

  lemma {:induction false} PhaseAt(d: Disk, order: seq<File>, syncs: Syncs, n: nat, x: Creds, a: Creds, b: Creds)
    requires Stands(d, x, a, b) && Lists(order, Live(d))
    requires n <= |RecoverySteps(Marker in Live(d), order, syncs)|
    ensures
      var marked := Marker in Live(d);
      var s := StateAt(d, RecoverySteps(marked, order, syncs)[..n]);
      && Phase(s, marked, order, n, x, a, b)
      && ((n > |order| && syncs.renames) || (n > |order| + 2 && syncs.removal) ==> marked ==> Settled(s, x))
  {
    hide Phase, Settled, RecoverySteps, Sync, Handle, Stands, After, StateAt, Live;
    var marked := Marker in Live(d);
    var steps := RecoverySteps(marked, order, syncs);
    TheSteps(marked, order, syncs);
    if n == 0 {
      StateAtNothing(d, steps);
      PhaseStart(d, order, x, a, b);
    } else {
      var s := StateAt(d, steps[..n - 1]);
      PhaseAt(d, order, syncs, n - 1, x, a, b);
      StateAtNext(d, steps, n - 1);
      if n <= |order| {
        HandleStep(s, marked, order, n - 1, x, a, b);
      } else if n == |order| + 1 {
        SyncStep(s, order, n - 1, syncs.renames, x, a, b);
      } else if n == |order| + 2 {
        RemovalStep(s, order, x, a, b);
      } else {
        SyncStep(s, order, n - 1, syncs.removal, x, a, b);
      }
    }
  }

  lemma PhaseStands(s: Disk, marked: bool, order: seq<File>, n: nat, x: Creds, a: Creds, b: Creds)
    requires Phase(s, marked, order, n, x, a, b)
    ensures Stands(s, x, a, b)
  {
  }

  /** Whatever order the directory is listed in, and whether or not the synchronisations succeed: in every state
      of a recovery the disk stands for what it stood for, and a power failure leaves no third file set. The whole
      recovery leaves no trace of the rotation, and one successful synchronisation makes its choice durable. */
  lemma RecoveryIsSafe(d: Disk, order: seq<File>, syncs: Syncs, n: nat, x: Creds, a: Creds, b: Creds)
    requires Stands(d, x, a, b) && Lists(order, Live(d))
    requires n <= |RecoverySteps(Marker in Live(d), order, syncs)|
    ensures
      var marked := Marker in Live(d);
      var steps := RecoverySteps(marked, order, syncs);
      var s := StateAt(d, steps[..n]);
      && Stands(s, x, a, b)
      && (n == |steps| ==> Clean(Live(s)) && (marked && (syncs.renames || syncs.removal) ==> Settled(s, x)))
  {
    hide Phase, Stands, Settled;
    var marked := Marker in Live(d);
    var s := StateAt(d, RecoverySteps(marked, order, syncs)[..n]);
    PhaseAt(d, order, syncs, n, x, a, b);
    PhaseStands(s, marked, order, n, x, a, b);
    TheSteps(marked, order, syncs);
    if n == |order| + if marked then 3 else 0 {
      PhaseEnds(s, marked, order, n, x, a, b);
    }
  }

  // ----- a marker that is overlooked -----

  // The pending file is not just a copy of the final one.
  ghost predicate Differs(d: Disk, f: File) {
    var dir := Live(d);
    && Pending(f) in dir
    && !(&& Final(f) in dir && dir[Final(f)] in d.inodes && dir[Pending(f)] in d.inodes
         && d.inodes[dir[Final(f)]] == d.inodes[dir[Pending(f)]])
  }

  // The final files alone are a or b.
  ghost predicate FinalsAre(d: Disk, a: Creds, b: Creds) {
    Holds(d.inodes, Live(d) - {Marker}, a) || Holds(d.inodes, Live(d) - {Marker}, b)
  }

  /** Any error in looking for the marker reads as its absence, so the pending files are discarded though the marker
      is there. This does no harm if the final files alone are one of the two sets, and at most one pending file
      differs. */
  ghost predicate Harmless(d: Disk, a: Creds, b: Creds) {
    FinalsAre(d, a, b) && forall f, g | Differs(d, f) && Differs(d, g) :: f == g
  }

  // Recovery believes what it reads.
  function Believed(d: Disk, misread: bool): bool {
    Marker in Live(d) && !misread
  }

  // The disk after the first n pending files were discarded.
  function Discarding(d: Disk, order: seq<File>, n: nat): Disk
    requires n <= |order|
  {
    if n == 0 then d else Logged(Discarding(d, order, n - 1), Unlink(Pending(order[n - 1])))
  }

  lemma {:induction false} DiscardingIsRecovering(d: Disk, order: seq<File>, syncs: Syncs, n: nat)
    requires n <= |order|
    ensures |RecoverySteps(false, order, syncs)| == |order|
    ensures StateAt(d, RecoverySteps(false, order, syncs)[..n]) == Discarding(d, order, n)
  {
    var steps := RecoverySteps(false, order, syncs);
    TheSteps(false, order, syncs);
    if n == 0 {
      StateAtNothing(d, steps);
    } else {
      DiscardingIsRecovering(d, order, syncs, n - 1);
      StateAtNext(d, steps, n - 1);
    }
  }

  lemma DiscardingAll(d: Disk, order: seq<File>, syncs: Syncs)
    ensures StateAt(d, RecoverySteps(false, order, syncs)) == Discarding(d, order, |order|)
  {
    var steps := RecoverySteps(false, order, syncs);
    DiscardingIsRecovering(d, order, syncs, |order|);
    assert steps[..|order|] == steps;
  }

  lemma NothingDiscarded(d: Disk, order: seq<File>)
    ensures Discarding(d, order, 0) == d
  {
  }

  // What is visible then.
  lemma {:induction false} StillThere(d: Disk, order: seq<File>, n: nat)
    requires n <= |order| && Lists(order, Live(d))
    ensures
      var s := Discarding(d, order, n);
      && s.inodes == d.inodes
      && (Marker in Live(s) <==> Marker in Live(d))
      && (forall f: File :: Final(f) in Live(s) <==> Final(f) in Live(d))
      && (forall f: File | Final(f) in Live(s) :: Live(s)[Final(f)] == Live(d)[Final(f)])
      && (forall f: File :: Pending(f) in Live(s) <==> f in order[n..])
      && (forall f: File | Pending(f) in Live(s) :: Live(s)[Pending(f)] == Live(d)[Pending(f)])
  {
    if n == 0 {
      assert order[0..] == order;
    } else {
      StillThere(d, order, n - 1);
      var s := Discarding(d, order, n - 1);
      var e := Unlink(Pending(order[n - 1]));
      LoggedReplays(s, e);
      assert order[n - 1..] == [order[n - 1]] + order[n..];
      assert order[n - 1] !in order[n..];
      hide Live;
      assert Live(Logged(s, e)) == Live(s) - {Pending(order[n - 1])};
    }
  }

  // A file set shown before and after a pending file was discarded means that the pending file was a copy.
  lemma DiscardedCopy(d: Disk, order: seq<File>, n: nat, m: nat, k: nat, y: Creds)
    requires n <= k < m <= |order| && Lists(order, Live(d)) && Marker in Live(d)
    requires Holds(d.inodes, Live(Discarding(d, order, n)), y) && Holds(d.inodes, Live(Discarding(d, order, m)), y)
    ensures !Differs(d, order[k])
  {
    StillThere(d, order, n);
    StillThere(d, order, m);
    hide Live, Discarding;
    var f := order[k];
    assert order[n..][k - n] == f && f !in order[m..];
    var before, after := Live(Discarding(d, order, n)), Live(Discarding(d, order, m));
    assert f in Resolve(before) && Resolve(before)[f] == before[Pending(f)];
    assert f in Resolve(after) && Resolve(after)[f] == after[Final(f)];
  }

  // Discarding copies shows nothing new.
  lemma CopiesDiscarded(d: Disk, order: seq<File>, n: nat, m: nat, y: Creds)
    requires n <= m <= |order| && Lists(order, Live(d)) && Marker in Live(d)
    requires forall k | n <= k < m :: !Differs(d, order[k])
    ensures Holds(d.inodes, Live(Discarding(d, order, n)), y) <==> Holds(d.inodes, Live(Discarding(d, order, m)), y)
  {
    StillThere(d, order, n);
    StillThere(d, order, m);
    var before, after := Live(Discarding(d, order, n)), Live(Discarding(d, order, m));
    hide Live, Discarding, Holds;
    forall f: File
      ensures f in Resolve(before) <==> f in Resolve(after)
      ensures f in Resolve(before) ==>
        SameContent(d.inodes, Resolve(before)[f], Resolve(after)[f])
    {
      DiscardedOne(d, order, n, m, f);
    }
    HoldsAlike(d.inodes, before, after, y);
  }

  ghost predicate SameContent(inodes: map<Inode, Content>, i: Inode, j: Inode) {
    i == j || (i in inodes && j in inodes && inodes[i] == inodes[j])
  }

  lemma DiscardedOne(d: Disk, order: seq<File>, n: nat, m: nat, f: File)
    requires n <= m <= |order| && Lists(order, Live(d)) && Marker in Live(d)
    requires forall k | n <= k < m :: !Differs(d, order[k])
    ensures
      var before, after := Resolve(Live(Discarding(d, order, n))), Resolve(Live(Discarding(d, order, m)));
      (f in before <==> f in after) && (f in before ==> SameContent(d.inodes, before[f], after[f]))
  {
    StillThere(d, order, n);
    StillThere(d, order, m);
    ListedBetween(order, n, m, f);
    ListedNotDiffers(d, order, n, m, f);
    hide Live, Discarding, Differs, Lists;
  }

  lemma ListedBetween(order: seq<File>, n: nat, m: nat, f: File)
    requires n <= m <= |order|
    ensures f in order[m..] ==> f in order[n..]
  {
    if f in order[m..] {
      var k :| 0 <= k < |order[m..]| && order[m..][k] == f;
      assert order[n..][k + m - n] == f;
    }
  }

  lemma ListedNotDiffers(d: Disk, order: seq<File>, n: nat, m: nat, f: File)
    requires n <= m <= |order| && Lists(order, Live(d)) && forall k | n <= k < m :: !Differs(d, order[k])
    ensures f in order[n..] && f !in order[m..] ==>
      && Final(f) in Live(d) && Pending(f) in Live(d)
      && SameContent(d.inodes, Live(d)[Pending(f)], Live(d)[Final(f)])
  {
    if f in order[n..] && f !in order[m..] {
      assert order[n..] == order[n..m] + order[m..];
      var k :| 0 <= k < m - n && order[n..m][k] == f;
      assert !Differs(d, order[n + k]) && f in order;
    }
  }

  lemma HoldsAlike(inodes: map<Inode, Content>, before: Dir, after: Dir, y: Creds)
    requires forall f: File :: f in Resolve(before) <==> f in Resolve(after)
    requires forall f: File | f in Resolve(before) :: SameContent(inodes, Resolve(before)[f], Resolve(after)[f])
    ensures Holds(inodes, before, y) <==> Holds(inodes, after, y)
  {
    hide Resolve;
    assert Resolve(before).Keys == Resolve(after).Keys;
  }

  lemma AllDiscarded(d: Disk, order: seq<File>, a: Creds, b: Creds)
    requires Lists(order, Live(d)) && Marker in Live(d)
    ensures
      var s := Discarding(d, order, |order|);
      && s.inodes == d.inodes && Marker in Live(s) && (forall f: File :: Pending(f) !in Live(s))
      && (FinalsAre(d, a, b) <==> Holds(d.inodes, Live(s), a) || Holds(d.inodes, Live(s), b))
  {
    StillThere(d, order, |order|);
    var s := Discarding(d, order, |order|);
    assert order[|order|..] == [];
    hide Live, Discarding;
    assert Resolve(Live(s)) == Resolve(Live(d) - {Marker});
  }

  // A power failure during the discarding leaves what is visible at some point of it, or what it left before.
  lemma {:induction false} DiscardingAdmits(d: Disk, order: seq<File>, n: nat, a: Creds, b: Creds)
    requires n <= |order| && Lists(order, Live(d)) && Admits(d, a, b)
    requires forall m | 0 <= m <= n ::
        Holds(d.inodes, Live(Discarding(d, order, m)), a) || Holds(d.inodes, Live(Discarding(d, order, m)), b)
    ensures Admits(Discarding(d, order, n), a, b)
  {
    hide Live, Holds, Admits;
    if n == 0 {
    } else {
      DiscardingAdmits(d, order, n - 1, a, b);
      var s := Discarding(d, order, n - 1);
      StillThere(d, order, n - 1);
      LoggedReplays(s, Unlink(Pending(order[n - 1])));
      assert Live(Discarding(d, order, n)) == Enter(Live(s), Unlink(Pending(order[n - 1])));
      LoggedAdmits(s, Unlink(Pending(order[n - 1])), a, b);
    }
  }

  ghost predicate SafelyDiscarding(d: Disk, order: seq<File>, a: Creds, b: Creds) {
    forall n | 0 <= n <= |order| :: Admits(Discarding(d, order, n), a, b)
  }

  lemma SafeIsHarmless(d: Disk, order: seq<File>, a: Creds, b: Creds)
    requires Lists(order, Live(d)) && Marker in Live(d) && SafelyDiscarding(d, order, a, b)
    ensures Harmless(d, a, b)
  {
    hide Live, Holds, Admits, Differs, Discarding, Lists;
    forall n | 0 <= n <= |order|
      ensures Holds(d.inodes, Live(Discarding(d, order, n)), a) || Holds(d.inodes, Live(Discarding(d, order, n)), b)
    {
      StillThere(d, order, n);
      LiveHolds(Discarding(d, order, n), a, b);
    }
    AllDiscarded(d, order, a, b);
    forall i, j | 0 <= i < j < |order| && Differs(d, order[i]) && Differs(d, order[j]) ensures false {
      TwoDiffer(d, order, i, j, a, b);
    }
    forall f, g | Differs(d, f) && Differs(d, g) ensures f == g {
      DiffersIsListed(d, order, f);
      DiffersIsListed(d, order, g);
    }
  }

  lemma DiffersIsListed(d: Disk, order: seq<File>, f: File)
    requires Lists(order, Live(d)) && Differs(d, f)
    ensures f in order
  {
  }

  // Two pending files that differ show three file sets one after the other.
  lemma TwoDiffer(d: Disk, order: seq<File>, i: nat, j: nat, a: Creds, b: Creds)
    requires i < j < |order| && Lists(order, Live(d)) && Marker in Live(d)
    requires Differs(d, order[i]) && Differs(d, order[j])
    ensures exists n | 0 <= n <= |order| ::
        !Holds(d.inodes, Live(Discarding(d, order, n)), a) && !Holds(d.inodes, Live(Discarding(d, order, n)), b)
  {
    hide Live, Holds, Differs, Discarding, Lists;
    var shown := (n: nat, y: Creds) => n <= |order| && Holds(d.inodes, Live(Discarding(d, order, n)), y);
    forall y: Creds, n: nat, m: nat | shown(n, y) && shown(m, y) && n < m
      ensures !(n <= i < m) && !(n <= j < m)
    {
      if n <= i < m {
        DiscardedCopy(d, order, n, m, i, y);
      } else if n <= j < m {
        DiscardedCopy(d, order, n, m, j, y);
      }
    }
    assert !(shown(i, a) && shown(i + 1, a)) && !(shown(i, b) && shown(i + 1, b));
    assert !(shown(i, a) && shown(j + 1, a)) && !(shown(i, b) && shown(j + 1, b));
    assert !(shown(i + 1, a) && shown(j + 1, a)) && !(shown(i + 1, b) && shown(j + 1, b));
    var n := if !shown(i, a) && !shown(i, b) then i
             else if !shown(i + 1, a) && !shown(i + 1, b) then i + 1 else j + 1;
    assert !shown(n, a) && !shown(n, b);
  }

  lemma HarmlessIsSafe(d: Disk, order: seq<File>, a: Creds, b: Creds)
    requires Lists(order, Live(d)) && Marker in Live(d) && Admits(d, a, b) && Harmless(d, a, b)
    ensures SafelyDiscarding(d, order, a, b)
  {
    hide Live, Holds, Admits, Differs, Discarding, Lists;
    NothingDiscarded(d, order);
    LiveHolds(d, a, b);
    AllDiscarded(d, order, a, b);
    forall n | 0 <= n <= |order|
      ensures Holds(d.inodes, Live(Discarding(d, order, n)), a) || Holds(d.inodes, Live(Discarding(d, order, n)), b)
    {
      if k :| 0 <= k < n && Differs(d, order[k]) {
        forall m | n <= m < |order| ensures !Differs(d, order[m]) {
          ListedOnce(order, Live(d), k, m);
        }
        CopiesDiscarded(d, order, n, |order|, a);
        CopiesDiscarded(d, order, n, |order|, b);
      } else {
        CopiesDiscarded(d, order, 0, n, a);
        CopiesDiscarded(d, order, 0, n, b);
      }
    }
    forall n | 0 <= n <= |order| ensures Admits(Discarding(d, order, n), a, b) {
      DiscardingAdmits(d, order, n, a, b);
    }
  }

  lemma ListedOnce(order: seq<File>, dir: Dir, i: nat, j: nat)
    requires Lists(order, dir) && i < j < |order|
    ensures order[i] != order[j]
  {
  }

  /** A recovery that overlooks the marker, whatever order the directory is listed in: a power failure at any of its
      steps leaves one of the two file sets exactly when overlooking it is harmless. Without a power failure it ends
      with one of them exactly when the final files alone are one. The marker stays behind. */
  lemma MisreadDecides(d: Disk, order: seq<File>, a: Creds, b: Creds)
    requires Lists(order, Live(d)) && Marker in Live(d) && Admits(d, a, b)
    ensures SafelyDiscarding(d, order, a, b) <==> Harmless(d, a, b)
    ensures
      var end := Discarding(d, order, |order|);
      && (Holds(end.inodes, Live(end), a) || Holds(end.inodes, Live(end), b) <==> FinalsAre(d, a, b))
      && Marker in Live(end) && forall f: File :: Pending(f) !in Live(end)
  {
    hide Live, Holds, Admits, Harmless, FinalsAre, Discarding, Lists, SafelyDiscarding;
    AllDiscarded(d, order, a, b);
    if Harmless(d, a, b) {
      HarmlessIsSafe(d, order, a, b);
    }
    if SafelyDiscarding(d, order, a, b) {
      SafeIsHarmless(d, order, a, b);
    }
  }

  // Half of a rotation is renamed, the marker is durable, and the next process cannot look for it.
  function HalfRenamed(ca: Data, oldCert: Data, cert: Data): Disk {
    Disk(map[Marker := 0, Final(CaCert) := 1, Final(DeviceCert) := 2, Pending(DeviceCert) := 3], [],
         map[0 := Content(Text(""), true), 1 := Content(ca, true),
             2 := Content(oldCert, true), 3 := Content(cert, true)])
  }

  function TwoCerts(ca: Data, cert: Data): Creds {
    map[CaCert := ca, DeviceCert := cert]
  }

  lemma HalfRenamedIsNew(ca: Data, oldCert: Data, cert: Data)
    ensures Settled(HalfRenamed(ca, oldCert, cert), TwoCerts(ca, cert))
  {
    var d := HalfRenamed(ca, oldCert, cert);
    var dir := d.durable;
    var r := Resolve(dir);
    assert r.Keys == {CaCert, DeviceCert};
    assert r[CaCert] == 1 && r[DeviceCert] == 3;
    assert Holds(d.inodes, dir, TwoCerts(ca, cert));
    hide Holds;
    forall k: nat | k <= |d.log| ensures Survivor(d, k) == dir {
      assert d.log[..k] == [];
    }
  }

  lemma HalfDiscarded(ca: Data, oldCert: Data, cert: Data)
    ensures
      var d := HalfRenamed(ca, oldCert, cert);
      var end := Discarding(d, [DeviceCert], 1);
      end.inodes == d.inodes && Live(d) == d.durable && Live(end) == d.durable - {Pending(DeviceCert)}
  {
    var d := HalfRenamed(ca, oldCert, cert);
    assert Discarding(d, [DeviceCert], 0) == d;
    LoggedReplays(d, Unlink(Pending(DeviceCert)));
    hide Live, HalfRenamed;
  }

  // With the marker and no pending file, the final file shows.
  lemma FinalShows(inodes: map<Inode, Content>, dir: Dir, f: File, y: Creds)
    requires Holds(inodes, dir, y) && Pending(f) !in dir && Final(f) in dir && f in y
    ensures inodes[dir[Final(f)]].data == y[f]
  {
    assert f in Resolve(dir) && Resolve(dir)[f] == dir[Final(f)];
  }

  /** The pending half is discarded, and what is left is neither the old nor the new file set. */
  lemma MisreadMixes(oldCa: Data, ca: Data, oldCert: Data, cert: Data)
    requires oldCa != ca && oldCert != cert
    ensures
      var d := HalfRenamed(ca, oldCert, cert);
      var end := Discarding(d, [DeviceCert], 1);
      && Settled(d, TwoCerts(ca, cert)) && Lists([DeviceCert], Live(d))
      && !Holds(end.inodes, Live(end), TwoCerts(oldCa, oldCert)) && !Holds(end.inodes, Live(end), TwoCerts(ca, cert))
  {
    HalfRenamedIsNew(ca, oldCert, cert);
    HalfDiscarded(ca, oldCert, cert);
    hide Settled, Live, Discarding, Holds;
    assert [DeviceCert][0] == DeviceCert;
    var d := HalfRenamed(ca, oldCert, cert);
    var dir := d.durable - {Pending(DeviceCert)};
    if Holds(d.inodes, dir, TwoCerts(oldCa, oldCert)) {
      FinalShows(d.inodes, dir, CaCert, TwoCerts(oldCa, oldCert));
    }
    if Holds(d.inodes, dir, TwoCerts(ca, cert)) {
      FinalShows(d.inodes, dir, DeviceCert, TwoCerts(ca, cert));
    }
  }

  // A power failure may leave what is no file set at all.
  ghost predicate Nowhere(d: Disk) {
    forall a: Creds, b: Creds :: !Admits(d, a, b)
  }

  /** The marker that stays behind makes every later write unsafe: a pending file
      beside it already shows through while its bytes are still unknown. */
  lemma NothingMayBeStaged(d: Disk, f: File)
    requires Marker in Live(d) && Pending(f) in Live(d)
    requires Live(d)[Pending(f)] in d.inodes ==> !d.inodes[Live(d)[Pending(f)]].synced
    ensures Nowhere(d)
  {
    hide Live;
    assert f in Resolve(Live(d)) && Resolve(Live(d))[f] == Live(d)[Pending(f)];
    assert forall y: Creds :: !Holds(d.inodes, Live(d), y);
    hide Holds, Resolve;
    forall a: Creds, b: Creds ensures !Admits(d, a, b) {
      if Admits(d, a, b) {
        LiveHolds(d, a, b);
      }
    }
  }

  // ----- repeated interruptions -----

  // A recovery that was cut off after some of its steps, by a power failure or by the end of the process.
  datatype Attempt = Attempt(misread: bool, order: seq<File>, syncs: Syncs, steps: nat, left: Disk)

  function Attempted(d: Disk, t: Attempt): seq<Step> {
    RecoverySteps(Believed(d, t.misread), t.order, t.syncs)
  }

  // An attempt may overlook the marker where that is harmless.
  ghost predicate Interrupted(d: Disk, attempts: seq<Attempt>, a: Creds, b: Creds)
    decreases |attempts|
  {
    attempts == [] ||
    var t := attempts[0];
    && Lists(t.order, Live(d)) && (t.misread && Marker in Live(d) ==> Harmless(d, a, b))
    && t.steps <= |Attempted(d, t)|
    && (Crash(StateAt(d, Attempted(d, t)[..t.steps]), t.left) || t.left == StateAt(d, Attempted(d, t)[..t.steps]))
    && Interrupted(t.left, attempts[1..], a, b)
  }

  lemma AttemptAdmits(d: Disk, t: Attempt, a: Creds, b: Creds)
    requires Admits(d, a, b) && Lists(t.order, Live(d)) && t.steps <= |Attempted(d, t)|
    requires t.misread && Marker in Live(d) ==> Harmless(d, a, b)
    ensures Admits(StateAt(d, Attempted(d, t)[..t.steps]), a, b)
  {
    hide Stands, Admits, Lists, Live, Harmless, RecoverySteps;
    if t.misread && Marker in Live(d) {
      HarmlessIsSafe(d, t.order, a, b);
      DiscardingIsRecovering(d, t.order, t.syncs, 0);
      DiscardingIsRecovering(d, t.order, t.syncs, t.steps);
    } else {
      AdmitsStands(d, a, b);
      var x := if Stands(d, a, a, b) then a else b;
      RecoveryIsSafe(d, t.order, t.syncs, t.steps, x, a, b);
      StandsMeans(StateAt(d, Attempted(d, t)[..t.steps]), x, a, b);
    }
  }

  function LastDisk(d: Disk, attempts: seq<Attempt>): Disk {
    if attempts == [] then d else attempts[|attempts| - 1].left
  }

  lemma CrashAdmits(d: Disk, c: Disk, a: Creds, b: Creds)
    requires Admits(d, a, b) && Crash(d, c)
    ensures Admits(c, a, b)
  {
    CrashSettles(d, c, a, b);
  }

  lemma LastRecovery(d: Disk, order: seq<File>, syncs: Syncs, a: Creds, b: Creds)
    requires Admits(d, a, b) && Lists(order, Live(d))
    ensures
      var end := StateAt(d, RecoverySteps(Marker in Live(d), order, syncs));
      (Stands(end, a, a, b) || Stands(end, b, a, b)) && Clean(Live(end))
  {
    hide Stands, Admits, Lists, RecoverySteps, StateAt, Live, Clean;
    AdmitsStands(d, a, b);
    var x := if Stands(d, a, a, b) then a else b;
    var steps := RecoverySteps(Marker in Live(d), order, syncs);
    assert steps[..|steps|] == steps;
    RecoveryIsSafe(d, order, syncs, |steps|, x, a, b);
    StandsMeans(StateAt(d, steps), x, a, b);
  }

  /** From any state that admits a or b: any number of power failures and process crashes, each at any step of a
      recovery, even one that overlooks the marker where that is harmless, then one recovery that reads it and runs to
      its end. The disk stands for exactly a or exactly b, with no trace of the rotation. With a == b, as after a power
      failure, this is the file set that the first failure left. */
  lemma {:induction false} RepeatedCrashesConverge(d: Disk, attempts: seq<Attempt>, order: seq<File>, syncs: Syncs,
                                                   a: Creds, b: Creds)
    requires Admits(d, a, b) && Interrupted(d, attempts, a, b)
    requires Lists(order, Live(LastDisk(d, attempts)))
    ensures
      var last := LastDisk(d, attempts);
      var end := StateAt(last, RecoverySteps(Marker in Live(last), order, syncs));
      (Stands(end, a, a, b) || Stands(end, b, a, b)) && Clean(Live(end))
    decreases |attempts|
  {
    hide Stands, Admits, Lists, Harmless, RecoverySteps, StateAt, Live, Crash, Clean;
    if attempts == [] {
      LastRecovery(d, order, syncs, a, b);
    } else {
      var t := attempts[0];
      var s := StateAt(d, Attempted(d, t)[..t.steps]);
      AttemptAdmits(d, t, a, b);
      if Crash(s, t.left) {
        CrashAdmits(s, t.left, a, b);
      }
      RepeatedCrashesConverge(t.left, attempts[1..], order, syncs, a, b);
    }
  }

  /** After a power failure the marker alone decides: with it the disk stands
      for the final files overlaid by the pending ones, without it for the final files. */
  lemma MarkerDecides(c: Disk, finals: Creds, pendings: Creds)
    requires c.log == []
    requires forall f: File :: Final(f) in c.durable <==> f in finals
    requires forall f: File :: Pending(f) in c.durable <==> f in pendings
    requires forall f | f in finals ::
      c.durable[Final(f)] in c.inodes && c.inodes[c.durable[Final(f)]] == Content(finals[f], true)
    requires forall f | f in pendings ::
      c.durable[Pending(f)] in c.inodes && c.inodes[c.durable[Pending(f)]] == Content(pendings[f], true)
    ensures Settled(c, if Marker in c.durable then finals + pendings else finals)
  {
    var x := if Marker in c.durable then finals + pendings else finals;
    assert Holds(c.inodes, c.durable, x);
    forall k: nat | k <= |c.log| ensures Holds(c.inodes, Survivor(c, k), x) {
      assert c.log[..k] == [];
    }
  }

  lemma PhaseSafe(s: Disk, marked: bool, order: seq<File>, n: nat, x: Creds, a: Creds, b: Creds)
    requires Phase(s, marked, order, n, x, a, b)
    ensures Admits(s, a, b)
  {
  }

  lemma PhaseMarked(s: Disk, marked: bool, order: seq<File>, n: nat, x: Creds, a: Creds, b: Creds)
    requires Phase(s, marked, order, n, x, a, b)
    ensures marked && n <= |order| + 1 ==> Marker in Live(s)
  {
  }

  lemma LoggedIsAfter(s: Disk, e: Entry)
    ensures After(s, Log(e)) == Logged(s, e)
  {
  }

  // What was done does not depend on synchronisations still to come.
  lemma SamePrefix(order: seq<File>, n: nat, s: Syncs, t: Syncs)
    requires n <= |order| || (n <= |order| + 2 && s.renames == t.renames)
    ensures RecoverySteps(true, order, s)[..n] == RecoverySteps(true, order, t)[..n]
  {
  }

  // The last three states of a recovery with the marker.
  lemma FinishSteps(d: Disk, order: seq<File>, syncs: Syncs)
    ensures
      var steps := RecoverySteps(true, order, syncs);
      var n := |order|;
      && |steps| == n + 3
      && StateAt(d, steps[..n + 1]) == After(StateAt(d, steps[..n]), Sync(syncs.renames))
      && StateAt(d, steps[..n + 2]) == After(StateAt(d, steps[..n + 1]), Log(Unlink(Marker)))
      && StateAt(d, steps[..n + 3]) == After(StateAt(d, steps[..n + 2]), Sync(syncs.removal))
  {
    TheSteps(true, order, syncs);
    hide RecoverySteps, Sync, StateAt, After;
    var steps := RecoverySteps(true, order, syncs);
    StateAtNext(d, steps, |order|);
    StateAtNext(d, steps, |order| + 1);
    StateAtNext(d, steps, |order| + 2);
  }

  // The states the disk passes through while the pending files are discarded.
  function Trail(d: Disk, order: seq<File>, n: nat): (t: seq<Disk>)
    requires n <= |order|
    ensures |t| == n && forall k | 0 <= k < n :: t[k] == Discarding(d, order, k + 1)
  {
    if n == 0 then [] else Trail(d, order, n - 1) + [Discarding(d, order, n)]
  }

  // Discarding without a marker keeps what the disk stands for.
  lemma DiscardedStands(d: Disk, end: Disk, order: seq<File>, x: Creds, a: Creds, b: Creds)
    requires Stands(d, x, a, b) && Lists(order, Live(d)) && end == Discarding(d, order, |order|)
    ensures Marker !in Live(d) ==> Stands(end, x, a, b) && Clean(Live(end))
  {
    hide Stands, Discarding, Lists, Clean, Live, StateAt, RecoverySteps;
    if Marker !in Live(d) {
      DiscardingIsRecovering(d, order, Syncs(false, false), |order|);
      RecoveryIsSafe(d, order, Syncs(false, false), |order|, x, a, b);
    }
  }

  lemma WithoutMarkerIsSafe(d: Disk, order: seq<File>, x: Creds, a: Creds, b: Creds)
    requires Stands(d, x, a, b) && Lists(order, Live(d)) && Marker !in Live(d)
    ensures SafelyDiscarding(d, order, a, b)
  {
    hide Stands, Discarding, Lists, Clean, Live, StateAt, RecoverySteps, Admits;
    forall n | 0 <= n <= |order| ensures Admits(Discarding(d, order, n), a, b) {
      DiscardingIsRecovering(d, order, Syncs(false, false), n);
      RecoveryIsSafe(d, order, Syncs(false, false), n, x, a, b);
      StandsMeans(Discarding(d, order, n), x, a, b);
    }
  }

  // What was recorded while discarding is safe exactly when there was no marker to overlook or that was harmless.
  lemma TrailSafe(d: Disk, order: seq<File>, before: seq<Disk>, seen: seq<Disk>, x: Creds, a: Creds, b: Creds)
    requires Stands(d, x, a, b)
    requires Lists(order, Live(d)) && seen == before + Trail(d, order, |order|)
    ensures
      (forall j | |before| <= j < |seen| :: Admits(seen[j], a, b)) <==> Marker !in Live(d) || Harmless(d, a, b)
  {
    hide Stands, Lists, Clean, Live, Admits, Harmless, Discarding;
    StandsMeans(d, x, a, b);
    NothingDiscarded(d, order);
    var k := |before|;
    assert (forall j | k <= j < |seen| :: Admits(seen[j], a, b)) <==> SafelyDiscarding(d, order, a, b) by {
      assert forall j | k <= j < |seen| :: seen[j] == Discarding(d, order, j - k + 1);
      if forall j | k <= j < |seen| :: Admits(seen[j], a, b) {
        forall n | 0 <= n <= |order| ensures Admits(Discarding(d, order, n), a, b) {
          assert n > 0 ==> seen[k + n - 1] == Discarding(d, order, n);
        }
      }
    }
    if Marker in Live(d) {
      MisreadDecides(d, order, a, b);
    } else {
      WithoutMarkerIsSafe(d, order, x, a, b);
    }
  }
}
