/** The directory that holds a device's credentials, on a disk that can lose power.

  A directory entry names an inode. Creating, renaming and removing entries is
  visible at once but only appended to a log; synchronising the directory makes
  the log durable. A crash keeps the durable directory plus some prefix of the
  log. Synchronising a file makes its bytes durable; the bytes of an inode that
  was never synchronised are arbitrary after a crash.
*/
module Disk {

  datatype ConnectionSettings = ConnectionSettings(deviceId: string, uri: string, region: string)
  datatype HostSettings = HostSettings(topics: string)

  // The bytes of a file. Marshalled settings are kept as the value they decode to.
  datatype Data = Text(text: string) | Conn(conn: ConnectionSettings) | Host(host: HostSettings)

  datatype File = CaCert | DeviceCert | PrivKey | ConnSettings | HostConf

  // `Pending(f)` is the file name of f with the suffix ".new", `Marker` is "new-creds-saved.done".
  datatype Name = Final(file: File) | Pending(file: File) | Marker

  type Inode = nat
  type Dir = map<Name, Inode>
  type Creds = map<File, Data>

  datatype Content = Content(data: Data, synced: bool)
  datatype Entry = Link(name: Name, inode: Inode) | Unlink(name: Name) | Move(from: Name, to: Name)
  datatype Disk = Disk(durable: Dir, log: seq<Entry>, inodes: map<Inode, Content>)

  function Enter(dir: Dir, e: Entry): Dir {
    match e
    case Link(n, i) => dir[n := i]
    case Unlink(n) => dir - {n}
    case Move(a, b) => if a in dir then (dir - {a})[b := dir[a]] else dir
  }

  function Replay(dir: Dir, log: seq<Entry>): Dir {
    if log == [] then dir
    else Enter(Replay(dir, log[..|log| - 1]), log[|log| - 1])
  }

  // The directory the running process sees.
  function Live(d: Disk): Dir {
    Replay(d.durable, d.log)
  }

  // The directory left by a crash that keeps the first k logged entries.
  function Survivor(d: Disk, k: nat): Dir
    requires k <= |d.log|
  {
    Replay(d.durable, d.log[..k])
  }

  ghost predicate Crash(d: Disk, c: Disk) {
    && c.log == []
    && c.inodes.Keys == d.inodes.Keys
    && (forall i | i in c.inodes :: c.inodes[i].synced)
    && (forall i | i in d.inodes && d.inodes[i].synced :: c.inodes[i] == d.inodes[i])
    && exists k: nat :: k <= |d.log| && c.durable == Survivor(d, k)
  }

  // ----- what the directory stands for -----

  // The file set a directory stands for: with the marker present, pending files
  // replace final ones; without it they do not count.
  function Resolve(dir: Dir): map<File, Inode> {
    if Marker in dir then
      map f: File | Pending(f) in dir || Final(f) in dir ::
        if Pending(f) in dir then dir[Pending(f)] else dir[Final(f)]
    else
      map f: File | Final(f) in dir :: dir[Final(f)]
  }

  ghost predicate Holds(inodes: map<Inode, Content>, dir: Dir, creds: Creds) {
    var r := Resolve(dir);
    && r.Keys == creds.Keys
    && forall f | f in r :: r[f] in inodes && inodes[r[f]] == Content(creds[f], true)
  }

  // Wherever the power fails now, the disk stands for exactly a or exactly b.
  ghost predicate Admits(d: Disk, a: Creds, b: Creds) {
    forall k: nat | k <= |d.log| ::
      Holds(d.inodes, Survivor(d, k), a) || Holds(d.inodes, Survivor(d, k), b)
  }

  ghost predicate Settled(d: Disk, a: Creds) {
    Admits(d, a, a)
  }

  // No trace of a rotation is visible.
  predicate Clean(dir: Dir) {
    Marker !in dir && forall f: File :: Pending(f) !in dir
  }

  // ----- how one disk operation changes the outcomes -----

  function Logged(d: Disk, e: Entry): Disk {
    d.(log := d.log + [e])
  }

  function DirSynced(d: Disk): Disk {
    d.(durable := Live(d), log := [])
  }

  function Filled(d: Disk, i: Inode, c: Content): Disk {
    d.(inodes := d.inodes[i := c])
  }

  lemma LoggedReplays(d: Disk, e: Entry)
    ensures Live(Logged(d, e)) == Enter(Live(d), e)
    ensures forall k: nat | k <= |d.log| :: Survivor(Logged(d, e), k) == Survivor(d, k)
    ensures Survivor(Logged(d, e), |d.log| + 1) == Enter(Live(d), e)
    ensures Survivor(d, |d.log|) == Live(d)
  {
    var l := d.log + [e];
    assert l[..|l| - 1] == d.log && l[..|l|] == l && d.log[..|d.log|] == d.log;
    forall k: nat | k <= |d.log| ensures l[..k] == d.log[..k] {}
  }

  // Logging an entry adds one outcome: what the process now sees.
  lemma LoggedAdmits(d: Disk, e: Entry, a: Creds, b: Creds)
    requires Admits(d, a, b)
    requires Holds(d.inodes, Enter(Live(d), e), a) || Holds(d.inodes, Enter(Live(d), e), b)
    ensures Admits(Logged(d, e), a, b)
  {
    LoggedReplays(d, e);
    var d' := Logged(d, e);
    hide Survivor, Live, Enter, Holds, Replay;
    forall k: nat | k <= |d'.log|
      ensures Holds(d'.inodes, Survivor(d', k), a) || Holds(d'.inodes, Survivor(d', k), b)
    {
      if k <= |d.log| {
        assert Survivor(d', k) == Survivor(d, k);
      }
    }
  }

  lemma LiveHolds(d: Disk, a: Creds, b: Creds)
    requires Admits(d, a, b)
    ensures Holds(d.inodes, Live(d), a) || Holds(d.inodes, Live(d), b)
  {
    assert d.log[..|d.log|] == d.log;
    assert Survivor(d, |d.log|) == Live(d);
  }

  lemma DirSyncedAdmits(d: Disk, a: Creds)
    requires Holds(d.inodes, Live(d), a)
    ensures Settled(DirSynced(d), a) && Live(DirSynced(d)) == Live(d)
  {
    forall k: nat | k <= |DirSynced(d).log|
      ensures Holds(d.inodes, Survivor(DirSynced(d), k), a)
    {
      assert DirSynced(d).log[..k] == [];
    }
  }

  // Changing an inode that is new or not yet synchronised changes no outcome.
  lemma FilledAdmits(d: Disk, i: Inode, c: Content, a: Creds, b: Creds)
    requires Admits(d, a, b)
    requires i in d.inodes ==> !d.inodes[i].synced
    ensures Admits(Filled(d, i, c), a, b)
  {
    var d' := Filled(d, i, c);
    forall k: nat | k <= |d'.log|
      ensures Holds(d'.inodes, Survivor(d', k), a) || Holds(d'.inodes, Survivor(d', k), b)
    {
      assert Survivor(d', k) == Survivor(d, k);
    }
  }

  // The meaning of a crash: one of the admitted file sets, and nothing left to lose.
  lemma CrashSettles(d: Disk, c: Disk, a: Creds, b: Creds)
    requires Admits(d, a, b) && Crash(d, c)
    ensures Settled(c, a) || Settled(c, b)
    ensures Live(c) == c.durable
  {
    var k: nat :| k <= |d.log| && c.durable == Survivor(d, k);
    assert c.durable == Survivor(c, 0);
    var x := if Holds(d.inodes, Survivor(d, k), a) then a else b;
    assert Holds(c.inodes, c.durable, x);
    forall j: nat | j <= |c.log| ensures Holds(c.inodes, Survivor(c, j), x) {
      assert c.log[..j] == [];
    }
  }

  // ----- what one directory entry does to the file set -----

  lemma MoveKeepsResolve(dir: Dir, f: File)
    requires Marker in dir && Pending(f) in dir
    ensures Resolve(Enter(dir, Move(Pending(f), Final(f)))) == Resolve(dir)
  {
  }

  lemma DiscardKeepsResolve(dir: Dir, f: File)
    requires Marker !in dir
    ensures Resolve(Enter(dir, Unlink(Pending(f)))) == Resolve(dir)
  {
  }

  lemma StageKeepsResolve(dir: Dir, f: File, i: Inode)
    requires Marker !in dir
    ensures Resolve(Enter(dir, Link(Pending(f), i))) == Resolve(dir)
  {
  }

  lemma MarkerGoesWhenNothingPends(dir: Dir)
    requires forall f: File :: Pending(f) !in dir
    ensures Resolve(Enter(dir, Unlink(Marker))) == Resolve(dir)
  {
  }
}
