/** The device's credential store: initial write, rotation and loading, all by two-phase commit. */
module CredentialStore {
  import opened Option
  import opened Disk
  import opened Directory
  import opened Recovery

  // The claimed answer to an authentication poll, and a rotation message; "" stands for an omitted field.
  datatype AuthResponse = AuthResponse(caCert: string, deviceCert: string, uri: string, region: string,
      host: HostSettings)
  datatype Rotation = Rotation(deviceCert: string, caCert: string, uri: string, region: string)

  datatype ReadResult = Loaded | NotPaired | Failed

  // The file set an initial write installs.
  function Issued(deviceId: string, auth: AuthResponse, privKey: string): Creds {
    map[CaCert := Text(auth.caCert),
        DeviceCert := Text(auth.deviceCert),
        PrivKey := Text(privKey),
        ConnSettings := Conn(ConnectionSettings(deviceId, auth.uri, auth.region)),
        HostConf := Host(auth.host)]
  }

  // All five files are there and the settings decode.
  predicate Complete(creds: Creds) {
    && CaCert in creds && DeviceCert in creds && PrivKey in creds && ConnSettings in creds && HostConf in creds
    && creds[ConnSettings].Conn? && creds[HostConf].Host?
  }

  // ----- rotation as an overlay -----

  /** What a rotation leaves in each file: the certificates and the endpoint of the message where it carries them, and
      what was there in every other. Only an unreadable certificate may survive a message that carries none. */
  lemma RotationInstalls(cur: Creds, unread: set<File>, conn: Option<ConnectionSettings>, r: Rotation)
    requires unread <= {DeviceCert, CaCert}
    ensures Installed(cur, unread, conn, r, cur + Changes(cur - unread, conn, r))
  {
    ChangesAt(cur - unread, conn, r);
  }

  // The file set after a rotation, file by file.
  ghost predicate Installed(cur: Creds, unread: set<File>, conn: Option<ConnectionSettings>, r: Rotation, next: Creds) {
    && (r.deviceCert != "" ==> Lookup(next, DeviceCert) == Some(Text(r.deviceCert)))
    && (r.deviceCert == "" && DeviceCert !in unread ==> DeviceCert in next ==> next[DeviceCert] == Text(""))
    && (r.deviceCert == "" && DeviceCert in unread ==> Lookup(next, DeviceCert) == Lookup(cur, DeviceCert))
    && Lookup(next, CaCert) == (if r.caCert != "" then Some(Text(r.caCert)) else Lookup(cur, CaCert))
    && Lookup(next, PrivKey) == Lookup(cur, PrivKey) && Lookup(next, HostConf) == Lookup(cur, HostConf)
    && Lookup(next, ConnSettings) ==
       if conn.Some? && (r.uri, r.region) != (conn.value.uri, conn.value.region)
       then Some(Conn(ConnectionSettings(conn.value.deviceId, r.uri, r.region))) else Lookup(cur, ConnSettings)
  }

  predicate CertDiffers(current: Option<Data>, cert: string) {
    if current.Some? then current.value != Text(cert) else cert != ""
  }

  function Moved(conn: ConnectionSettings, r: Rotation): ConnectionSettings {
    conn.(uri := r.uri, region := r.region)
  }

  predicate ConnDiffers(conn: Option<ConnectionSettings>, r: Rotation) {
    conn.Some? && (r.uri != conn.value.uri || r.region != conn.value.region)
  }

  function NewConn(conn: Option<ConnectionSettings>, r: Rotation): Option<ConnectionSettings> {
    if ConnDiffers(conn, r) then Some(Moved(conn.value, r)) else conn
  }

  // The files a rotation replaces, given what is on disk and in memory.
  function Changes(cur: Creds, conn: Option<ConnectionSettings>, r: Rotation): Creds {
    (if CertDiffers(Lookup(cur, DeviceCert), r.deviceCert) then map[DeviceCert := Text(r.deviceCert)] else map[])
    + (if r.caCert != "" && CertDiffers(Lookup(cur, CaCert), r.caCert) then map[CaCert := Text(r.caCert)] else map[])
    + (if ConnDiffers(conn, r) then map[ConnSettings := Conn(NewConn(conn, r).value)] else map[])
  }

  ghost predicate InSync(cur: Creds, conn: Option<ConnectionSettings>) {
    conn.Some? ==> Lookup(cur, ConnSettings) == Some(Conn(conn.value))
  }

  /** A rotation replaces exactly the files whose content changes, never the private
      key or the host settings, keeps the device id, and keeps memory equal to disk.
      A certificate that could not be read is written again when one was sent. */
  lemma RotationOverlays(cur: Creds, unread: set<File>, conn: Option<ConnectionSettings>, r: Rotation)
    requires InSync(cur, conn) && unread <= {DeviceCert, CaCert}
    ensures
      var p := Changes(cur - unread, conn, r);
      && (forall f: File | f !in unread :: f in p <==> Lookup(cur + p, f) != Lookup(cur, f))
      && (DeviceCert in unread ==> (DeviceCert in p <==> r.deviceCert != ""))
      && (CaCert in unread ==> (CaCert in p <==> r.caCert != ""))
      && PrivKey !in p && HostConf !in p
      && InSync(cur + p, NewConn(conn, r))
      && (forall f | f in p && p[f].Conn? :: conn.Some? && p[f].conn.deviceId == conn.value.deviceId)
  {
    var p := Changes(cur - unread, conn, r);
    forall f: File | f !in unread ensures f in p <==> Lookup(cur + p, f) != Lookup(cur, f) {
      match f
      case CaCert =>
      case DeviceCert =>
      case PrivKey =>
      case ConnSettings =>
      case HostConf =>
    }
  }

  // The changes, one file after the other.
  lemma ChangesBuilt(x: Creds, unread: set<File>, conn: Option<ConnectionSettings>, r: Rotation)
    ensures
      var dev := CertDiffers(if DeviceCert in unread then None else Lookup(x, DeviceCert), r.deviceCert);
      var ca := r.caCert != "" && CertDiffers(if CaCert in unread then None else Lookup(x, CaCert), r.caCert);
      var p: Creds := if dev then map[][DeviceCert := Text(r.deviceCert)] else map[];
      var q := if ca then p[CaCert := Text(r.caCert)] else p;
      Changes(x - unread, conn, r) ==
        if ConnDiffers(conn, r) then q[ConnSettings := Conn(Moved(conn.value, r))] else q
  {
    assert Lookup(x - unread, DeviceCert) == if DeviceCert in unread then None else Lookup(x, DeviceCert);
    assert Lookup(x - unread, CaCert) == if CaCert in unread then None else Lookup(x, CaCert);
  }

  // The connection settings come last.
  lemma ConnChanges(cur: Creds, conn: Option<ConnectionSettings>, r: Rotation)
    ensures ConnSettings !in Changes(cur, None, r)
    ensures Changes(cur, conn, r) ==
      if ConnDiffers(conn, r) then Changes(cur, None, r)[ConnSettings := Conn(Moved(conn.value, r))]
      else Changes(cur, None, r)
  {
  }

  lemma NewConnMoved(conn: Option<ConnectionSettings>, r: Rotation)
    ensures ConnDiffers(conn, r) ==> conn.Some? && NewConn(conn, r) == Some(Moved(conn.value, r))
  {
  }

  /** The same message again leaves the file set as it is, whichever certificates cannot be read either time, unless
      it carries no device certificate, the first time could not read the one on disk and the second time can. */
  lemma RotationIsIdempotent(cur: Creds, unread: set<File>, again: set<File>, conn: Option<ConnectionSettings>,
                             r: Rotation)
    requires unread <= {DeviceCert, CaCert} && again <= {DeviceCert, CaCert}
    ensures
      var next := cur + Changes(cur - unread, conn, r);
      next + Changes(next - again, NewConn(conn, r), r) == next <==>
        (r.deviceCert == "" && DeviceCert in unread && DeviceCert !in again ==>
           !CertDiffers(Lookup(cur, DeviceCert), ""))
    ensures
      var next := cur + Changes(cur, conn, r);
      Changes(next, NewConn(conn, r), r) == map[]
  {
    IdempotentFor(cur, unread, again, conn, r);
    IdempotentFor(cur, {}, {}, conn, r);
    assert cur - {} == cur;
    var next := cur + Changes(cur, conn, r);
    assert next - {} == next;
    NoChanges(next, NewConn(conn, r), r);
  }

  lemma NoChanges(cur: Creds, conn: Option<ConnectionSettings>, r: Rotation)
    requires cur + Changes(cur, conn, r) == cur && !ConnDiffers(conn, r)
    ensures Changes(cur, conn, r) == map[]
  {
    hide Changes;
    var p := Changes(cur, conn, r);
    forall f | f in p ensures Lookup(cur, f) == Some(p[f]) {
      assert (cur + p)[f] == p[f];
    }
    ChangesAt(cur, conn, r);
    assert DeviceCert !in p && CaCert !in p && ConnSettings !in p;
    forall f: File ensures f !in p {
      AllListed(f);
    }
  }

  // What the second message would write, file by file.
  lemma IdempotentFor(cur: Creds, unread: set<File>, again: set<File>, conn: Option<ConnectionSettings>, r: Rotation)
    requires unread <= {DeviceCert, CaCert} && again <= {DeviceCert, CaCert}
    ensures
      var next := cur + Changes(cur - unread, conn, r);
      && !ConnDiffers(NewConn(conn, r), r)
      && (next + Changes(next - again, NewConn(conn, r), r) == next <==>
            (r.deviceCert == "" && DeviceCert in unread && DeviceCert !in again ==>
               !CertDiffers(Lookup(cur, DeviceCert), "")))
  {
    var p := Changes(cur - unread, conn, r);
    var next := cur + p;
    var q := Changes(next - again, NewConn(conn, r), r);
    ChangesAt(cur - unread, conn, r);
    ChangesAt(next - again, NewConn(conn, r), r);
    hide Changes;
    assert !ConnDiffers(NewConn(conn, r), r);
    assert CaCert in q ==> CaCert in next && next[CaCert] == q[CaCert];
    assert next + q == next <==> (DeviceCert in q ==> DeviceCert in next && next[DeviceCert] == q[DeviceCert]) by {
      assert DeviceCert in q ==> (next + q)[DeviceCert] == q[DeviceCert];
      if DeviceCert in q ==> DeviceCert in next && next[DeviceCert] == q[DeviceCert] {
        forall f | f in q ensures f in next && next[f] == q[f] {
          AllListed(f);
        }
        assert next + q == next;
      }
    }
  }

  // The changes, looked at from the outside.
  lemma ChangesAt(cur: Creds, conn: Option<ConnectionSettings>, r: Rotation)
    ensures
      var p := Changes(cur, conn, r);
      && (DeviceCert in p <==> CertDiffers(Lookup(cur, DeviceCert), r.deviceCert))
      && (CaCert in p <==> r.caCert != "" && CertDiffers(Lookup(cur, CaCert), r.caCert))
      && (ConnSettings in p <==> ConnDiffers(conn, r)) && PrivKey !in p && HostConf !in p
      && (DeviceCert in p ==> p[DeviceCert] == Text(r.deviceCert)) && (CaCert in p ==> p[CaCert] == Text(r.caCert))
      && (ConnSettings in p ==> p[ConnSettings] == Conn(ConnectionSettings(conn.value.deviceId, r.uri, r.region)))
  {
  }

  // ----- phase one: staging -----

  // The pending files are exactly p, complete and synchronised; the marker is absent.
  ghost predicate Staged(d: Disk, p: Creds) {
    && Marker !in Live(d)
    && (forall f: File :: Pending(f) in Live(d) <==> f in p)
    && (forall f | f in p :: Live(d)[Pending(f)] in d.inodes && d.inodes[Live(d)[Pending(f)]] == Content(p[f], true))
  }

  lemma CleanIsStaged(d: Disk)
    requires Clean(Live(d))
    ensures Staged(d, map[])
  {
  }

  lemma StagedNothing(d: Disk)
    requires Staged(d, map[])
    ensures Clean(Live(d))
  {
  }

  // Changing an inode that is new or not yet synchronised does not change what the disk stands for.
  lemma FilledStands(d: Disk, i: Inode, c: Content, x: Creds, a: Creds, b: Creds)
    requires Stands(d, x, a, b) && (i in d.inodes ==> !d.inodes[i].synced)
    ensures Stands(Filled(d, i, c), x, a, b) && Live(Filled(d, i, c)) == Live(d)
  {
    FilledAdmits(d, i, c, a, b);
  }

  lemma FilledAt(d: Disk, i: Inode, c: Content, last: Content)
    ensures i in Filled(d, i, c).inodes && Filled(d, i, c).inodes[i] == c
    ensures Filled(Filled(d, i, c), i, last) == Filled(d, i, last)
  {
  }

  // A pending file appears with empty, unsynchronised content.
  lemma StageCreates(d: Disk, f: File, i: Inode, x: Creds, a: Creds, b: Creds, p: Creds)
    requires Stands(d, x, a, b) && Staged(d, p) && f !in p && i !in d.inodes
    ensures
      var t := Logged(Filled(d, i, Content(Text(""), false)), Link(Pending(f), i));
      && Stands(t, x, a, b) && Marker !in Live(t)
      && Live(t) == Live(d)[Pending(f) := i]
  {
    hide Stands;
    var e := Link(Pending(f), i);
    var s := Filled(d, i, Content(Text(""), false));
    FilledStands(d, i, Content(Text(""), false), x, a, b);
    StageKeepsResolve(Live(s), f, i);
    LoggedStands(s, e, x, a, b);
  }

  lemma StageRemoves(d: Disk, f: File, x: Creds, a: Creds, b: Creds)
    requires Stands(d, x, a, b) && Marker !in Live(d)
    ensures
      var t := Logged(d, Unlink(Pending(f)));
      Stands(t, x, a, b) && Marker !in Live(t)
  {
    hide Stands;
    DiscardKeepsResolve(Live(d), f);
    LoggedStands(d, Unlink(Pending(f)), x, a, b);
  }

  lemma CreatedIsThere(d: Disk, t: Disk, n: Name, i: Inode)
    requires n in Live(d) ==> i == Live(d)[n] && t == Filled(d, i, Content(Text(""), false))
    requires n !in Live(d) ==> t == Logged(Filled(d, i, Content(Text(""), false)), Link(n, i))
    ensures i in t.inodes && n in Live(t) && Live(t)[n] == i && t.inodes[i] == Content(Text(""), false)
    ensures forall m | m in Live(d) :: m in Live(t)
  {
    LoggedReplays(Filled(d, i, Content(Text(""), false)), Link(n, i));
    assert Live(Filled(d, i, Content(Text(""), false))) == Live(d);
    hide Live;
  }

  // A pending file that is created beside a marker.
  lemma CreatedBesideMarker(d: Disk, t: Disk, f: File, i: Inode)
    requires Marker in Live(d)
    requires Pending(f) in Live(d) ==> i == Live(d)[Pending(f)] && t == Filled(d, i, Content(Text(""), false))
    requires Pending(f) !in Live(d) ==> t == Logged(Filled(d, i, Content(Text(""), false)), Link(Pending(f), i))
    ensures Nowhere(t)
  {
    CreatedIsThere(d, t, Pending(f), i);
    NothingMayBeStaged(t, f);
  }

  lemma SomethingStaged(d: Disk, p: Creds, order: seq<File>)
    requires Staged(d, p) && Lists(order, Live(d)) && order != []
    ensures p != map[]
  {
    assert order[0] in p;
  }

  lemma StagedMeans(d: Disk, p: Creds)
    requires Staged(d, p)
    ensures Marker !in Live(d) && forall f: File :: Pending(f) in Live(d) <==> f in p
  {
  }

  lemma NothingStaged(d: Disk, p: Creds, order: seq<File>)
    requires Staged(d, p) && Lists(order, Live(d)) && order == []
    ensures p == map[] && Clean(Live(d))
  {
    forall f: File ensures f !in p && Pending(f) !in Live(d) {
      assert f !in order;
    }
  }

  lemma DirSyncedStaged(d: Disk, x: Creds, a: Creds, b: Creds, p: Creds)
    requires Stands(d, x, a, b) && Staged(d, p)
    ensures Settled(DirSynced(d), x) && Staged(DirSynced(d), p) && Live(DirSynced(d)) == Live(d)
    ensures Admits(DirSynced(d), x, x + p)
  {
    SyncedStands(d, x, a, b);
  }

  lemma StageCompletes(d: Disk, f: File, i: Inode, data: Data, p: Creds, e: Disk)
    requires Staged(d, p) && f !in p && i !in d.inodes
    requires Live(e) == Live(d)[Pending(f) := i] && e.inodes == d.inodes[i := Content(data, true)]
    ensures Staged(e, p[f := data])
  {
  }

  // Creating the marker turns the outcome from a into a overlaid by p, and nothing in between.
  lemma MarkerCommits(d: Disk, i: Inode, a: Creds, p: Creds)
    requires Admits(d, a, a + p) && Settled(d, a) && Staged(d, p) && i !in d.inodes
    ensures
      var t := Logged(Filled(d, i, Content(Text(""), false)), Link(Marker, i));
      && Stands(t, a + p, a, a + p)
      && Live(t) == Live(d)[Marker := i]
      && i in t.inodes && !t.inodes[i].synced
  {
    var e := Link(Marker, i);
    var s := Filled(d, i, Content(Text(""), false));
    FilledAdmits(d, i, Content(Text(""), false), a, a);
    LoggedReplays(s, e);
    LiveHolds(d, a, a);
    var dir := Live(d)[Marker := i];
    assert Enter(Live(s), e) == dir;
    OverlayHolds(d, i, a, p);
    assert Admits(s, a, a + p);
    LoggedAdmits(s, e, a, a + p);
  }

  lemma OrphansDecide(a: Creds, orphans: Creds, p: Creds)
    ensures a + (orphans + p) == a + p <==> forall f | f in orphans && f !in p :: Lookup(a, f) == Some(orphans[f])
  {
    var all := a + (orphans + p);
    if all == a + p {
      forall f | f in orphans && f !in p ensures Lookup(a, f) == Some(orphans[f]) {
        assert all[f] == orphans[f];
        assert f in a + p;
      }
    }
  }

  /** An orphan that could not be removed, which nobody notices, joins the next commit. That is harmless exactly when
      the rotation stages the same file anew, or the orphan is a copy of what is there. */
  lemma OrphansJoinCommit(d: Disk, i: Inode, a: Creds, orphans: Creds, p: Creds)
    requires Settled(d, a) && Staged(d, orphans + p) && i !in d.inodes
    ensures
      var t := Logged(Filled(d, i, Content(Text(""), false)), Link(Marker, i));
      && Stands(t, a + (orphans + p), a, a + (orphans + p))
      && (a + (orphans + p) == a + p <==> forall f | f in orphans && f !in p :: Lookup(a, f) == Some(orphans[f]))
  {
    assert Admits(d, a, a + (orphans + p));
    MarkerCommits(d, i, a, orphans + p);
    hide Admits, Staged, Stands;
    OrphansDecide(a, orphans, p);
  }

  // The renames of a commit are those a recovery would make.
  lemma RenamingStarts(m: Disk, s: Disk, i: Inode, order: seq<File>, a: Creds, p: Creds)
    requires Stands(m, a + p, a, a + p)
    requires Live(m) == Live(s)[Marker := i] && Lists(order, Live(s))
    ensures Phase(m, true, order, 0, a + p, a, a + p)
  {
    assert order[0..] == order;
  }

  lemma MarkerSynced(m: Disk, i: Inode, order: seq<File>, a: Creds, p: Creds)
    requires Phase(m, true, order, 0, a + p, a, a + p) && i in m.inodes && !m.inodes[i].synced
    ensures
      var t := Filled(m, i, Content(m.inodes[i].data, true));
      Phase(t, true, order, 0, a + p, a, a + p) && Admits(t, a, a + p)
  {
    FilledStands(m, i, Content(m.inodes[i].data, true), a + p, a, a + p);
  }

  lemma PhaseSynced(d: Disk, order: seq<File>, a: Creds, b: Creds)
    requires Phase(d, true, order, 0, b, a, b)
    ensures Phase(DirSynced(d), true, order, 0, b, a, b) && Admits(DirSynced(d), a, b)
  {
    SyncedStands(d, b, a, b);
  }

  lemma RenamedClean(d: Disk, order: seq<File>, a: Creds, b: Creds)
    requires Phase(d, true, order, |order| + 2, b, a, b)
    ensures Clean(Live(d))
  {
  }

  lemma OverlayHolds(d: Disk, i: Inode, a: Creds, p: Creds)
    requires Holds(d.inodes, Live(d), a) && Staged(d, p) && i !in d.inodes
    ensures Holds(d.inodes[i := Content(Text(""), false)], Live(d)[Marker := i], a + p)
  {
    var dir := Live(d)[Marker := i];
    var r := Resolve(dir);
    forall f: File ensures f in r <==> f in a + p {
      assert f in a <==> f in Resolve(Live(d));
    }
    assert r.Keys == (a + p).Keys;
  }

  predicate Covers(p: Creds, writes: seq<(File, Data)>, n: nat)
    requires n <= |writes|
  {
    && (forall f: File :: f in p <==> exists k :: 0 <= k < n && writes[k].0 == f)
    && (forall k | 0 <= k < n :: writes[k].0 in p && p[writes[k].0] == writes[k].1)
  }

  lemma CoversNothing(writes: seq<(File, Data)>)
    ensures Covers(map[], writes, 0)
  {
  }

  lemma CoversNext(p: Creds, writes: seq<(File, Data)>, n: nat)
    requires n < |writes| && Covers(p, writes, n)
    requires forall i, j | 0 <= i < j < |writes| :: writes[i].0 != writes[j].0
    ensures writes[n].0 !in p && Covers(p[writes[n].0 := writes[n].1], writes, n + 1)
  {
    var q := p[writes[n].0 := writes[n].1];
    forall f: File ensures f in q <==> exists k :: 0 <= k < n + 1 && writes[k].0 == f {
      if f == writes[n].0 {
        assert writes[n].0 == f;
      }
    }
  }

  // The five pending files replace everything there was.
  lemma CoversAll(p: Creds, writes: seq<(File, Data)>, base: Creds, deviceId: string, auth: AuthResponse, key: string)
    requires writes == [(CaCert, Text(auth.caCert)), (DeviceCert, Text(auth.deviceCert)), (PrivKey, Text(key)),
                        (ConnSettings, Conn(ConnectionSettings(deviceId, auth.uri, auth.region))),
                        (HostConf, Host(auth.host))]
    requires Covers(p, writes, 5)
    ensures base + p == Issued(deviceId, auth, key) && p != map[]
  {
    assert writes[0].0 == CaCert && p[CaCert] == Text(auth.caCert);
    assert writes[1].0 == DeviceCert && p[DeviceCert] == Text(auth.deviceCert);
    assert writes[2].0 == PrivKey && p[PrivKey] == Text(key);
    assert writes[3].0 == ConnSettings && p[ConnSettings] == Conn(ConnectionSettings(deviceId, auth.uri, auth.region));
    assert writes[4].0 == HostConf && p[HostConf] == Host(auth.host);
    hide Covers;
    AllFiles(p);
    AllFiles(Issued(deviceId, auth, key));
  }

  lemma AllFiles(p: Creds)
    requires CaCert in p && DeviceCert in p && PrivKey in p && ConnSettings in p && HostConf in p
    ensures forall f: File :: f in p
  {
    forall f: File ensures f in p {
      match f
      case CaCert =>
      case DeviceCert =>
      case PrivKey =>
      case ConnSettings =>
      case HostConf =>
    }
  }

  // ----- why the order of directory operations matters -----

  lemma DurableHolds(d: Disk, a: Creds)
    requires Settled(d, a)
    ensures Holds(d.inodes, d.durable, a)
  {
    assert d.log[..0] == [] && Survivor(d, 0) == d.durable;
  }

  lemma OneEntry(dir: Dir, e: Entry)
    ensures Replay(dir, [e]) == Enter(dir, e)
  {
    assert [e][..0] == [] && Replay(dir, []) == dir;
  }

  // With the marker there, one pending file shows through.
  lemma OneLinkShows(inodes: map<Inode, Content>, dir: Dir, f: File, i: Inode, a: Creds, data: Data)
    requires Holds(inodes, dir, a) && Marker in dir && i in inodes && inodes[i] == Content(data, true)
    ensures Holds(inodes, dir[Pending(f) := i], a[f := data])
  {
    var r := Resolve(dir[Pending(f) := i]);
    assert r == Resolve(dir)[f := i];
  }

  /** The removal of the marker is not synchronised, so the next rotation can be staged while
      the marker is still durable. Keeping the logged operations in order this is safe; a disk that
      kept only the link of one pending file would show that one new file among the old ones. */
  lemma OrderIsNeeded(d: Disk, k: nat, f: File, g: File, i: Inode, a: Creds, p: Creds)
    requires Settled(d, a) && Staged(d, p)
    requires Marker in d.durable && k < |d.log| && d.log[k] == Link(Pending(f), i) && i in d.inodes && f in p
        && d.inodes[i] == Content(p[f], true)
    requires f != g && g in p && Lookup(a, f) != Some(p[f]) && Lookup(a, g) != Some(p[g])
    ensures
      var mixed := a[f := p[f]];
      Holds(d.inodes, Replay(d.durable, [d.log[k]]), mixed) && mixed != a && mixed != a + p
  {
    DurableHolds(d, a);
    OneEntry(d.durable, d.log[k]);
    OneLinkShows(d.inodes, d.durable, f, i, a, p[f]);
    hide Admits, Staged, Replay, Holds;
    MixedIsNeither(a, p, f, g);
  }

  lemma MixedIsNeither(a: Creds, p: Creds, f: File, g: File)
    requires f != g && f in p && g in p && Lookup(a, f) != Some(p[f]) && Lookup(a, g) != Some(p[g])
    ensures a[f := p[f]] != a && a[f := p[f]] != a + p
  {
    var mixed := a[f := p[f]];
    assert mixed[f] == p[f] && Lookup(mixed, g) == Lookup(a, g) && (a + p)[g] == p[g];
  }

  // A pending file staged by creating, writing and synchronising it.
  function WithPending(d: Disk, f: File, i: Inode, data: Data): Disk {
    Filled(Logged(Filled(d, i, Content(Text(""), false)), Link(Pending(f), i)), i, Content(data, true))
  }

  lemma WithPendingMeans(d: Disk, f: File, i: Inode, data: Data)
    ensures
      var t := WithPending(d, f, i, data);
      && t.durable == d.durable && t.log == d.log + [Link(Pending(f), i)]
      && t.inodes == d.inodes[i := Content(data, true)]
  {
  }

  lemma PendingIsStaged(d: Disk, f: File, i: Inode, data: Data, a: Creds, p: Creds)
    requires Settled(d, a) && Staged(d, p) && f !in p && i !in d.inodes
    ensures Settled(WithPending(d, f, i, data), a) && Staged(WithPending(d, f, i, data), p[f := data])
  {
    hide Stands, Settled, Staged, Live, Logged;
    var s := Logged(Filled(d, i, Content(Text(""), false)), Link(Pending(f), i));
    SettledStands(d, a, a, a);
    StageCreates(d, f, i, a, a, a, p);
    LoggedInodes(Filled(d, i, Content(Text(""), false)), Link(Pending(f), i));
    FilledStands(s, i, Content(data, true), a, a, a);
    WithPendingMeans(d, f, i, data);
    hide Filled;
    StandsMeans(WithPending(d, f, i, data), a, a, a);
    StageCompletes(d, f, i, data, p, WithPending(d, f, i, data));
  }

  lemma LoggedInodes(d: Disk, e: Entry)
    ensures Logged(d, e).inodes == d.inodes
  {
  }

  /** The store reaches that state: after the renames of one rotation are synchronised, the marker is removed
      and the next rotation stages two files that differ from those on disk. */
  lemma MixtureIsReached(d: Disk, f: File, g: File, i: Inode, j: Inode, a: Creds, data: Data, other: Data)
    requires d.log == [] && Settled(d, a) && Marker in Live(d) && forall x: File :: Pending(x) !in Live(d)
    requires f != g && i != j && i !in d.inodes && j !in d.inodes
    requires Lookup(a, f) != Some(data) && Lookup(a, g) != Some(other)
    ensures
      var t := WithPending(WithPending(Logged(d, Unlink(Marker)), f, i, data), g, j, other);
      var mixed := a[f := data];
      && Settled(t, a) && Staged(t, map[f := data, g := other])
      && Holds(t.inodes, Replay(t.durable, [t.log[1]]), mixed) && mixed != a && mixed != a + map[f := data, g := other]
  {
    var p: Creds, q: Creds := map[][f := data], map[f := data, g := other];
    var u := Logged(d, Unlink(Marker));
    SettledStands(d, a, a, a);
    MarkerGoesWhenNothingPends(Live(d));
    LoggedStands(d, Unlink(Marker), a, a, a);
    StandsMeans(u, a, a, a);
    CleanIsStaged(u);
    assert Live(d) == d.durable && u.log == [Unlink(Marker)];
    hide Stands, Settled, Staged, Live, Logged, Holds, Replay, WithPending;
    PendingIsStaged(u, f, i, data, a, map[]);
    var s := WithPending(u, f, i, data);
    WithPendingMeans(u, f, i, data);
    WithPendingMeans(s, g, j, other);
    PendingIsStaged(s, g, j, other, a, p);
    var t := WithPending(s, g, j, other);
    assert p[g := other] == q;
    assert t.log[1] == Link(Pending(f), i);
    OrderIsNeeded(t, 1, f, g, i, a, q);
  }

  // On a clean disk the final files are what it stands for.
  lemma IssuedIsStored(d: Disk, deviceId: string, auth: AuthResponse, key: string)
    requires Settled(d, Issued(deviceId, auth, key)) && Clean(Live(d))
    ensures
      && Stored(d, CaCert) == Some(Text(auth.caCert)) && Stored(d, DeviceCert) == Some(Text(auth.deviceCert))
      && Stored(d, PrivKey) == Some(Text(key)) && Stored(d, HostConf) == Some(Host(auth.host))
      && Stored(d, ConnSettings) == Some(Conn(ConnectionSettings(deviceId, auth.uri, auth.region)))
  {
    hide Settled, Stands, Live, Stored;
    var x := Issued(deviceId, auth, key);
    SettledStands(d, x, x, x);
    StoredIsHeld(d, x, x, x);
  }

  // The final files are those of such a file set.
  ghost predicate InstalledOn(d: Disk, cur: Creds, unread: set<File>, conn: Option<ConnectionSettings>, r: Rotation) {
    exists next :: (forall f: File :: Stored(d, f) == Lookup(next, f)) && Installed(cur, unread, conn, r, next)
  }

  lemma RotationIsStored(d: Disk, next: Creds, cur: Creds, a: Creds, b: Creds, unread: set<File>,
                         conn: Option<ConnectionSettings>, r: Rotation)
    requires Stands(d, next, a, b) && Clean(Live(d)) && unread <= {DeviceCert, CaCert}
    requires next == cur + Changes(cur - unread, conn, r)
    ensures InstalledOn(d, cur, unread, conn, r)
  {
    hide Stands, Live, Stored, Lookup, Installed, Changes;
    StoredIsHeld(d, next, a, b);
    RotationInstalls(cur, unread, conn, r);
  }

  class Store {
    const folder: Folder
    var connSettings: Option<ConnectionSettings>
    var hostSettings: Option<HostSettings>
    var privKey: string
    var csr: string

    constructor (folder: Folder)
      ensures this.folder == folder && connSettings == None && hostSettings == None && privKey == "" && csr == ""
    {
      this.folder := folder;
      connSettings, hostSettings, privKey, csr := None, None, "", "";
    }

    // Generates a key pair once per store; `fresh` is what the generators returned. When only the
    // CSR fails the private key is kept, and replaced by the next call.
    method GenerateKeysAndCSR(freshKey: Option<string>, freshCSR: Option<string>) returns (ok: bool)
      requires freshCSR.Some? ==> freshCSR.value != ""
      modifies this`privKey, this`csr
      ensures old(csr) != "" ==> ok && privKey == old(privKey) && csr == old(csr)
      ensures old(csr) == "" ==>
        && ok == (freshKey.Some? && freshCSR.Some?)
        && privKey == (if freshKey.Some? then freshKey.value else old(privKey))
        && csr == if ok then freshCSR.value else ""
    {
      if csr != "" {
        return true;
      }
      if freshKey == None {
        return false;
      }
      privKey := freshKey.value;
      if freshCSR == None {
        return false;
      }
      csr := freshCSR.value;
      ok := true;
    }

    // Writes and synchronises one pending file, without renaming it. Here and below, `safe` says that
    // the disk is known to stand for a file set; it is not once a marker was overlooked.
    method WriteNewFile(f: File, data: Data, ghost safe: bool,
                        ghost x: Creds, ghost a: Creds, ghost b: Creds, ghost p: Creds)
      returns (ok: bool)
      requires safe ==> Stands(folder.disk, x, a, b) && Staged(folder.disk, p) && f !in p
      modifies folder
      ensures old(folder.calls) <= folder.calls && (folder.Fine(old(folder.calls)) ==> ok)
      ensures old(folder.seen) <= folder.seen
      ensures safe ==>
        && folder.SafeSince(|old(folder.seen)|, a, b)
        && Stands(folder.disk, x, a, b) && Marker !in Live(folder.disk)
        && (ok ==> Staged(folder.disk, p[f := data]))
      ensures ok && Marker in Live(old(folder.disk)) ==> folder.Exposed(|old(folder.seen)|)
    {
      hide Stands, Admits, Staged, Holds, Live, Enter, Resolve, Survivor, Nowhere;
      ghost var d := folder.disk;
      if safe {
        StagedMeans(d, p);
        StandsMeans(d, x, a, b);
      }
      var i;
      ok, i := folder.Create(Pending(f));
      if !ok {
        return;
      }
      ghost var s := folder.disk;
      if Marker in Live(d) {
        CreatedBesideMarker(d, s, f, i);
        assert folder.seen[|old(folder.seen)|] == s;
      }
      if safe {
        StageCreates(d, f, i, x, a, b, p);
        StandsMeans(s, x, a, b);
      }
      CreatedIsThere(d, s, Pending(f), i);
      ok := Fill(i, data, safe, x, a, b);
      if ok {
        if safe {
          StageCompletes(d, f, i, data, p, folder.disk);
        }
        ok := folder.Call(); // closing the file
      } else {
        RemoveHalf(f, safe, x, a, b);
      }
    }

    // The half-written file is removed; a failure to do so is not reported.
    method RemoveHalf(f: File, ghost safe: bool, ghost x: Creds, ghost a: Creds, ghost b: Creds)
      requires safe ==> Stands(folder.disk, x, a, b) && Marker !in Live(folder.disk)
      modifies folder
      ensures old(folder.calls) <= folder.calls && old(folder.seen) <= folder.seen
      ensures safe ==>
        && folder.SafeSince(|old(folder.seen)|, a, b)
        && Stands(folder.disk, x, a, b) && Marker !in Live(folder.disk)
    {
      hide Stands, Admits, Live;
      if safe {
        StageRemoves(folder.disk, f, x, a, b);
        StandsMeans(Logged(folder.disk, Unlink(Pending(f))), x, a, b);
      }
      var removed := folder.Change(Unlink(Pending(f)));
    }

    // Writes and synchronises the bytes of a file that was just opened.
    method Fill(i: Inode, data: Data, ghost safe: bool, ghost x: Creds, ghost a: Creds, ghost b: Creds)
      returns (ok: bool)
      requires i in folder.disk.inodes && (safe ==> Stands(folder.disk, x, a, b) && !folder.disk.inodes[i].synced)
      modifies folder
      ensures old(folder.calls) <= folder.calls && (folder.Fine(old(folder.calls)) ==> ok)
      ensures old(folder.seen) <= folder.seen
      ensures ok ==> folder.disk == Filled(old(folder.disk), i, Content(data, true))
      ensures safe ==>
        && folder.SafeSince(|old(folder.seen)|, a, b)
        && Stands(folder.disk, x, a, b) && Live(folder.disk) == Live(old(folder.disk))
    {
      hide Stands, Admits, Live, Filled;
      ghost var s, written := folder.disk, data;
      ok, written := folder.Write(i, data);
      FilledAt(s, i, Content(written, false), Content(data, true));
      if safe {
        FilledStands(s, i, Content(written, false), x, a, b);
        StandsMeans(folder.disk, x, a, b);
      }
      if ok {
        ok := FillSync(i, safe, x, a, b);
      }
    }

    // Synchronises the bytes that were written.
    method FillSync(i: Inode, ghost safe: bool, ghost x: Creds, ghost a: Creds, ghost b: Creds) returns (ok: bool)
      requires i in folder.disk.inodes && (safe ==> Stands(folder.disk, x, a, b) && !folder.disk.inodes[i].synced)
      modifies folder
      ensures old(folder.calls) <= folder.calls && (folder.Fine(old(folder.calls)) ==> ok)
      ensures old(folder.seen) <= folder.seen
      ensures ok ==> folder.disk == Filled(old(folder.disk), i, Content(old(folder.disk).inodes[i].data, true))
      ensures safe ==>
        && folder.SafeSince(|old(folder.seen)|, a, b)
        && Stands(folder.disk, x, a, b) && Live(folder.disk) == Live(old(folder.disk))
    {
      hide Stands, Admits, Live, Filled;
      ghost var s := folder.disk;
      ok := folder.SyncFile(i);
      if ok && safe {
        FilledStands(s, i, Content(s.inodes[i].data, true), x, a, b);
        StandsMeans(folder.disk, x, a, b);
      }
    }

    /** Phase two. The creation of the marker is the commit point: before it a power
        failure leaves what it would have left, or x, after it x overlaid by the
        pending files p. With nothing pending it does nothing at all. */
    method CommitPendingRotation(ghost safe: bool, ghost x: Creds, ghost a: Creds, ghost b: Creds, ghost p: Creds)
      returns (ok: bool)
      requires safe ==> Stands(folder.disk, x, a, b) && Staged(folder.disk, p)
      modifies folder
      ensures old(folder.calls) <= folder.calls && (folder.Fine(old(folder.calls)) ==> ok)
      ensures old(folder.seen) <= folder.seen
      ensures safe ==> folder.SafeSince(|old(folder.seen)|, x, x + p)
      ensures safe && ok && p == map[] ==> folder.disk == old(folder.disk) && Clean(Live(folder.disk))
      ensures safe && ok && p != map[] ==> Settled(folder.disk, x + p) && Clean(Live(folder.disk))
      ensures safe && !ok ==> Stands(folder.disk, x, a, b) || Admits(folder.disk, x, x + p)
    {
      hide Stands, Admits, Staged, Holds, Phase, Clean, Lists, Live, Logged, Filled, DirSynced;
      ghost var d := folder.disk;
      var toRename;
      ok, toRename := folder.ListPending();
      if !ok {
        return;
      }
      if toRename == [] {
        if safe {
          NothingStaged(d, p, toRename);
        }
        return true;
      }
      if safe {
        SomethingStaged(d, p, toRename);
      }
      ok := folder.SyncDirectory();
      if !ok {
        return;
      }
      if safe {
        DirSyncedStaged(d, x, a, b, p);
      }
      ok := PlaceMarker(toRename, safe, x, p);
      if !ok {
        return;
      }
      ok := RenameAll(toRename, safe, x, x + p);
    }

    // Creates the marker and makes it durable.
    method PlaceMarker(ghost toRename: seq<File>, ghost safe: bool, ghost a: Creds, ghost p: Creds) returns (ok: bool)
      requires safe ==>
        && Settled(folder.disk, a) && Admits(folder.disk, a, a + p)
        && Staged(folder.disk, p) && Lists(toRename, Live(folder.disk))
      modifies folder
      ensures old(folder.calls) <= folder.calls && (folder.Fine(old(folder.calls)) ==> ok)
      ensures old(folder.seen) <= folder.seen
      ensures safe ==>
        && folder.SafeSince(|old(folder.seen)|, a, a + p) && Admits(folder.disk, a, a + p)
        && (ok ==> Phase(folder.disk, true, toRename, 0, a + p, a, a + p))
    {
      hide Stands, Admits, Settled, Staged, Holds, Phase, Lists, Live, Logged, Filled, DirSynced;
      ghost var s := folder.disk;
      if safe {
        StagedMeans(s, p);
      }
      var i;
      ok, i := folder.Create(Marker);
      if !ok {
        return;
      }
      CreatedIsThere(s, folder.disk, Marker, i);
      if safe {
        MarkerCommits(s, i, a, p);
        StandsMeans(folder.disk, a + p, a, a + p);
        RenamingStarts(folder.disk, s, i, toRename, a, p);
      }
      ok := SyncMarker(i, toRename, safe, a, p);
    }

    // Synchronises the marker, closes it and synchronises the directory.
    method SyncMarker(i: Inode, ghost toRename: seq<File>, ghost safe: bool, ghost a: Creds, ghost p: Creds)
      returns (ok: bool)
      requires i in folder.disk.inodes
      requires safe ==>
        && Phase(folder.disk, true, toRename, 0, a + p, a, a + p) && Admits(folder.disk, a, a + p)
        && !folder.disk.inodes[i].synced
      modifies folder
      ensures old(folder.calls) <= folder.calls && (folder.Fine(old(folder.calls)) ==> ok)
      ensures old(folder.seen) <= folder.seen
      ensures safe ==>
        && folder.SafeSince(|old(folder.seen)|, a, a + p) && Admits(folder.disk, a, a + p)
        && Phase(folder.disk, true, toRename, 0, a + p, a, a + p)
    {
      hide Admits, Phase, Live, Logged, Filled, DirSynced;
      ghost var m := folder.disk;
      ok := folder.SyncFile(i);
      if ok {
        if safe {
          MarkerSynced(m, i, toRename, a, p);
        }
        ok := folder.Call(); // closing the marker
      }
      if ok {
        if safe {
          PhaseSynced(folder.disk, toRename, a, a + p);
        }
        ok := folder.SyncDirectory();
      }
    }

    // The renames, their synchronisation, and the removal of the marker.
    method RenameAll(toRename: seq<File>, ghost safe: bool, ghost a: Creds, ghost b: Creds) returns (ok: bool)
      requires safe ==> Phase(folder.disk, true, toRename, 0, b, a, b)
      modifies folder
      ensures old(folder.calls) <= folder.calls && (folder.Fine(old(folder.calls)) ==> ok)
      ensures old(folder.seen) <= folder.seen
      ensures safe ==>
        && folder.SafeSince(|old(folder.seen)|, a, b) && Admits(folder.disk, a, b)
        && (ok ==> Settled(folder.disk, b) && Clean(Live(folder.disk)))
    {
      hide Stands, Admits, Settled, Phase, Clean, Live, Logged, DirSynced;
      ok := RenameEach(toRename, safe, a, b);
      ghost var n := |toRename|;
      if !ok {
        return;
      }
      if safe {
        PhaseSafe(folder.disk, true, toRename, n, b, a, b);
        SyncStep(folder.disk, toRename, n, true, b, a, b);
        PhaseSafe(After(folder.disk, Sync(true)), true, toRename, n + 1, b, a, b);
      }
      ok := folder.SyncDirectory();
      if !ok {
        return;
      }
      ok := folder.RemoveMarker(toRename, safe, b, a, b);
      if safe {
        PhaseSafe(folder.disk, true, toRename, if ok then n + 2 else n + 1, b, a, b);
        if ok {
          RenamedClean(folder.disk, toRename, a, b);
        }
      }
    }

    method RenameEach(toRename: seq<File>, ghost safe: bool, ghost a: Creds, ghost b: Creds) returns (ok: bool)
      requires safe ==> Phase(folder.disk, true, toRename, 0, b, a, b)
      modifies folder
      ensures old(folder.calls) <= folder.calls && (folder.Fine(old(folder.calls)) ==> ok)
      ensures old(folder.seen) <= folder.seen
      ensures safe ==>
        && folder.SafeSince(|old(folder.seen)|, a, b) && Admits(folder.disk, a, b)
        && (ok ==> Phase(folder.disk, true, toRename, |toRename|, b, a, b))
    {
      hide Stands, Admits, Phase, Live, Logged;
      if safe {
        PhaseSafe(folder.disk, true, toRename, 0, b, a, b);
      }
      var j := 0;
      while j < |toRename|
        invariant j <= |toRename| && old(folder.seen) <= folder.seen && old(folder.calls) <= folder.calls
        invariant safe ==>
          && Phase(folder.disk, true, toRename, j, b, a, b) && Admits(folder.disk, a, b)
          && folder.SafeSince(|old(folder.seen)|, a, b)
      {
        if safe {
          HandleStep(folder.disk, true, toRename, j, b, a, b);
          PhaseSafe(After(folder.disk, Handle(true, toRename[j])), true, toRename, j + 1, b, a, b);
        }
        ok := folder.Change(Move(Pending(toRename[j]), Final(toRename[j])));
        if !ok {
          return;
        }
        j := j + 1;
      }
      ok := true;
    }

    // Every crash point since the given one leaves a or b (while recovering and staging), or base or new (afterwards).
    ghost predicate Atomic(start: nat, a: Creds, b: Creds, base: Creds, new_: Creds)
      reads folder
    {
      && start <= |folder.seen|
      && forall j | start <= j < |folder.seen| :: Admits(folder.seen[j], a, b) || Admits(folder.seen[j], base, new_)
    }

    /** Saves the credentials of a claimed device. Unless the recovery it begins with overlooks a marker that is
        there, a power failure at any moment leaves a file set there was, or the complete new one. If it overlooked
        one, a success was exposed to a power failure. If no call fails, it succeeds. */
    method WriteToFilesystem(deviceId: string, auth: AuthResponse, ghost a: Creds, ghost b: Creds)
      returns (ok: bool, ghost base: Creds)
      requires Admits(folder.disk, a, b)
      modifies this`connSettings, this`hostSettings, folder
      ensures old(folder.calls) <= folder.calls && (folder.Fine(old(folder.calls)) ==> ok)
      ensures Stands(old(folder.disk), base, a, b) && old(folder.seen) <= folder.seen
      ensures !old(folder.Overlooks()) ==> Atomic(|old(folder.seen)|, a, b, base, Issued(deviceId, auth, privKey))
      ensures old(folder.Overlooks()) && ok ==> folder.Exposed(|old(folder.seen)|)
      ensures ok && !old(folder.Overlooks()) ==>
        && Settled(folder.disk, Issued(deviceId, auth, privKey)) && Clean(Live(folder.disk))
        && Stored(folder.disk, CaCert) == Some(Text(auth.caCert))
        && Stored(folder.disk, DeviceCert) == Some(Text(auth.deviceCert))
        && Stored(folder.disk, PrivKey) == Some(Text(privKey))
        && Stored(folder.disk, ConnSettings) == Some(Conn(ConnectionSettings(deviceId, auth.uri, auth.region)))
        && Stored(folder.disk, HostConf) == Some(Host(auth.host))
      ensures !ok && !old(folder.Overlooks()) ==>
        Stands(folder.disk, base, a, b) || Admits(folder.disk, base, Issued(deviceId, auth, privKey))
      ensures
        && connSettings == (if ok then Some(ConnectionSettings(deviceId, auth.uri, auth.region))
                            else old(connSettings))
        && hostSettings == if ok then Some(auth.host) else old(hostSettings)
    {
      hide Stands, Staged, Clean, Live, Holds, Survivor, Covers, Admits, Nowhere, Harmless;
      AdmitsStands(folder.disk, a, b);
      base := if Stands(folder.disk, a, a, b) then a else b;
      ghost var misread := folder.Overlooks();
      ghost var order, syncs, n;
      ok, order, syncs, n := folder.RecoverPendingRotation(true, base, a, b);
      if !ok {
        return;
      }
      var conn := ConnectionSettings(deviceId, auth.uri, auth.region);
      var writes := [(CaCert, Text(auth.caCert)), (DeviceCert, Text(auth.deviceCert)), (PrivKey, Text(privKey)),
                     (ConnSettings, Conn(conn)), (HostConf, Host(auth.host))];
      ghost var issued := Issued(deviceId, auth, privKey);
      forall p | Covers(p, writes, 5) ensures base + p == issued && p != map[] {
        CoversAll(p, writes, base, deviceId, auth, privKey);
      }
      ok := InstallAll(writes, !misread, base, a, b, issued);
      if ok {
        if !misread {
          IssuedIsStored(folder.disk, deviceId, auth, privKey);
        }
        connSettings, hostSettings := Some(conn), Some(auth.host);
      }
    }

    // Stages all files and commits them.
    method InstallAll(writes: seq<(File, Data)>, ghost safe: bool, ghost x: Creds, ghost a: Creds, ghost b: Creds,
                      ghost new_: Creds)
      returns (ok: bool)
      requires safe ==> Stands(folder.disk, x, a, b) && Clean(Live(folder.disk))
      requires writes != [] && forall i, j | 0 <= i < j < |writes| :: writes[i].0 != writes[j].0
      requires forall p | Covers(p, writes, |writes|) :: x + p == new_ && p != map[]
      modifies folder
      ensures old(folder.calls) <= folder.calls && (folder.Fine(old(folder.calls)) ==> ok)
      ensures old(folder.seen) <= folder.seen
      ensures safe ==>
        && Atomic(|old(folder.seen)|, a, b, x, new_)
        && (ok ==> Settled(folder.disk, new_) && Clean(Live(folder.disk)))
        && (!ok ==> Stands(folder.disk, x, a, b) || Admits(folder.disk, x, new_))
      ensures ok && Marker in Live(old(folder.disk)) ==> folder.Exposed(|old(folder.seen)|)
    {
      hide Stands, Staged, Clean, Live, Covers, Admits, Settled, Nowhere;
      ghost var p;
      ok, p := StageAll(writes, safe, x, a, b);
      if ok {
        ok := CommitPendingRotation(safe, x, a, b, p);
      }
    }

    // Stages every file, or cleans up whichever pending files were written.
    method StageAll(writes: seq<(File, Data)>, ghost safe: bool, ghost x: Creds, ghost a: Creds, ghost b: Creds)
      returns (ok: bool, ghost p: Creds)
      requires safe ==> Stands(folder.disk, x, a, b) && Clean(Live(folder.disk))
      requires forall i, j | 0 <= i < j < |writes| :: writes[i].0 != writes[j].0
      modifies folder
      ensures old(folder.calls) <= folder.calls && (folder.Fine(old(folder.calls)) ==> ok)
      ensures old(folder.seen) <= folder.seen
      ensures safe ==>
        && folder.SafeSince(|old(folder.seen)|, a, b)
        && Stands(folder.disk, x, a, b) && Marker !in Live(folder.disk)
        && (ok ==> Staged(folder.disk, p))
      ensures ok ==> Covers(p, writes, |writes|)
      ensures ok && writes != [] && Marker in Live(old(folder.disk)) ==> folder.Exposed(|old(folder.seen)|)
    {
      hide Stands, Staged, Clean, Live, Admits, Covers, Nowhere;
      if safe {
        CleanIsStaged(folder.disk);
      }
      CoversNothing(writes);
      p := map[];
      var i := 0;
      while i < |writes|
        invariant i <= |writes| && Covers(p, writes, i)
        invariant old(folder.seen) <= folder.seen && old(folder.calls) <= folder.calls
        invariant safe ==>
          Stands(folder.disk, x, a, b) && Staged(folder.disk, p) && folder.SafeSince(|old(folder.seen)|, a, b)
        invariant i == 0 ==> folder.disk == old(folder.disk)
        invariant i > 0 && Marker in Live(old(folder.disk)) ==> folder.Exposed(|old(folder.seen)|)
      {
        CoversNext(p, writes, i);
        ok := WriteNewFile(writes[i].0, writes[i].1, safe, x, a, b, p);
        if !ok {
          Discard(safe, x, a, b);
          return false, p;
        }
        p := p[writes[i].0 := writes[i].1];
        i := i + 1;
      }
      if safe {
        StagedMeans(folder.disk, p);
      }
      ok := true;
    }

    // Cleans up whichever pending files were written; an error is not reported.
    method Discard(ghost safe: bool, ghost x: Creds, ghost a: Creds, ghost b: Creds)
      requires safe ==> Stands(folder.disk, x, a, b) && Marker !in Live(folder.disk)
      modifies folder
      ensures old(folder.calls) <= folder.calls
      ensures old(folder.seen) <= folder.seen
      ensures safe ==>
        && folder.SafeSince(|old(folder.seen)|, a, b)
        && Stands(folder.disk, x, a, b) && Marker !in Live(folder.disk)
    {
      hide Stands, Admits, Live, Lists, Harmless;
      ghost var order, syncs, n;
      var ok;
      ok, order, syncs, n := folder.RecoverPendingRotation(safe, x, a, b);
    }

    /** Installs a rotated certificate, CA certificate or endpoint. Reports whether anything was written. Unless the
        recovery it begins with overlooks a marker that is there, a power failure leaves an old or the new file set. If
        it overlooked one, a rotation that wrote something was exposed to a power failure, and one that wrote nothing
        was safe exactly when overlooking the marker was harmless. A certificate on disk that cannot be read counts as
        missing. */
    method RotateCerts(r: Rotation, ghost a: Creds, ghost b: Creds)
      returns (ok: bool, updated: bool, ghost base: Creds, ghost unread: set<File>)
      requires Admits(folder.disk, a, b)
      modifies this`connSettings, folder
      ensures old(folder.calls) <= folder.calls && (folder.Fine(old(folder.calls)) ==> ok && unread == {})
      ensures Stands(old(folder.disk), base, a, b) && unread <= {DeviceCert, CaCert}
      ensures old(folder.seen) <= folder.seen
      ensures !old(folder.Overlooks()) ==>
        Atomic(|old(folder.seen)|, a, b, base, base + Changes(base - unread, old(connSettings), r))
      ensures old(folder.Overlooks()) && updated ==> folder.Exposed(|old(folder.seen)|)
      ensures ok && !updated ==>
        (folder.SafeSince(|old(folder.seen)|, a, b) <==> !old(folder.Overlooks()) || Harmless(old(folder.disk), a, b))
      ensures ok && !old(folder.Overlooks()) ==>
        && (updated <==> Changes(base - unread, old(connSettings), r) != map[])
        && (updated ==> Settled(folder.disk, base + Changes(base - unread, old(connSettings), r)))
        && (!updated ==> Stands(folder.disk, base, a, b))
        && Clean(Live(folder.disk))
        && InstalledOn(folder.disk, base, unread, old(connSettings), r)
      ensures !ok && !old(folder.Overlooks()) ==>
        || Stands(folder.disk, base, a, b)
        || Admits(folder.disk, base, base + Changes(base - unread, old(connSettings), r))
      ensures (updated ==> ok) && connSettings == if ok then NewConn(old(connSettings), r) else old(connSettings)
    {
      hide Stands, Clean, Live, Changes, Admits, Nowhere, Harmless, InstalledOn, NewConn;
      updated, unread := false, {};
      AdmitsStands(folder.disk, a, b);
      base := if Stands(folder.disk, a, a, b) then a else b;
      ghost var misread := folder.Overlooks();
      ghost var order, syncs, n;
      ok, order, syncs, n := folder.RecoverPendingRotation(true, base, a, b);
      if ok {
        ok, updated, unread := InstallRotation(r, !misread, base, a, b);
      }
    }

    // Stages what differs, commits it and keeps the new settings in memory.
    method InstallRotation(r: Rotation, ghost safe: bool, ghost x: Creds, ghost a: Creds, ghost b: Creds)
      returns (ok: bool, updated: bool, ghost unread: set<File>)
      requires safe ==> Stands(folder.disk, x, a, b) && Clean(Live(folder.disk))
      modifies this`connSettings, folder
      ensures old(folder.calls) <= folder.calls && (folder.Fine(old(folder.calls)) ==> ok && unread == {})
      ensures old(folder.seen) <= folder.seen && unread <= {DeviceCert, CaCert}
      ensures ok ==> (DeviceCert in unread <==> !folder.succeeds(old(folder.calls)))
      ensures updated && Marker in Live(old(folder.disk)) ==> folder.Exposed(|old(folder.seen)|)
      ensures ok && !updated ==> folder.disk == old(folder.disk) && folder.seen == old(folder.seen)
      ensures safe ==>
        var next := x + Changes(x - unread, old(connSettings), r);
        && Atomic(|old(folder.seen)|, a, b, x, next)
        && (ok ==>
              && (updated <==> Changes(x - unread, old(connSettings), r) != map[])
              && (if updated then Settled(folder.disk, next) else Stands(folder.disk, x, a, b))
              && Clean(Live(folder.disk)) && InstalledOn(folder.disk, x, unread, old(connSettings), r))
        && (!ok ==> Stands(folder.disk, x, a, b) || Admits(folder.disk, x, next))
      ensures (updated ==> ok) && connSettings == if ok then NewConn(old(connSettings), r) else old(connSettings)
    {
      hide Stands, Staged, Clean, Live, Stored, Changes, ConnDiffers, Admits, Nowhere, InstalledOn, Settled;
      ghost var p;
      var pendingConn;
      ok, updated, pendingConn, p, unread := StageRotation(r, safe, x, a, b);
      if !ok {
        return;
      }
      if !updated {
        if safe {
          StagedNothing(folder.disk);
          RotationIsStored(folder.disk, x, x, a, b, unread, connSettings, r);
        }
        return;
      }
      ok := CommitPendingRotation(safe, x, a, b, p);
      if !ok {
        updated := false;
        return;
      }
      if safe {
        SettledStands(folder.disk, x + p, x + p, x + p);
        RotationIsStored(folder.disk, x + p, x, x + p, x + p, unread, connSettings, r);
      }
      if pendingConn.Some? {
        connSettings := pendingConn;
      }
    }

    // Compares the payload with disk and memory and stages the files that differ.
    method StageRotation(r: Rotation, ghost safe: bool, ghost x: Creds, ghost a: Creds, ghost b: Creds)
      returns (ok: bool, needUpdate: bool, pendingConn: Option<ConnectionSettings>, ghost p: Creds,
          ghost unread: set<File>)
      requires safe ==> Stands(folder.disk, x, a, b) && Clean(Live(folder.disk))
      modifies folder
      ensures old(folder.calls) <= folder.calls && (folder.Fine(old(folder.calls)) ==> ok && unread == {})
      ensures old(folder.seen) <= folder.seen && unread <= {DeviceCert, CaCert}
      ensures ok ==> (DeviceCert in unread <==> !folder.succeeds(old(folder.calls)))
      ensures safe ==>
        && folder.SafeSince(|old(folder.seen)|, a, b)
        && Stands(folder.disk, x, a, b) && Marker !in Live(folder.disk)
      ensures safe && ok ==>
        p == Changes(x - unread, connSettings, r) && Staged(folder.disk, p) && (needUpdate <==> p != map[])
      ensures ok ==>
        && (pendingConn == if ConnDiffers(connSettings, r) then NewConn(connSettings, r) else None)
        && (!needUpdate ==> !ConnDiffers(connSettings, r))
      ensures ok && needUpdate && Marker in Live(old(folder.disk)) ==> folder.Exposed(|old(folder.seen)|)
      ensures ok && !needUpdate ==> folder.disk == old(folder.disk) && folder.seen == old(folder.seen)
      ensures !ok ==> !needUpdate
    {
      hide Stands, Staged, Clean, Live, Admits, Stored, Holds, Changes, Moved, ConnDiffers, Nowhere;
      pendingConn := None;
      NewConnMoved(connSettings, r);
      ok, needUpdate, p, unread := StageCerts(r, safe, x, a, b);
      ConnChanges(x - unread, connSettings, r);
      if !ok {
        return;
      }
      if ConnDiffers(connSettings, r) {
        var cs := Moved(connSettings.value, r);
        ok := StageOne(ConnSettings, Conn(cs), safe, x, a, b, p);
        if !ok {
          needUpdate := false;
          return;
        }
        p := p[ConnSettings := Conn(cs)];
        pendingConn, needUpdate := Some(cs), true;
      }
    }

    // The two certificates of a rotation.
    method StageCerts(r: Rotation, ghost safe: bool, ghost x: Creds, ghost a: Creds, ghost b: Creds)
      returns (ok: bool, needUpdate: bool, ghost q: Creds, ghost unread: set<File>)
      requires safe ==> Stands(folder.disk, x, a, b) && Clean(Live(folder.disk))
      modifies folder
      ensures old(folder.calls) <= folder.calls && (folder.Fine(old(folder.calls)) ==> ok && unread == {})
      ensures old(folder.seen) <= folder.seen && unread <= {DeviceCert, CaCert}
      ensures ok ==> (DeviceCert in unread <==> !folder.succeeds(old(folder.calls)))
      ensures safe ==>
        && folder.SafeSince(|old(folder.seen)|, a, b)
        && Stands(folder.disk, x, a, b) && Marker !in Live(folder.disk)
      ensures safe && ok ==>
        q == Changes(x - unread, None, r) && Staged(folder.disk, q) && (needUpdate <==> q != map[])
      ensures ok && needUpdate && Marker in Live(old(folder.disk)) ==> folder.Exposed(|old(folder.seen)|)
      ensures ok && !needUpdate ==> folder.disk == old(folder.disk) && folder.seen == old(folder.seen)
      ensures !ok ==> !needUpdate
    {
      hide Stands, Staged, Clean, Live, Admits, Stored, Holds, CertDiffers, Changes, Lookup, Nowhere;
      if safe {
        CleanIsStaged(folder.disk);
        StagedMeans(folder.disk, map[]);
      }
      q, unread := map[], {};
      ghost var read: bool;
      ok, needUpdate, read := StageCert(DeviceCert, r.deviceCert, safe, x, a, b, q);
      if !ok {
        return;
      }
      q := if needUpdate then q[DeviceCert := Text(r.deviceCert)] else q;
      unread := if read then {} else {DeviceCert};
      if r.caCert != "" {
        var changed;
        ok, changed, read := StageCert(CaCert, r.caCert, safe, x, a, b, q);
        if !ok {
          needUpdate := false;
          return;
        }
        q := if changed then q[CaCert := Text(r.caCert)] else q;
        unread := if read then unread else unread + {CaCert};
        needUpdate := needUpdate || changed;
      }
      ChangesBuilt(x, unread, None, r);
    }

    // Stages a certificate unless it equals the one on disk; one that cannot be read counts as missing.
    method StageCert(f: File, cert: string, ghost safe: bool,
                     ghost x: Creds, ghost a: Creds, ghost b: Creds, ghost q: Creds)
      returns (ok: bool, changed: bool, ghost read: bool)
      requires safe ==> Stands(folder.disk, x, a, b) && Staged(folder.disk, q) && f !in q
      modifies folder
      ensures old(folder.calls) <= folder.calls && (folder.Fine(old(folder.calls)) ==> ok)
      ensures read == folder.succeeds(old(folder.calls)) && old(folder.calls) < folder.calls
      ensures old(folder.seen) <= folder.seen
      ensures safe ==>
        && folder.SafeSince(|old(folder.seen)|, a, b)
        && Stands(folder.disk, x, a, b) && Marker !in Live(folder.disk)
      ensures safe && ok ==>
        && changed == CertDiffers(if read then Lookup(x, f) else None, cert)
        && Staged(folder.disk, if changed then q[f := Text(cert)] else q)
      ensures ok && changed && Marker in Live(old(folder.disk)) ==> folder.Exposed(|old(folder.seen)|)
      ensures ok && !changed ==> folder.disk == old(folder.disk) && folder.seen == old(folder.seen)
      ensures !ok ==> !changed
    {
      hide Stands, Staged, Clean, Live, Admits, Stored, Holds, CertDiffers, Nowhere;
      if safe {
        StagedMeans(folder.disk, q);
        StoredIsHeld(folder.disk, x, a, b);
      }
      var current;
      current, read := folder.ReadFile(f);
      ok, changed := true, false;
      if CertDiffers(current, cert) {
        ok := StageOne(f, Text(cert), safe, x, a, b, q);
        changed := ok;
      }
    }

    // Stages one more file; on failure discards all that were staged.
    method StageOne(f: File, data: Data, ghost safe: bool,
                    ghost x: Creds, ghost a: Creds, ghost b: Creds, ghost q: Creds)
      returns (ok: bool)
      requires safe ==> Stands(folder.disk, x, a, b) && Staged(folder.disk, q) && f !in q
      modifies folder
      ensures old(folder.calls) <= folder.calls && (folder.Fine(old(folder.calls)) ==> ok)
      ensures old(folder.seen) <= folder.seen
      ensures safe ==>
        && folder.SafeSince(|old(folder.seen)|, a, b)
        && Stands(folder.disk, x, a, b) && Marker !in Live(folder.disk)
        && (ok ==> Staged(folder.disk, q[f := data]))
      ensures ok && Marker in Live(old(folder.disk)) ==> folder.Exposed(|old(folder.seen)|)
    {
      hide Stands, Staged, Clean, Live, Admits, Nowhere;
      ok := WriteNewFile(f, data, safe, x, a, b, q);
      if !ok {
        Discard(safe, x, a, b);
      }
    }

    /** Loads what the final files hold into memory, after finishing or discarding a pending rotation. A file that
        cannot be examined counts as present. Nothing is written after the recovery, so a power failure leaves one of
        the two file sets exactly when the recovery did not overlook a marker, or that was harmless. */
    method ReadFromFilesystem(ghost a: Creds, ghost b: Creds)
      returns (result: ReadResult, ghost base: Creds, ghost recovered: bool, ghost unread: set<File>)
      requires Admits(folder.disk, a, b)
      modifies this`connSettings, this`hostSettings, folder
      ensures old(folder.calls) <= folder.calls && (folder.Fine(old(folder.calls)) ==> recovered && unread == {})
      ensures Stands(old(folder.disk), base, a, b)
      ensures old(folder.seen) <= folder.seen
      ensures folder.SafeSince(|old(folder.seen)|, a, b) <==>
        !old(folder.Overlooks()) || Harmless(old(folder.disk), a, b)
      ensures !old(folder.Overlooks()) ==> Stands(folder.disk, base, a, b)
      ensures recovered && !old(folder.Overlooks()) ==>
        && Clean(Live(folder.disk)) && (forall f: File :: Stored(folder.disk, f) == Lookup(base, f))
        && (Loadable(folder.disk) <==> Complete(base))
      ensures result != Failed ==> recovered
      ensures result == Loaded ==>
        && (forall f: File :: f in unread || Stored(folder.disk, f).Some?)
        && connSettings.Some? && Stored(folder.disk, ConnSettings) == Some(Conn(connSettings.value))
        && hostSettings.Some? && Stored(folder.disk, HostConf) == Some(Host(hostSettings.value))
      ensures result == NotPaired ==> Stored(folder.disk, CaCert) == None
      ensures result == Failed && recovered && unread == {} ==>
        Stored(folder.disk, CaCert).Some? && !Loadable(folder.disk)
    {
      hide Stands, Clean, Live, Admits, Stored, Holds, Harmless, Lookup, Loadable, Complete;
      AdmitsStands(folder.disk, a, b);
      base := if Stands(folder.disk, a, a, b) then a else b;
      ghost var misread := folder.Overlooks();
      ghost var order, syncs, n;
      unread := {};
      var ok;
      ok, order, syncs, n := folder.RecoverPendingRotation(true, base, a, b);
      recovered := ok;
      if !ok {
        return Failed, base, recovered, unread;
      }
      if !misread {
        CleanIsStaged(folder.disk);
        StagedMeans(folder.disk, map[]);
        StoredIsHeld(folder.disk, base, a, b);
        LoadableIsComplete(folder.disk, base);
      }
      result, unread := ReadFiles();
    }

    // The reading itself.
    method ReadFiles() returns (result: ReadResult, ghost unread: set<File>)
      modifies this`connSettings, this`hostSettings, folder`calls
      ensures old(folder.calls) <= folder.calls && (folder.Fine(old(folder.calls)) ==> unread == {})
      ensures result == Loaded ==>
        && (forall f: File :: f in unread || Stored(folder.disk, f).Some?)
        && connSettings.Some? && Stored(folder.disk, ConnSettings) == Some(Conn(connSettings.value))
        && hostSettings.Some? && Stored(folder.disk, HostConf) == Some(Host(hostSettings.value))
      ensures result == NotPaired ==> Stored(folder.disk, CaCert) == None
      ensures result == Failed && unread == {} ==> Stored(folder.disk, CaCert).Some? && !Loadable(folder.disk)
    {
      hide Stored;
      unread := {};
      var there;
      ghost var read;
      there, read := folder.Exists(CaCert);
      if !there {
        return NotPaired, unread;
      }
      unread := if read then {} else {CaCert};
      var files := [CaCert, DeviceCert, PrivKey, ConnSettings, HostConf];
      var i := 0;
      while i < |files|
        modifies folder`calls
        invariant old(folder.calls) <= folder.calls && (folder.Fine(old(folder.calls)) ==> unread == {})
        invariant i <= |files| && (unread == {} ==> Stored(folder.disk, CaCert).Some?)
        invariant forall j | 0 <= j < i :: files[j] in unread || Stored(folder.disk, files[j]).Some?
      {
        there, read := folder.Exists(files[i]);
        if !there {
          return Failed, unread;
        }
        unread := if read then unread else unread + {files[i]};
        i := i + 1;
      }
      forall f: File ensures f in unread || Stored(folder.disk, f).Some? {
        AllListed(f);
      }
      var conn;
      conn, read := folder.ReadFile(ConnSettings);
      unread := if read then unread else unread + {ConnSettings};
      if conn == None || !conn.value.Conn? {
        return Failed, unread;
      }
      connSettings := Some(conn.value.conn);
      var host;
      host, read := folder.ReadFile(HostConf);
      unread := if read then unread else unread + {HostConf};
      if host == None || !host.value.Host? {
        return Failed, unread;
      }
      hostSettings := Some(host.value.host);
      result := Loaded;
    }
  }

  // Every file is there and the settings decode.
  predicate Loadable(d: Disk) {
    && (forall f: File :: Stored(d, f).Some?)
    && Stored(d, ConnSettings).value.Conn? && Stored(d, HostConf).value.Host?
  }

  lemma AllListed(f: File)
    ensures f in [CaCert, DeviceCert, PrivKey, ConnSettings, HostConf]
  {
    match f
    case CaCert =>
    case DeviceCert =>
    case PrivKey =>
    case ConnSettings =>
    case HostConf =>
  }

  // What loads is a complete file set.
  lemma LoadableIsComplete(d: Disk, base: Creds)
    requires forall f: File :: Stored(d, f) == Lookup(base, f)
    ensures Loadable(d) <==> Complete(base)
  {
    assert forall f: File :: Stored(d, f).Some? <==> f in base;
    hide Stored;
    if Complete(base) {
      AllFiles(base);
    }
  }

  /** Old or new, in one statement. Take any disk state a store operation passes through, let the power fail or the
      process end there, interrupt the recovery any number of times in either way, and let one recovery run to its
      end: the disk stands for a file set there was before the operation or for exactly the new one, with no trace. */
  lemma EveryFailureEndsOldOrNew(s: Store, start: nat, a: Creds, b: Creds, base: Creds, new_: Creds,
                                 j: nat, left: Disk, attempts: seq<Attempt>, order: seq<File>, syncs: Syncs)
    requires s.Atomic(start, a, b, base, new_) && start <= j < |s.folder.seen| && (base == a || base == b)
    requires Crash(s.folder.seen[j], left) || left == s.folder.seen[j]
    requires
      var (x, y) := if Admits(s.folder.seen[j], a, b) then (a, b) else (base, new_);
      Interrupted(left, attempts, x, y) && Lists(order, Live(LastDisk(left, attempts)))
    ensures
      var last := LastDisk(left, attempts);
      var end := StateAt(last, RecoverySteps(Marker in Live(last), order, syncs));
      && Clean(Live(end))
      && (Holds(end.inodes, Live(end), a) || Holds(end.inodes, Live(end), b) || Holds(end.inodes, Live(end), new_))
  {
    hide Admits, Interrupted, Crash, Holds, Lists, Clean, RecoverySteps, StateAt, LastDisk, Live;
    var d := s.folder.seen[j];
    var (x, y) := if Admits(d, a, b) then (a, b) else (base, new_);
    if Crash(d, left) {
      CrashAdmits(d, left, x, y);
    }
    RepeatedCrashesConverge(left, attempts, order, syncs, x, y);
  }
}
