/** One device and its host together: which key, which certificate and which identity end up on the device's disk.

  A certificate is the pair of the device id and the CSR it was signed for; a
  key pair is the CSR made from it. Crashes, restarts, re-pairing, rotation and
  interrupted removal of the credentials are interleaved freely with everything
  the host does for this and other devices.
*/
module Identity {
  import opened Option
  import opened Disk
  import opened Directory
  import opened Recovery
  import opened CredentialStore
  import Lifecycle

  datatype PairResponse = PairResponse(deviceId: string, code: string, access: string)

  // `disk` is the file set the directory stands for, `spare` what a power failure may bring back instead;
  // `loaded` says that the disk was read by the store in memory.
  datatype Client = Client(
    disk: Creds, spare: set<Creds>,
    privKey: string, csr: string, conn: Option<ConnectionSettings>, settings: Option<HostSettings>,
    pairing: Option<PairResponse>, auth: Option<AuthResponse>, loaded: bool)

  // `keys` maps every CSR ever made by the device to its private key.
  datatype World = World(host: Lifecycle.Host, keys: map<string, string>, client: Client)

  const NEW_CLIENT := Client(map[], {}, "", "", None, None, None, None, false)
  const START := World(Lifecycle.EMPTY_HOST, map[], NEW_CLIENT)

  // How a two-phase write ends: completed and synchronised, or with an error, on either side of its commit point.
  datatype Outcome = Completed | FailedOld | FailedNew

  // `left` is what the disk stands for after the end of a process, or of power: in the middle of a write that may
  // be a file set other than the one before. The unread files are those that could not be examined.
  datatype Step =
    | HostStep(s: Lifecycle.Step)
    | Restart(left: Creds)
    | PowerFailure(left: Creds)
    | Generate(key: Option<string>, csr: Option<string>)
    | Request(id: string, cert: string, code: string, access: string, timeout: nat)
    | Poll(caCert: string, uri: string, region: string)
    | Save(outcome: Outcome)
    | Load(unread: set<File>)
    | Receive(rotated: Lifecycle.Rotated, uri: string, region: string, unread: set<File>, outcome: Outcome)
    | Remove(files: set<File>, parts: set<set<File>>)

  // A restart, a reset or a crash: only the disk remains.
  function Fresh(disk: Creds, spare: set<Creds>): Client {
    NEW_CLIENT.(disk := disk, spare := spare)
  }

  function Message(x: Lifecycle.Rotated, uri: string, region: string): Rotation {
    Rotation(x.cert, x.caCert, uri, region)
  }

  function Polled(w: World, p: PairResponse, caCert: string, uri: string, region: string): Option<AuthResponse> {
    match Lifecycle.Authenticate(w.host, p.deviceId, p.code, p.access).0
    case None => None
    case Some(cert) => Some(AuthResponse(caCert, cert, uri, region, HostSettings(p.deviceId)))
  }

  // The disk after a two-phase write: one that fails may leave either file set to a power failure.
  function Written(c: Client, new_: Creds, outcome: Outcome): Client {
    match outcome
    case Completed => c.(disk := new_, spare := {})
    case FailedOld => c.(spare := c.spare + {c.disk, new_})
    case FailedNew => c.(disk := new_, spare := c.spare + {c.disk, new_})
  }

  function Saved(c: Client, p: PairResponse, auth: AuthResponse, outcome: Outcome): Client {
    var w := Written(c, Issued(p.deviceId, auth, c.privKey), outcome);
    if outcome == Completed then
      w.(conn := Some(ConnectionSettings(p.deviceId, auth.uri, auth.region)), settings := Some(auth.host))
    else w
  }

  predicate Decodes(creds: Creds) {
    ConnSettings in creds && creds[ConnSettings].Conn? && HostConf in creds && creds[HostConf].Host?
  }

  // A file that cannot be examined counts as present; the settings must be there to be read.
  function Loading(c: Client, unread: set<File>): Client {
    if Decodes(c.disk) && forall f: File :: f in c.disk || f in unread then
      c.(conn := Some(c.disk[ConnSettings].conn), settings := Some(c.disk[HostConf].host), loaded := true)
    else c
  }

  // A rotation that has nothing to write changes nothing on disk, synchronised or not.
  function Received(c: Client, r: Rotation, unread: set<File>, outcome: Outcome): Client {
    var p := Changes(c.disk - unread, c.conn, r);
    var w := if p == map[] then c else Written(c, c.disk + p, outcome);
    if outcome == Completed then w.(conn := NewConn(c.conn, r)) else w
  }

  // A generator that fails leaves no CSR; the private key may be new.
  function Generated(w: World, key: Option<string>, csr: Option<string>): World {
    var c := w.client;
    if c.csr != "" || key == None then w
    else if csr == None then w.(client := c.(privKey := key.value))
    else w.(keys := w.keys[csr.value := key.value], client := c.(privKey := key.value, csr := csr.value))
  }

  // Removal takes the files away one by one; a power failure may bring some or all of them back.
  function Removed(c: Client, files: set<File>, parts: set<set<File>>): Client {
    Fresh(c.disk - files, c.spare + {c.disk} + set part | part in parts :: c.disk - part)
  }

  // Connecting asks for a code, polls and saves only when loading has found no credentials.
  // The device hears only the rotations published for the id its host settings name.
  ghost predicate Enabled(w: World, s: Step) {
    match s
    case HostStep(t) => Lifecycle.Enabled(w.host, t)
    case Restart(left) => left == w.client.disk || left in w.client.spare
    case PowerFailure(left) => left == w.client.disk || left in w.client.spare
    case Generate(_, csr) => csr.Some? ==> csr.value != "" && csr.value !in w.keys
    case Request(id, cert, code, access, timeout) =>
      && !w.client.loaded && w.client.csr != ""
      && Lifecycle.Enabled(w.host, Lifecycle.PairStep(id, w.client.csr, cert, code, access, timeout))
    case Poll(_, _, _) => !w.client.loaded && w.client.pairing.Some?
    case Save(_) => !w.client.loaded && w.client.pairing.Some? && w.client.auth.Some?
    case Load(_) => true
    case Receive(x, _, _, unread, _) =>
      && w.client.loaded && w.client.settings.Some? && unread <= {DeviceCert, CaCert}
      && x in w.host.rotated && x.deviceId == w.client.settings.value.topics
    case Remove(_, _) => true
  }

  ghost function Take(w: World, s: Step): World
    requires Enabled(w, s)
  {
    var c := w.client;
    match s
    case HostStep(t) => w.(host := Lifecycle.Take(w.host, t))
    case Restart(left) => w.(client := Fresh(left, c.spare + {c.disk}))
    case PowerFailure(left) => w.(client := Fresh(left, {}))
    case Generate(key, csr) => Generated(w, key, csr)
    case Request(id, cert, code, access, timeout) =>
      w.(host := Lifecycle.Take(w.host, Lifecycle.PairStep(id, c.csr, cert, code, access, timeout)),
         client := c.(pairing := Some(PairResponse(id, code, access)), auth := None))
    case Poll(caCert, uri, region) => w.(client := c.(auth := Polled(w, c.pairing.value, caCert, uri, region)))
    case Save(outcome) => w.(client := Saved(c, c.pairing.value, c.auth.value, outcome))
    case Load(unread) => w.(client := Loading(c, unread))
    case Receive(x, uri, region, unread, outcome) => w.(client := Received(c, Message(x, uri, region), unread, outcome))
    case Remove(files, parts) => w.(client := Removed(c, files, parts))
  }

  ghost predicate IsRun(ws: seq<World>, steps: seq<Step>) {
    && |ws| == |steps| + 1 && ws[0] == START
    && forall i | 0 <= i < |steps| :: Enabled(ws[i], steps[i]) && ws[i + 1] == Take(ws[i], steps[i])
  }

  // ----- agreement -----

  // This private key belongs to the device with this id.
  ghost predicate KeyOf(h: Lifecycle.Host, keys: map<string, string>, id: string, privKey: string) {
    id in h.csrOf && h.csrOf[id] in keys && keys[h.csrOf[id]] == privKey
  }

  // This certificate was signed for the device with this id and the CSR it paired with.
  ghost predicate CertOf(h: Lifecycle.Host, id: string, cert: string) {
    cert in h.issued && id in h.csrOf && h.issued[cert] == Lifecycle.Subject(id, h.csrOf[id])
  }

  // Whichever files there are: all that there are belong to the device that the connection settings name.
  ghost predicate Agrees(h: Lifecycle.Host, keys: map<string, string>, creds: Creds) {
    ConnSettings in creds && creds[ConnSettings].Conn? ==>
      var id := creds[ConnSettings].conn.deviceId;
      && (PrivKey in creds ==> creds[PrivKey].Text? && KeyOf(h, keys, id, creds[PrivKey].text))
      && (DeviceCert in creds ==> creds[DeviceCert].Text? && CertOf(h, id, creds[DeviceCert].text))
      && (HostConf in creds && creds[HostConf].Host? ==> creds[HostConf].host.topics == id)
  }

  ghost predicate PairingAgrees(h: Lifecycle.Host, keys: map<string, string>, c: Client) {
    && (c.csr != "" ==> c.csr in keys && keys[c.csr] == c.privKey)
    && (c.pairing.Some? ==>
          && c.csr != "" && c.pairing.value.deviceId in h.csrOf
          && h.csrOf[c.pairing.value.deviceId] == c.csr)
    && (c.pairing.Some? && c.auth.Some? ==>
          && KeyOf(h, keys, c.pairing.value.deviceId, c.privKey)
          && CertOf(h, c.pairing.value.deviceId, c.auth.value.deviceCert)
          && c.auth.value.host.topics == c.pairing.value.deviceId)
  }

  // A store that has loaded the disk knows the identity that is on it.
  ghost predicate MemoryAgrees(c: Client) {
    c.loaded ==>
      && Decodes(c.disk) && c.conn.Some? && c.settings.Some?
      && c.conn.value.deviceId == c.settings.value.topics == c.disk[ConnSettings].conn.deviceId
  }

  ghost predicate Inv(w: World) {
    && Lifecycle.Inv(w.host)
    && Agrees(w.host, w.keys, w.client.disk)
    && (forall creds | creds in w.client.spare :: Agrees(w.host, w.keys, creds))
    && PairingAgrees(w.host, w.keys, w.client)
    && MemoryAgrees(w.client)
  }

  ghost predicate MoreKeys(keys: map<string, string>, more: map<string, string>) {
    keys.Keys <= more.Keys && forall k | k in keys :: more[k] == keys[k]
  }

  lemma KeyOfGrows(h: Lifecycle.Host, g: Lifecycle.Host, keys: map<string, string>, more: map<string, string>,
                   id: string, privKey: string)
    requires KeyOf(h, keys, id, privKey) && Lifecycle.Later(h, g) && MoreKeys(keys, more)
    ensures KeyOf(g, more, id, privKey)
  {
  }

  lemma CertOfGrows(h: Lifecycle.Host, g: Lifecycle.Host, id: string, cert: string)
    requires CertOf(h, id, cert) && Lifecycle.Later(h, g)
    ensures CertOf(g, id, cert)
  {
  }

  lemma AgreesGrows(h: Lifecycle.Host, g: Lifecycle.Host, keys: map<string, string>, more: map<string, string>,
      creds: Creds)
    requires Agrees(h, keys, creds) && Lifecycle.Later(h, g) && MoreKeys(keys, more)
    ensures Agrees(g, more, creds)
  {
    hide KeyOf, CertOf, MoreKeys;
    if ConnSettings in creds && creds[ConnSettings].Conn? {
      var id := creds[ConnSettings].conn.deviceId;
      if PrivKey in creds {
        KeyOfGrows(h, g, keys, more, id, creds[PrivKey].text);
      }
      if DeviceCert in creds {
        CertOfGrows(h, g, id, creds[DeviceCert].text);
      }
    }
  }

  // Whatever the host does, and whatever keys are made, the client's part stays in agreement.
  lemma OthersGrow(w: World, h: Lifecycle.Host, keys: map<string, string>)
    requires Inv(w) && Lifecycle.Inv(h) && Lifecycle.Later(w.host, h) && MoreKeys(w.keys, keys)
    ensures Inv(World(h, keys, w.client))
  {
    hide KeyOf, CertOf, Agrees, Lifecycle.Inv;
    var c := w.client;
    AgreesGrows(w.host, h, w.keys, keys, c.disk);
    forall creds | creds in c.spare ensures Agrees(h, keys, creds) {
      AgreesGrows(w.host, h, w.keys, keys, creds);
    }
    if c.pairing.Some? && c.auth.Some? {
      KeyOfGrows(w.host, h, w.keys, keys, c.pairing.value.deviceId, c.privKey);
      CertOfGrows(w.host, h, c.pairing.value.deviceId, c.auth.value.deviceCert);
    }
  }

  // A polled certificate is the one the host keeps for the device, whoever has re-signed it.
  lemma PolledAgrees(w: World, caCert: string, uri: string, region: string)
    requires Inv(w) && w.client.pairing.Some?
    ensures
      var p := w.client.pairing.value;
      var auth := Polled(w, p, caCert, uri, region);
      auth.Some? ==>
        && KeyOf(w.host, w.keys, p.deviceId, w.client.privKey) && CertOf(w.host, p.deviceId, auth.value.deviceCert)
        && auth.value.host.topics == p.deviceId
  {
    var p := w.client.pairing.value;
    if p.deviceId in w.host.table {
      Lifecycle.Known(w.host, p.deviceId);
    }
  }

  lemma IssuedAgrees(w: World)
    requires Inv(w) && w.client.pairing.Some? && w.client.auth.Some?
    ensures Agrees(w.host, w.keys, Issued(w.client.pairing.value.deviceId, w.client.auth.value, w.client.privKey))
  {
  }

  lemma SavedAgrees(w: World, outcome: Outcome)
    requires Inv(w) && Enabled(w, Save(outcome))
    ensures Inv(w.(client := Saved(w.client, w.client.pairing.value, w.client.auth.value, outcome)))
  {
    IssuedAgrees(w);
    hide KeyOf, CertOf, Agrees, Issued, Lifecycle.Inv;
  }

  // A rotation overlays certificates and endpoint; key, settings and identity stay.
  lemma OverlayAgrees(w: World, x: Lifecycle.Rotated, uri: string, region: string, unread: set<File>)
    requires Inv(w) && Enabled(w, Receive(x, uri, region, unread, Completed))
    ensures
      var c := w.client;
      var disk := c.disk + Changes(c.disk - unread, c.conn, Message(x, uri, region));
      && Agrees(w.host, w.keys, disk) && Decodes(disk)
      && disk[ConnSettings].conn.deviceId == c.disk[ConnSettings].conn.deviceId
  {
    var c := w.client;
    var r := Message(x, uri, region);
    var p := Changes(c.disk - unread, c.conn, r);
    var disk := c.disk + p;
    ChangesMeans(c.disk - unread, c.conn, r);
    assert CertOf(w.host, x.deviceId, x.cert);
    hide Lifecycle.Inv, KeyOf, CertOf, Changes;
    assert DeviceCert !in p && DeviceCert in disk ==> disk[DeviceCert] == c.disk[DeviceCert];
  }

  lemma ReceivedAgrees(w: World, x: Lifecycle.Rotated, uri: string, region: string, unread: set<File>, outcome: Outcome)
    requires Inv(w) && Enabled(w, Receive(x, uri, region, unread, outcome))
    ensures Inv(w.(client := Received(w.client, Message(x, uri, region), unread, outcome)))
  {
    hide Lifecycle.Inv, KeyOf, CertOf, Agrees, Changes, NewConn;
    OverlayAgrees(w, x, uri, region, unread);
    ChangesMeans(w.client.disk - unread, w.client.conn, Message(x, uri, region));
  }

  lemma LoadKeeps(w: World, unread: set<File>)
    requires Inv(w)
    ensures Inv(w.(client := Loading(w.client, unread)))
  {
    hide Lifecycle.Inv, KeyOf, CertOf;
  }

  lemma ChangesMeans(cur: Creds, conn: Option<ConnectionSettings>, r: Rotation)
    ensures
      var p := Changes(cur, conn, r);
      && PrivKey !in p && HostConf !in p
      && (CaCert in p ==> p[CaCert].Text?)
      && (if DeviceCert in p then p[DeviceCert] == Text(r.deviceCert)
          else !CertDiffers(Lookup(cur, DeviceCert), r.deviceCert))
      && (ConnSettings in p ==>
            && conn.Some? && p[ConnSettings].Conn?
            && p[ConnSettings].conn.deviceId == conn.value.deviceId)
      && NewConn(conn, r).Some? == conn.Some?
      && (conn.Some? ==> NewConn(conn, r).value.deviceId == conn.value.deviceId)
  {
  }

  lemma StepKeepsInv(w: World, s: Step)
    requires Inv(w) && Enabled(w, s)
    ensures Inv(Take(w, s))
  {
    hide Lifecycle.Inv, Lifecycle.Later, Lifecycle.Enabled, Lifecycle.Take, KeyOf, CertOf, Agrees, Saved, Received,
      Removed, Generated, Polled, Issued, Changes;
    match s
    case HostStep(t) =>
      Lifecycle.StepKeepsInv(w.host, t);
      OthersGrow(w, Lifecycle.Take(w.host, t), w.keys);
    case Restart(left) =>
    case PowerFailure(left) =>
    case Generate(key, csr) => GenerateKeeps(w, key, csr);
    case Request(id, cert, code, access, timeout) => RequestKeeps(w, s);
    case Poll(caCert, uri, region) => PolledAgrees(w, caCert, uri, region);
    case Save(outcome) => SavedAgrees(w, outcome);
    case Load(unread) => LoadKeeps(w, unread);
    case Receive(x, uri, region, unread, outcome) => ReceivedAgrees(w, x, uri, region, unread, outcome);
    case Remove(files, parts) => RemovedAgrees(w, files, parts);
  }

  lemma GenerateKeeps(w: World, key: Option<string>, csr: Option<string>)
    requires Inv(w) && Enabled(w, Generate(key, csr))
    ensures Inv(Generated(w, key, csr))
  {
    hide Lifecycle.Inv, KeyOf, CertOf, Agrees;
    if w.client.csr == "" && key.Some? && csr.Some? {
      Lifecycle.LaterItself(w.host);
      OthersGrow(w, w.host, w.keys[csr.value := key.value]);
    }
  }

  lemma RequestKeeps(w: World, s: Step)
    requires Inv(w) && s.Request? && Enabled(w, s)
    ensures Inv(Take(w, s))
  {
    var t := Lifecycle.PairStep(s.id, w.client.csr, s.cert, s.code, s.access, s.timeout);
    var h := Lifecycle.Take(w.host, t);
    Lifecycle.StepKeepsInv(w.host, t);
    assert s.id in h.csrOf && h.csrOf[s.id] == w.client.csr;
    hide Lifecycle.Inv, Lifecycle.Later, Lifecycle.Take, Lifecycle.Enabled, KeyOf, CertOf;
    OthersGrow(w, h, w.keys);
  }

  // What is left of a file set holds no other files.
  lemma PartAgrees(h: Lifecycle.Host, keys: map<string, string>, creds: Creds, files: set<File>)
    requires Agrees(h, keys, creds)
    ensures Agrees(h, keys, creds - files)
  {
    hide KeyOf, CertOf;
  }

  lemma RemovedAgrees(w: World, files: set<File>, parts: set<set<File>>)
    requires Inv(w)
    ensures Inv(w.(client := Removed(w.client, files, parts)))
  {
    hide Agrees, Lifecycle.Inv;
    var c := w.client;
    PartAgrees(w.host, w.keys, c.disk, files);
    forall creds | creds in Removed(c, files, parts).spare ensures Agrees(w.host, w.keys, creds) {
      if part :| part in parts && creds == c.disk - part {
        PartAgrees(w.host, w.keys, c.disk, part);
      }
    }
  }

  lemma {:induction false} RunKeepsInv(ws: seq<World>, steps: seq<Step>, i: nat)
    requires IsRun(ws, steps) && i < |ws|
    ensures Inv(ws[i])
  {
    hide Enabled, Take;
    if i == 0 {
    } else {
      RunKeepsInv(ws, steps, i - 1);
      StepKeepsInv(ws[i - 1], steps[i - 1]);
    }
  }

  /** In every reachable state, if the credentials on disk, or those a power failure may bring back,
      would load, then the device certificate among them was signed for the device id in the
      connection settings and for a CSR made from the private key among them. */
  lemma KeyAndCertificateAgree(ws: seq<World>, steps: seq<Step>, i: nat, creds: Creds)
    requires IsRun(ws, steps) && i < |ws| && Complete(creds)
    requires creds == ws[i].client.disk || creds in ws[i].client.spare
    ensures
      var w := ws[i];
      && creds[DeviceCert].Text? && creds[DeviceCert].text in w.host.issued && creds[PrivKey].Text?
      && var subject := w.host.issued[creds[DeviceCert].text];
        && subject.deviceId == creds[ConnSettings].conn.deviceId
        && subject.csr in w.keys && w.keys[subject.csr] == creds[PrivKey].text
  {
    RunKeepsInv(ws, steps, i);
  }

  // ----- the outcomes assumed here are those of the credential store -----

  predicate Known(c: Client, x: Creds) {
    x == c.disk || x in c.spare
  }

  // The disk stands for the client's file set, and a power failure leaves that one or one of the spare ones.
  ghost predicate Shows(d: Disk, c: Client) {
    exists a: Creds, b: Creds :: Known(c, a) && Known(c, b) && Stands(d, c.disk, a, b)
  }

  lemma OneSetIsHeld(inodes: map<Inode, Content>, dir: Dir, x: Creds, y: Creds)
    requires Holds(inodes, dir, x) && Holds(inodes, dir, y)
    ensures x == y
  {
    hide Resolve;
    assert x.Keys == y.Keys;
    assert forall f | f in x :: Content(x[f], true) == Content(y[f], true);
  }

  lemma AdmitsShows(d: Disk, c: Client, a: Creds, b: Creds, new_: Creds)
    requires Known(c, a) && Known(c, b) && (Admits(d, a, b) || Admits(d, c.disk, new_))
    ensures
      var w := Written(c, new_, FailedOld);
      exists y :: Known(w, y) && Shows(d, Fresh(y, w.spare + {w.disk}))
  {
    hide Stands, Admits;
    var w := Written(c, new_, FailedOld);
    var (x, z) := if Admits(d, a, b) then (a, b) else (c.disk, new_);
    AdmitsStands(d, x, z);
    var y := if Stands(d, x, x, z) then x else z;
    assert Known(w, y) && Shows(d, Fresh(y, w.spare + {w.disk}));
  }

  lemma ShowsBy(d: Disk, c: Client, a: Creds, b: Creds)
    requires Known(c, a) && Known(c, b) && Stands(d, c.disk, a, b)
    ensures Shows(d, c)
  {
  }

  lemma StandsForOne(d: Disk, x: Creds, y: Creds, a: Creds, b: Creds)
    requires Stands(d, x, a, b) && Stands(d, y, a, b)
    ensures x == y
  {
    hide Holds, Admits;
    OneSetIsHeld(d.inodes, Live(d), x, y);
  }

  lemma CompletedShows(after: Disk, c: Client, new_: Creds)
    requires Settled(after, new_)
    ensures Shows(after, Written(c, new_, Completed))
  {
    hide Stands, Settled, Shows;
    SettledStands(after, new_, new_, new_);
    ShowsBy(after, Written(c, new_, Completed), new_, new_);
  }

  lemma FailedShows(after: Disk, c: Client, a: Creds, b: Creds, new_: Creds)
    requires Known(c, a) && Known(c, b)
    requires Stands(after, c.disk, a, b) || Admits(after, c.disk, new_)
    ensures Shows(after, Written(c, new_, FailedOld)) || Shows(after, Written(c, new_, FailedNew))
  {
    hide Stands, Admits, Shows;
    if Stands(after, c.disk, a, b) {
      ShowsBy(after, Written(c, new_, FailedOld), a, b);
    } else {
      AdmitsStands(after, c.disk, new_);
      var o := if Stands(after, c.disk, c.disk, new_) then FailedOld else FailedNew;
      ShowsBy(after, Written(c, new_, o), c.disk, new_);
    }
  }

  /** What the credential store promises of a write that ends: it ends as Written says, completed or failed on one of
      the two sides of its commit. */
  lemma EndedWriteIsAStep(d: Disk, after: Disk, c: Client, a: Creds, b: Creds, base: Creds, new_: Creds)
    requires Known(c, a) && Known(c, b) && Stands(d, c.disk, a, b) && Stands(d, base, a, b)
    ensures base == c.disk
    ensures Settled(after, new_) ==> Shows(after, Written(c, new_, Completed))
    ensures Stands(after, base, a, b) || Admits(after, base, new_) ==>
      Shows(after, Written(c, new_, FailedOld)) || Shows(after, Written(c, new_, FailedNew))
  {
    StandsForOne(d, base, c.disk, a, b);
    hide Stands, Admits, Settled, Shows, Known, Written;
    if Settled(after, new_) {
      CompletedShows(after, c, new_);
    }
    if Stands(after, base, a, b) || Admits(after, base, new_) {
      FailedShows(after, c, a, b, new_);
    }
  }

  /** And of one that is cut off: at any point, a power failure or the end of the process leaves what a PowerFailure
      step, or a Restart step, leaves after a failed write. */
  lemma CutOffWriteIsAStep(s: Store, start: nat, c: Client, a: Creds, b: Creds, new_: Creds, j: nat, left: Disk)
    requires s.Atomic(start, a, b, c.disk, new_) && start <= j < |s.folder.seen|
    requires Known(c, a) && Known(c, b)
    ensures
      var w := Written(c, new_, FailedOld);
      && (Crash(s.folder.seen[j], left) ==> exists y :: Known(w, y) && Shows(left, Fresh(y, {})))
      && (exists y :: Known(w, y) && Shows(s.folder.seen[j], Fresh(y, w.spare + {w.disk})))
  {
    hide Stands, Admits, Settled, Crash;
    var d := s.folder.seen[j];
    var w := Written(c, new_, FailedOld);
    AdmitsShows(d, c, a, b, new_);
    if Crash(d, left) {
      var (x, z) := if Admits(d, a, b) then (a, b) else (c.disk, new_);
      CrashSettles(d, left, x, z);
      var y := if Settled(left, x) then x else z;
      SettledStands(left, y, y, y);
      assert Known(Fresh(y, {}), y);
      assert Known(w, y) && Shows(left, Fresh(y, {}));
    }
  }
}
