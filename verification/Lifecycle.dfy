/** The life of a device record on the host: pairing, claim, configuration, rotation, deprovisioning, clean-up. */
module Lifecycle {
  import opened Option
  import opened Wire
  import HostConfig
  import Registration

  datatype State = PAIRING | ACTIVE | DEPROVISIONED

  // A stored registration, which may not decode.
  datatype Registered = Unregistered | Unparsed | Parsed(value: Registration.Registration)

  // What an operator notes about a device; a string is its bytes.
  datatype Labels = Labels(location: string, name: string, rotationDays: int)

  // Expiry times are whole seconds, as they are stored; the clock counts nanoseconds.
  datatype Record = Record(
    account: string, state: State, registration: Registered, desired: Option<Config>,
    updateId: nat, csr: string, cert: string, previousCert: string,
    pairingCode: string, accessCode: string, pairingExpires: nat, registrationExpires: Option<nat>,
    labels: Labels)

  // What a certificate was signed for.
  datatype Subject = Subject(deviceId: string, csr: string)

  // A certificate rotation published to a device; "" stands for an omitted CA certificate.
  datatype Rotated = Rotated(deviceId: string, cert: string, caCert: string)

  // `issued` knows every certificate ever signed, `csrOf` every device id ever given out,
  // `rotated` every rotation ever published; `doomed` and `lapsed` are the ids the two
  // clean-up loops have queried but not yet acted on.
  datatype Host = Host(
    now: nat,
    table: map<string, Record>,
    csrOf: map<string, string>,
    issued: map<string, Subject>,
    rotated: set<Rotated>,
    doomed: set<string>,
    lapsed: set<string>)

  const SECOND := 1_000_000_000
  const DAY := 86_400

  function Seconds(t: nat): nat {
    t / SECOND
  }

  const EMPTY_HOST := Host(0, map[], map[], map[], {}, {}, {})

  // ----- the service calls -----

  datatype Failure = NotFound | Conflict | Forbidden | Expired

  function Sign(h: Host, id: string, csr: string, cert: string): Host {
    h.(issued := h.issued[cert := Subject(id, csr)])
  }

  // A new record in state PAIRING, with its certificate already signed.
  function Pair(h: Host, id: string, csr: string, cert: string, code: string, access: string, timeout: nat): Host {
    var r := Record("", PAIRING, Unregistered, None, 0, csr, cert, "", code, access,
                    Seconds(h.now + timeout * SECOND), None, NO_LABELS);
    Sign(h, id, csr, cert).(table := h.table[id := r], csrOf := h.csrOf[id := csr])
  }

  // The check made at claim: the clock is past the whole second the pairing expires at.
  predicate PairingExpired(r: Record, now: nat) {
    now > r.pairingExpires * SECOND
  }

  const NO_LABELS := Labels("", "", 365)
  const LABEL_LENGTH := 40
  const FIVE_YEARS := 1825

  function Short(s: string): string {
    if |s| > LABEL_LENGTH then s[..LABEL_LENGTH] else s
  }

  // Labels as they are kept: shortened, and with an interval of thirty days to five years.
  function Kept(l: Labels): Labels {
    Labels(Short(l.location), Short(l.name),
           if l.rotationDays < 30 then 365 else if l.rotationDays > FIVE_YEARS then FIVE_YEARS else l.rotationDays)
  }

  // Associates the record with an account; a custom lifetime re-signs the certificate.
  function Claim(h: Host, id: string, account: string, expirationDays: int, credentialDays: int, labels: Labels,
                 cert: string)
    : (Host, Option<Failure>)
  {
    if id !in h.table then (h, Some(NotFound))
    else if h.table[id].state != PAIRING then (h, Some(Conflict))
    else if PairingExpired(h.table[id], h.now) then (h, Some(Expired))
    else
      var days := if expirationDays <= 0 then 730 else expirationDays;
      var resign := credentialDays > 0 && h.table[id].csr != "";
      var r := h.table[id].(
        account := account, state := ACTIVE, registrationExpires := Some(Seconds(h.now + days * DAY * SECOND)),
        cert := if resign then cert else h.table[id].cert, labels := Kept(labels));
      ((if resign then Sign(h, id, h.table[id].csr, cert) else h).(table := h.table[id := r]), None)
  }

  // What authentication polling sees: None stands for STANDBY. A claimed device gets its
  // certificate only while its pairing has not expired.
  function Authenticate(h: Host, id: string, code: string, access: string): (Option<string>, Option<Failure>) {
    if id !in h.table || h.table[id].pairingCode != code || h.table[id].accessCode != access then (None, None)
    else if PairingExpired(h.table[id], h.now) then (None, Some(Expired))
    else if h.table[id].state == PAIRING then (None, None)
    else (Some(h.table[id].cert), None)
  }

  function Retire(h: Host, id: string): Host {
    if id in h.table then
      h.(table := h.table[id := h.table[id].(state := DEPROVISIONED, desired := None)])
    else h
  }

  function Deprovision(h: Host, id: string, account: string): (Host, Option<Failure>) {
    if id !in h.table then (h, Some(NotFound))
    else if h.table[id].account != account then (h, Some(Forbidden))
    else if h.table[id].state == DEPROVISIONED then (h, None)
    else (Retire(h, id), None)
  }

  // The device reports that it has deprovisioned itself.
  function Acknowledge(h: Host, id: string): Host {
    if id in h.table && h.table[id].state != DEPROVISIONED then Retire(h, id) else h
  }

  // Signs the device's stored CSR again and publishes the result.
  function Reissue(h: Host, id: string, csr: string, cert: string, caCert: string): Host {
    Sign(h, id, csr, cert).(
      table := if id in h.table then h.table[id := h.table[id].(cert := cert, previousCert := h.table[id].cert)]
          else h.table,
      rotated := h.rotated + {Rotated(id, cert, caCert)})
  }

  function Rotate(h: Host, id: string, account: string, cert: string, caCert: string): (Host, Option<Failure>) {
    if id !in h.table then (h, Some(NotFound))
    else if h.table[id].account != account then (h, Some(Forbidden))
    else if h.table[id].state != ACTIVE then (h, Some(Conflict))
    else (Reissue(h, id, h.table[id].csr, cert, caCert), None)
  }

  // A configuration update that has passed validation.
  function Configure(h: Host, id: string, account: string, u: HostConfig.Update): (Host, Option<Failure>) {
    if id !in h.table then (h, Some(NotFound))
    else if h.table[id].account != account then (h, Some(Forbidden))
    else if h.table[id].state == DEPROVISIONED then (h, Some(Conflict))
    else
      var (c, next) := HostConfig.Perform(h.table[id].desired, u, h.now);
      var r := h.table[id].(desired := Some(c), updateId := h.table[id].updateId + 1);
      (h.(now := next, table := h.table[id := r]), None)
  }

  function Register(h: Host, id: string, r: Registered): Host {
    if id in h.table then h.(table := h.table[id := h.table[id].(registration := r)]) else h
  }

  // ----- the background loops -----

  function QueryExpiredPairings(h: Host): Host {
    h.(doomed := set id | id in h.table && h.table[id].state == PAIRING && h.table[id].pairingExpires < Seconds(h.now))
  }

  function QueryExpiredRegistrations(h: Host): Host {
    h.(lapsed := set id | id in h.table && h.table[id].state == ACTIVE
                   && h.table[id].registrationExpires.Some? && h.table[id].registrationExpires.value < Seconds(h.now))
  }

  // What the two queries select: expiries that lie at least one whole second back.
  lemma QueriesSelect(h: Host, id: string)
    ensures id in QueryExpiredPairings(h).doomed <==>
      id in h.table && h.table[id].state == PAIRING && (h.table[id].pairingExpires + 1) * 1_000_000_000 <= h.now
    ensures id in QueryExpiredRegistrations(h).lapsed <==>
      && id in h.table && h.table[id].state == ACTIVE && h.table[id].registrationExpires.Some?
      && (h.table[id].registrationExpires.value + 1) * 1_000_000_000 <= h.now
  {
    if id in h.table {
      WholeSeconds(h.table[id].pairingExpires, h.now);
      if h.table[id].registrationExpires.Some? {
        WholeSeconds(h.table[id].registrationExpires.value, h.now);
      }
    }
  }

  lemma WholeSeconds(expires: nat, now: nat)
    ensures expires < Seconds(now) <==> (expires + 1) * 1_000_000_000 <= now
  {
  }

  function Delete(h: Host, id: string): Host {
    h.(table := h.table - {id})
  }

  // ----- runs -----

  // Cert and id arguments are what the signer and the generator returned.
  datatype Step =
    | PairStep(id: string, csr: string, cert: string, code: string, access: string, timeout: nat)
    | ClaimStep(id: string, account: string, days: int, credentialDays: int, labels: Labels, cert: string)
    | ConfigureStep(id: string, account: string, u: HostConfig.Update)
    | RegisterStep(id: string, registration: Registered)
    | DeprovisionStep(id: string, account: string)
    | AcknowledgeStep(id: string)
    | RotateStep(id: string, account: string, cert: string, caCert: string)
    | AutoRotateStep(id: string, cert: string)
    | QueryPairingsStep
    | DeletePairingStep(id: string)
    | QueryRegistrationsStep
    | ExpireStep(id: string)
    | RemoveStep(id: string)
    | TimeStep(to: nat)

  // Ids and certificates are fresh, accounts have names, time does not go back.
  ghost predicate Enabled(h: Host, s: Step) {
    match s
    case PairStep(id, csr, cert, _, _, _) => id !in h.csrOf && cert !in h.issued
    case ClaimStep(_, account, _, _, _, cert) => account != "" && cert !in h.issued
    case DeprovisionStep(_, account) => account != ""
    case RotateStep(_, account, cert, _) => account != "" && cert !in h.issued
    case AutoRotateStep(id, cert) => id in h.csrOf && cert !in h.issued
    case DeletePairingStep(id) => id in h.doomed
    case ExpireStep(id) => id in h.lapsed
    case TimeStep(to) => h.now <= to
    case _ => true
  }

  function Take(h: Host, s: Step): Host {
    match s
    case PairStep(id, csr, cert, code, access, timeout) => Pair(h, id, csr, cert, code, access, timeout)
    case ClaimStep(id, account, days, credentialDays, labels, cert) =>
      Claim(h, id, account, days, credentialDays, labels, cert).0
    case ConfigureStep(id, account, u) => Configure(h, id, account, u).0
    case RegisterStep(id, r) => Register(h, id, r)
    case DeprovisionStep(id, account) => Deprovision(h, id, account).0
    case AcknowledgeStep(id) => Acknowledge(h, id)
    case RotateStep(id, account, cert, caCert) => Rotate(h, id, account, cert, caCert).0
    case AutoRotateStep(id, cert) => if id in h.csrOf then Reissue(h, id, h.csrOf[id], cert, "") else h
    case QueryPairingsStep => QueryExpiredPairings(h)
    case DeletePairingStep(id) => Delete(h, id).(doomed := h.doomed - {id})
    case QueryRegistrationsStep => QueryExpiredRegistrations(h)
    case ExpireStep(id) => Retire(h, id).(lapsed := h.lapsed - {id})
    case RemoveStep(id) => Delete(h, id)
    case TimeStep(to) => h.(now := to)
  }

  // At most the one record differs, and no id appears.
  ghost predicate OthersKept(h: Host, g: Host, id: string) {
    && (forall other | other != id :: (other in h.table <==> other in g.table))
    && (forall other | other != id && other in h.table :: g.table[other] == h.table[other])
    && (id in g.table ==> id in h.table)
  }

  /** What the steps do that the device's messages and the background loops take. */
  lemma BackgroundSteps(h: Host, s: Step)
    requires Enabled(h, s)
    ensures
      var g := Take(h, s);
      match s
      case RegisterStep(id, r) =>
        OthersKept(h, g, id) && (id in h.table ==> id in g.table && g.table[id] == h.table[id].(registration := r))
      case AcknowledgeStep(id) =>
        && OthersKept(h, g, id)
        && (id in h.table ==>
              && id in g.table && g.table[id].state == DEPROVISIONED
              && (h.table[id].state != DEPROVISIONED ==>
                    g.table[id] == h.table[id].(state := DEPROVISIONED, desired := None)))
      case AutoRotateStep(id, cert) =>
        && OthersKept(h, g, id) && g.rotated == h.rotated + {Rotated(id, cert, "")}
        && cert in g.issued && g.issued[cert] == Subject(id, h.csrOf[id])
        && (id in h.table ==>
              id in g.table && g.table[id] == h.table[id].(cert := cert, previousCert := h.table[id].cert))
      case DeletePairingStep(id) => OthersKept(h, g, id) && id !in g.table && g.doomed == h.doomed - {id}
      case ExpireStep(id) =>
        && OthersKept(h, g, id) && g.lapsed == h.lapsed - {id}
        && (id in h.table ==> id in g.table && g.table[id] == h.table[id].(state := DEPROVISIONED, desired := None))
      case RemoveStep(id) => OthersKept(h, g, id) && id !in g.table
      case TimeStep(to) => g == h.(now := to)
      case _ => true
  {
  }

  ghost predicate IsRun(hs: seq<Host>, steps: seq<Step>) {
    && |hs| == |steps| + 1 && hs[0] == EMPTY_HOST
    && forall i | 0 <= i < |steps| :: Enabled(hs[i], steps[i]) && hs[i + 1] == Take(hs[i], steps[i])
  }

  // ----- the invariant -----

  ghost predicate RecordOk(h: Host, id: string, r: Record) {
    && (r.state == PAIRING ==> r.account == "")
    && (r.state == ACTIVE ==> r.account != "")
    && (r.state == DEPROVISIONED ==> r.desired == None)
    && id in h.csrOf && h.csrOf[id] == r.csr
    && r.cert in h.issued && h.issued[r.cert] == Subject(id, r.csr)
  }

  ghost predicate Inv(h: Host) {
    && (forall id | id in h.table :: RecordOk(h, id, h.table[id]))
    && (forall x | x in h.rotated ::
          && x.deviceId in h.csrOf && x.cert in h.issued
          && h.issued[x.cert] == Subject(x.deviceId, h.csrOf[x.deviceId]))
    && (forall id | id in h.doomed ::
          && id in h.csrOf
          && (id in h.table ==> h.table[id].account == "" && PairingExpired(h.table[id], h.now)))
    && (forall id | id in h.lapsed :: id in h.csrOf && (id in h.table ==> h.table[id].state != PAIRING))
  }

  // How one record may change: the account is set once, DEPROVISIONED is final, identity is fixed.
  ghost predicate Grows(r: Record, s: Record) {
    && (r.account != "" ==> s.account == r.account)
    && (r.state == DEPROVISIONED ==> s.state == DEPROVISIONED)
    && (r.state == ACTIVE ==> s.state != PAIRING)
    && (s.state == ACTIVE && r.state == PAIRING ==> s.account != "")
    && s.csr == r.csr && s.pairingExpires == r.pairingExpires
    && s.updateId >= r.updateId
  }

  ghost predicate Later(h: Host, g: Host) {
    && h.now <= g.now
    && h.csrOf.Keys <= g.csrOf.Keys && (forall id | id in h.csrOf :: g.csrOf[id] == h.csrOf[id])
    && h.issued.Keys <= g.issued.Keys && (forall c | c in h.issued :: g.issued[c] == h.issued[c])
    && h.rotated <= g.rotated
    && (forall id | id in g.table && id in h.csrOf :: id in h.table && Grows(h.table[id], g.table[id]))
  }

  // An id that the clean-up query saw as expired can no longer be claimed.
  lemma QueriedIsExpired(expires: nat, now: nat)
    requires expires < Seconds(now)
    ensures now > expires * SECOND
  {
  }

  lemma Known(h: Host, id: string)
    requires Inv(h) && id in h.table
    ensures id in h.csrOf && RecordOk(h, id, h.table[id])
  {
  }

  lemma GrowsItself(r: Record)
    ensures Grows(r, r)
  {
  }

  lemma OthersStayOk(h: Host, g: Host, id: string)
    requires Inv(h) && id in h.table && h.now <= g.now
    requires id in g.csrOf && g.csrOf[id] == h.csrOf[id]
    requires h.issued.Keys <= g.issued.Keys && forall c | c in h.issued :: g.issued[c] == h.issued[c]
    ensures RecordOk(g, id, h.table[id])
  {
    assert RecordOk(h, id, h.table[id]);
  }

  // Signing, publishing and the clock only ever add to what is known.
  ghost predicate Adds(h: Host, g: Host) {
    && h.now <= g.now && g.csrOf == h.csrOf && g.doomed == h.doomed && g.lapsed == h.lapsed
    && h.issued.Keys <= g.issued.Keys && (forall c | c in h.issued :: g.issued[c] == h.issued[c])
    && h.rotated <= g.rotated
    && (forall x | x in g.rotated - h.rotated ::
          && x.deviceId in g.csrOf && x.cert in g.issued
          && g.issued[x.cert] == Subject(x.deviceId, g.csrOf[x.deviceId]))
  }

  // A step that changes at most the one record, and that one only as records may change, keeps the invariant.
  lemma OneRecordChanges(h: Host, g: Host, id: string)
    requires Inv(h) && Adds(h, g) && g.table.Keys == h.table.Keys
    requires forall k | k in g.table && k != id :: g.table[k] == h.table[k]
    requires id in g.table ==> RecordOk(g, id, g.table[id]) && Grows(h.table[id], g.table[id])
    requires id in g.table && id in h.doomed ==> g.table[id].account == ""
    ensures Inv(g) && Later(h, g)
  {
    hide RecordOk, Grows;
    forall k | k in g.table ensures RecordOk(g, k, g.table[k]) && Grows(h.table[k], g.table[k]) {
      if k != id {
        Known(h, k);
        OthersStayOk(h, g, k);
        GrowsItself(h.table[k]);
      }
    }
    forall k | k in g.doomed && k in g.table ensures g.table[k].account == "" && PairingExpired(g.table[k], g.now) {
      GrowsMeans(h.table[k], g.table[k]);
    }
    forall k | k in g.lapsed && k in g.table ensures g.table[k].state != PAIRING {
      GrowsMeans(h.table[k], g.table[k]);
    }
  }

  lemma GrowsMeans(r: Record, s: Record)
    requires Grows(r, s)
    ensures s.pairingExpires == r.pairingExpires && (r.state != PAIRING ==> s.state != PAIRING)
  {
  }

  // ----- each kind of step -----

  lemma PairKeeps(h: Host, s: Step)
    requires Inv(h) && s.PairStep? && Enabled(h, s)
    ensures Inv(Take(h, s)) && Later(h, Take(h, s))
  {
    PairIsLater(h, s);
    hide Grows, Later;
    var g := Take(h, s);
    assert RecordOk(g, s.id, g.table[s.id]);
    forall id | id in h.table ensures g.table[id] == h.table[id] && RecordOk(g, id, g.table[id]) {
      Known(h, id);
      OthersStayOk(h, g, id);
    }
    hide RecordOk;
  }

  lemma PairIsLater(h: Host, s: Step)
    requires Inv(h) && s.PairStep? && Enabled(h, s)
    ensures Later(h, Take(h, s))
  {
    hide Grows;
    var g := Take(h, s);
    forall id | id in h.table ensures g.table[id] == h.table[id] && Grows(h.table[id], g.table[id]) {
      Known(h, id);
      GrowsItself(h.table[id]);
    }
    hide Inv, RecordOk;
  }

  lemma ClaimKeeps(h: Host, s: Step)
    requires Inv(h) && s.ClaimStep? && Enabled(h, s)
    ensures Inv(Take(h, s)) && Later(h, Take(h, s))
  {
    hide Later, Grows;
    var g := Take(h, s);
    if s.id in h.table {
      Known(h, s.id);
      GrowsItself(h.table[s.id]);
      ClaimGrows(h, s);
    }
    OneRecordChanges(h, g, s.id);
  }

  // A record waiting for deletion has expired, so its claim is refused.
  lemma ClaimGrows(h: Host, s: Step)
    requires s.ClaimStep? && Enabled(h, s) && s.id in h.table && h.table[s.id].state == PAIRING ==>
        h.table[s.id].account == ""
    requires s.ClaimStep? && s.id in h.table && Enabled(h, s)
    ensures Grows(h.table[s.id], Take(h, s).table[s.id])
    ensures PairingExpired(h.table[s.id], h.now) ==> Take(h, s).table[s.id] == h.table[s.id]
  {
  }

  lemma ConfigureKeeps(h: Host, s: Step)
    requires Inv(h) && s.ConfigureStep? && Enabled(h, s)
    ensures Inv(Take(h, s)) && Later(h, Take(h, s))
  {
    hide Later, HostConfig.Perform;
    var g := Take(h, s);
    if s.id in h.table {
      Known(h, s.id);
      if Configure(h, s.id, s.account, s.u).1 == None {
        ClockMoves(h.table[s.id].desired, s.u, h.now);
      }
    }
    OneRecordChanges(h, g, s.id);
  }

  lemma ClockMoves(current: Option<Config>, u: HostConfig.Update, now: nat)
    ensures now < HostConfig.Perform(current, u, now).1
  {
  }

  lemma RetireKeeps(h: Host, id: string)
    requires Inv(h)
    ensures Inv(Retire(h, id)) && Later(h, Retire(h, id))
  {
    hide Later;
    if id in h.table {
      Known(h, id);
    }
    OneRecordChanges(h, Retire(h, id), id);
  }

  lemma RegisterKeeps(h: Host, id: string, r: Registered)
    requires Inv(h)
    ensures Inv(Register(h, id, r)) && Later(h, Register(h, id, r))
  {
    hide Later;
    if id in h.table {
      Known(h, id);
    }
    OneRecordChanges(h, Register(h, id, r), id);
  }

  lemma ReissueKeeps(h: Host, id: string, cert: string, caCert: string)
    requires Inv(h) && id in h.csrOf && cert !in h.issued
    ensures Inv(Reissue(h, id, h.csrOf[id], cert, caCert)) && Later(h, Reissue(h, id, h.csrOf[id], cert, caCert))
  {
    hide Later;
    if id in h.table {
      Known(h, id);
    }
    OneRecordChanges(h, Reissue(h, id, h.csrOf[id], cert, caCert), id);
  }

  lemma DeleteKeeps(h: Host, id: string, doomed: set<string>)
    requires Inv(h) && doomed <= h.doomed
    ensures
      var g := Delete(h, id).(doomed := doomed);
      Inv(g) && Later(h, g)
  {
    hide RecordOk, Grows;
    var g := Delete(h, id).(doomed := doomed);
    forall k | k in g.table ensures RecordOk(g, k, g.table[k]) && Grows(h.table[k], g.table[k]) {
      Known(h, k);
      OthersStayOk(h, g, k);
      GrowsItself(h.table[k]);
    }
  }

  lemma QueriesKeep(h: Host)
    requires Inv(h)
    ensures Inv(QueryExpiredPairings(h)) && Later(h, QueryExpiredPairings(h))
    ensures Inv(QueryExpiredRegistrations(h)) && Later(h, QueryExpiredRegistrations(h))
  {
    var g := QueryExpiredPairings(h);
    forall id | id in g.doomed
      ensures id in g.csrOf && g.table[id].account == "" && PairingExpired(g.table[id], g.now)
    {
      Known(h, id);
      QueriedIsExpired(h.table[id].pairingExpires, h.now);
    }
    var l := QueryExpiredRegistrations(h);
    forall id | id in h.table ensures RecordOk(g, id, g.table[id]) && RecordOk(l, id, l.table[id]) {
      Known(h, id);
    }
  }

  lemma TimeKeeps(h: Host, to: nat)
    requires Inv(h) && h.now <= to
    ensures Inv(h.(now := to)) && Later(h, h.(now := to))
  {
    hide Later;
    var g := h.(now := to);
    if "" in h.table {
      Known(h, "");
      OthersStayOk(h, g, "");
      GrowsItself(h.table[""]);
    }
    OneRecordChanges(h, g, "");
  }

  lemma StepKeepsInv(h: Host, s: Step)
    requires Inv(h) && Enabled(h, s)
    ensures Inv(Take(h, s)) && Later(h, Take(h, s))
  {
    hide Inv, Later, RecordOk;
    LaterItself(h);
    match s
    case PairStep(_, _, _, _, _, _) => PairKeeps(h, s);
    case ClaimStep(_, _, _, _, _, _) => ClaimKeeps(h, s);
    case ConfigureStep(_, _, _) => ConfigureKeeps(h, s);
    case RegisterStep(id, r) => RegisterKeeps(h, id, r);
    case DeprovisionStep(id, _) => RetireKeeps(h, id);
    case AcknowledgeStep(id) => RetireKeeps(h, id);
    case RotateStep(id, _, cert, caCert) =>
      if id in h.table {
        KnownCsr(h, id);
        ReissueKeeps(h, id, cert, caCert);
      }
    case AutoRotateStep(id, cert) => ReissueKeeps(h, id, cert, "");
    case QueryPairingsStep => QueriesKeep(h);
    case DeletePairingStep(id) => DeleteKeeps(h, id, h.doomed - {id});
    case QueryRegistrationsStep => QueriesKeep(h);
    case ExpireStep(id) =>
      RetireKeeps(h, id);
      LapsedShrinks(h, Retire(h, id), id);
    case RemoveStep(id) => DeleteKeeps(h, id, h.doomed);
    case TimeStep(to) => TimeKeeps(h, to);
  }

  lemma LaterItself(h: Host)
    ensures Later(h, h)
  {
  }

  lemma KnownCsr(h: Host, id: string)
    requires Inv(h) && id in h.table
    ensures id in h.csrOf && h.csrOf[id] == h.table[id].csr
  {
    Known(h, id);
  }

  lemma LapsedShrinks(h: Host, g: Host, id: string)
    requires Inv(g) && Later(h, g) && g.lapsed == h.lapsed
    ensures Inv(g.(lapsed := h.lapsed - {id})) && Later(h, g.(lapsed := h.lapsed - {id}))
  {
    var l := g.(lapsed := h.lapsed - {id});
    forall k | k in l.table ensures RecordOk(l, k, l.table[k]) {
      Known(g, k);
    }
  }

  lemma LaterTransitive(a: Host, b: Host, c: Host)
    requires Inv(a) && Inv(b) && Later(a, b) && Later(b, c)
    ensures Later(a, c)
  {
    forall id | id in c.table && id in a.csrOf ensures id in a.table && Grows(a.table[id], c.table[id]) {
      assert id in b.csrOf;
      assert Grows(b.table[id], c.table[id]) && Grows(a.table[id], b.table[id]);
    }
  }

  lemma {:induction false} RunIsMonotone(hs: seq<Host>, steps: seq<Step>, i: nat, j: nat)
    requires IsRun(hs, steps) && i <= j < |hs|
    ensures Inv(hs[i]) && Inv(hs[j]) && Later(hs[i], hs[j])
    decreases j
  {
    hide Later, RecordOk, Enabled;
    if j == 0 {
      LaterItself(hs[0]);
    } else {
      if i < j {
        RunIsMonotone(hs, steps, i, j - 1);
      } else {
        RunIsMonotone(hs, steps, j - 1, j - 1);
      }
      StepKeepsInv(hs[j - 1], steps[j - 1]);
      LaterItself(hs[j]);
      if i < j {
        LaterTransitive(hs[i], hs[j - 1], hs[j]);
      }
    }
  }

  /** Over every run: once a record has an account it keeps it; DEPROVISIONED is left only by
      deletion and such a record has no desired configuration; and the pairing clean-up
      deletes only records that were never claimed. */
  lemma LifecycleIsSafe(hs: seq<Host>, steps: seq<Step>, i: nat, j: nat, id: string)
    requires IsRun(hs, steps) && i <= j < |hs| && id in hs[i].table
    ensures id in hs[j].table ==>
      && (hs[i].table[id].account != "" ==> hs[j].table[id].account == hs[i].table[id].account)
      && (hs[i].table[id].state == DEPROVISIONED ==> hs[j].table[id].state == DEPROVISIONED)
      && hs[j].table[id].csr == hs[i].table[id].csr
    ensures hs[i].table[id].state == DEPROVISIONED ==> hs[i].table[id].desired == None
    ensures i < |steps| && steps[i] == DeletePairingStep(id) ==>
        hs[i].table[id].account == "" && hs[i].table[id].state != ACTIVE
  {
    RunIsMonotone(hs, steps, i, j);
    Known(hs[i], id);
    if i < |steps| && steps[i] == DeletePairingStep(id) {
      assert Enabled(hs[i], steps[i]);
    }
  }
}
