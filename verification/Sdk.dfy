/** The device SDK's connection state machine: API calls and the callbacks of the current MQTT client. */
module Sdk {
  import opened Option
  import Wire
  import opened Registration
  import opened Reregistration
  import Disk

  datatype State = DISCONNECTED | PAIRING | CONNECTING | CONNECTED | RECONNECTING

  datatype PairResponse = PairResponse(deviceId: string, code: string, timeoutSeconds: int)
  datatype Load = Loaded(conn: Disk.ConnectionSettings, settings: Disk.HostSettings) | NotPaired | LoadFailed
  datatype Auth = Claimed | Standby | AuthFailed

  // What the file system, the host and the network answer during one call of Connect.
  datatype Answers = Answers(storeOpens: bool, load: Load, pair: Option<PairResponse>, auth: Auth, reload: Load,
      tls: bool, broker: bool)

  // Every assignment names a template of the same registration.
  ghost predicate CrossReferenced(r: Registration) {
    forall i | 0 <= i < |r.assignments| :: Known(r.templates, r.assignments[i].templateId)
  }

  predicate Online(s: State) {
    s == CONNECTING || s == CONNECTED || s == RECONNECTING
  }

  // Where an attempt to go online ends.
  function Attempt(a: Answers): State {
    if a.tls && a.broker then CONNECTING else DISCONNECTED
  }

  // The state a call of Connect reaches from the given one, once the host is initialised.
  function Reached(from: State, a: Answers, expired: bool): State {
    if Online(from) then from
    else if a.load.Loaded? then Attempt(a)
    else if a.load.LoadFailed? then DISCONNECTED
    else if from == DISCONNECTED then if a.pair.Some? then PAIRING else DISCONNECTED
    else if expired || a.auth == AuthFailed then DISCONNECTED
    else if a.auth == Standby then PAIRING
    else if a.reload.Loaded? then Attempt(a)
    else DISCONNECTED
  }

  // The credentials an attempt to go online uses.
  function Used(a: Answers): Load {
    if a.load.Loaded? then a.load else a.reload
  }

  /** Cross-references are complete exactly when no assignment is ignored by either
      side, so every assigned channel has a template. */
  lemma CrossReferencedMeans(r: Registration)
    ensures CrossReferenced(r) <==> forall i | 0 <= i < |r.assignments| ::
        TemplateIndex(r.templates, r.assignments[i].templateId).Some?
    ensures CrossReferenced(r) ==> forall c | Mentions(r.assignments, c) ::
        TemplateOf(r.templates, r.assignments, c).Some?
  {
    forall i | 0 <= i < |r.assignments|
      ensures Known(r.templates, r.assignments[i].templateId)
          <==> TemplateIndex(r.templates, r.assignments[i].templateId).Some?
    {
      TemplateIndexIsLast(r.templates, r.assignments[i].templateId);
    }
    if CrossReferenced(r) {
      forall c | Mentions(r.assignments, c) ensures TemplateOf(r.templates, r.assignments, c).Some? {
        TemplateOfMeans(r, c);
        LastMentionDecides(r, c, |r.assignments|);
      }
    }
  }

  lemma {:induction false} LastMentionDecides(r: Registration, c: string, n: nat)
    requires n <= |r.assignments| && CrossReferenced(r)
    requires exists k :: 0 <= k < n && r.assignments[k].channelId == c
    requires forall k | n <= k < |r.assignments| :: r.assignments[k].channelId != c
    ensures exists j :: Decides(r, c, j)
  {
    if r.assignments[n - 1].channelId == c {
      assert Decides(r, c, n - 1);
    } else {
      LastMentionDecides(r, c, n - 1);
    }
  }

  class CddSdk {
    // The hosts with a configuration file, and the verdict of the structural and version rules on a registration.
    const hosts: set<string>
    const wellFormed: Registration -> bool

    var state: State
    var hostId: string
    var registration: Option<Registration>
    var pairing: Option<PairResponse>
    var pairingStart: int
    // Settings held by the credential store in memory.
    var conn: Option<Disk.ConnectionSettings>
    var settings: Option<Disk.HostSettings>
    var mqttClient: bool
    var regDelivered: bool
    var configPayload: Option<Wire.Config>

    ghost predicate Acceptable(r: Registration) {
      wellFormed(r) && CrossReferenced(r)
    }

    /** Outside DISCONNECTED there is a host and a registration that passed validation;
        PAIRING has a pairing code; from CONNECTING on the credentials are loaded; and a
        client, a delivered registration or a cached configuration exist only then. */
    ghost predicate Valid()
      reads this
    {
      && "" !in hosts
      && (state == DISCONNECTED <==> hostId == "")
      && (state != DISCONNECTED ==> hostId in hosts && registration.Some? && Acceptable(registration.value))
      && (state == PAIRING ==> pairing.Some?)
      && (Online(state) ==> conn.Some? && settings.Some?)
      && (mqttClient <==> Online(state))
      && (regDelivered || configPayload.Some? ==> mqttClient)
    }

    constructor (hosts: set<string>, wellFormed: Registration -> bool)
      requires "" !in hosts
      ensures Valid() && state == DISCONNECTED && this.hosts == hosts && this.wellFormed == wellFormed
    {
      this.hosts, this.wellFormed := hosts, wellFormed;
      state, hostId, registration, pairing, pairingStart := DISCONNECTED, "", None, None, 0;
      conn, settings, mqttClient, regDelivered, configPayload := None, None, false, false, None;
    }

    method Reset()
      requires "" !in hosts
      modifies this`state, this`hostId, this`registration, this`mqttClient, this`regDelivered, this`configPayload
      ensures Valid() && state == DISCONNECTED && registration == None
    {
      registration, hostId, configPayload, regDelivered := None, "", None, false;
      mqttClient := false;
      state := DISCONNECTED;
    }

    method ValidateRegistration(r: Option<Registration>) returns (ok: bool)
      ensures ok <==> r.Some? && Acceptable(r.value)
    {
      if r == None {
        return false;
      }
      ok := wellFormed(r.value);
      var templates, assignments := r.value.templates, r.value.assignments;
      var byId := IndexTemplates(templates);
      CrossReferencedMeans(r.value);
      var i := 0;
      while i < |assignments|
        invariant i <= |assignments|
        invariant ok <==> wellFormed(r.value) && forall k | 0 <= k < i ::
            TemplateIndex(templates, assignments[k].templateId).Some?
      {
        if assignments[i].templateId !in byId {
          ok := false;
        }
        i := i + 1;
      }
    }

    method InitializeHost(r: Option<Registration>, host: string, storeOpens: bool) returns (ok: bool)
      modifies this`registration, this`hostId, this`conn, this`settings, this`pairing
      ensures ok <==> r.Some? && Acceptable(r.value) && host in hosts && storeOpens
      ensures ok ==> registration == r && hostId == host && conn == None && settings == None && pairing == None
      ensures !ok ==> hostId == old(hostId)
    {
      ok := ValidateRegistration(r);
      if !ok {
        return;
      }
      registration := r;
      if host !in hosts || !storeOpens {
        return false;
      }
      conn, settings, pairing := None, None, None;
      hostId := host;
    }

    method LoadCerts(load: Load)
      modifies this`conn, this`settings
      ensures load.Loaded? ==> conn == Some(load.conn) && settings == Some(load.settings)
      ensures !load.Loaded? ==> conn == old(conn) && settings == old(settings)
    {
      if load.Loaded? {
        conn, settings := Some(load.conn), Some(load.settings);
      }
    }

    /** Goes online with loaded credentials, or back to DISCONNECTED. A device that is online stays as it is. */
    method StartConnect(a: Answers) returns (ok: bool)
      requires "" !in hosts && hostId in hosts && registration.Some? && Acceptable(registration.value)
      requires conn.Some? && settings.Some?
      requires if Online(state) then mqttClient else !mqttClient && !regDelivered && configPayload == None
      modifies this`state, this`hostId, this`registration, this`mqttClient, this`regDelivered, this`configPayload
      ensures Valid() && state == if Online(old(state)) then old(state) else Attempt(a)
      ensures ok == (state != DISCONNECTED)
      ensures ok ==> hostId == old(hostId) && registration == old(registration)
      ensures Online(old(state)) ==> regDelivered == old(regDelivered) && configPayload == old(configPayload)
    {
      if state == RECONNECTING || state == CONNECTED {
        return true;
      }
      if mqttClient && state == CONNECTING {
        return true;
      }
      state := CONNECTING;
      if !a.tls {
        Reset();
        return false;
      }
      mqttClient := true;
      if !a.broker {
        Reset();
        return false;
      }
      ok := true;
    }

    /** The response says whether the call succeeded; the state reached depends only on the
        state before and on what the outside answered. A second call for the same host keeps
        the registration of the first one. */
    method Connect(r: Option<Registration>, host: string, a: Answers, now: int) returns (ok: bool)
      requires Valid()
      modifies this
      ensures Valid()
      ensures
        var again := old(hostId) != "" && old(hostId) == host;
        var accepted := r.Some? && Acceptable(r.value) && host in hosts && a.storeOpens;
        var expired := old(pairing.Some? && now - pairingStart > pairing.value.timeoutSeconds);
        && (!again && !accepted ==> state == DISCONNECTED)
        && (!again && accepted ==>
              && state == Reached(DISCONNECTED, a, false)
              && (state != DISCONNECTED ==> registration == r))
        && (again ==>
              && state == Reached(old(state), a, expired)
              && (state != DISCONNECTED ==> registration == old(registration)))
        && (state != DISCONNECTED ==> hostId == host)
        && (state == PAIRING ==> (pairing, pairingStart) == if again then old((pairing, pairingStart))
            else (a.pair, now))
        && (state == CONNECTING && !(again && Online(old(state))) ==>
              Used(a).Loaded? && conn == Some(Used(a).conn) && settings == Some(Used(a).settings))
        && ok == (state != DISCONNECTED)
      ensures
        var again := old(hostId) != "" && old(hostId) == host;
        var accepted := r.Some? && Acceptable(r.value) && host in hosts && a.storeOpens;
        var pairs := again && old(state) == PAIRING;
        var expired := pairs && now - old(pairingStart) > old(pairing).value.timeoutSeconds;
        var claimed := pairs && a.load == NotPaired && !expired && a.auth == Claimed && a.reload.Loaded?;
        && (again && old(state) in {CONNECTING, CONNECTED, RECONNECTING} ==> state == old(state))
        && (!(again && old(state) in {CONNECTING, CONNECTED, RECONNECTING}) ==>
              && state in {DISCONNECTED, PAIRING, CONNECTING}
              && (state == CONNECTING <==>
                    (again || accepted) && (a.load.Loaded? || claimed) && a.tls && a.broker))
        && (!(again && old(state) in {CONNECTING, CONNECTED, RECONNECTING}) && state == CONNECTING ==>
              var creds := if a.load.Loaded? then a.load else a.reload;
              creds.Loaded? && conn == Some(creds.conn) && settings == Some(creds.settings))
        && (pairs ==> (state == PAIRING <==> a.load == NotPaired && !expired && a.auth == Standby))
        && (!again ==> (state == PAIRING <==> accepted && a.load == NotPaired && a.pair.Some?))
      ensures Online(old(state)) && old(hostId) == host ==>
          conn == old(conn) && settings == old(settings) && configPayload == old(configPayload)
    {
      if hostId == "" || hostId != host {
        Reset();
        ok := InitializeHost(r, host, a.storeOpens);
        if !ok {
          Reset();
          return;
        }
      }
      match state
      case CONNECTING => return true;
      case CONNECTED => return true;
      case RECONNECTING => return true;
      case PAIRING => ok := HandlePairingState(a, now);
      case DISCONNECTED => ok := HandleDisconnectedState(a, now);
    }

    method HandlePairingState(a: Answers, now: int) returns (ok: bool)
      requires Valid() && state == PAIRING
      modifies this`state, this`hostId, this`registration, this`mqttClient, this`regDelivered, this`configPayload,
          this`conn, this`settings
      ensures Valid() && state == Reached(PAIRING, a, now - pairingStart > pairing.value.timeoutSeconds)
      ensures ok == (state != DISCONNECTED)
      ensures ok ==> hostId == old(hostId) && registration == old(registration)
      ensures state == CONNECTING ==>
        && Used(a).Loaded? && conn == Some(Used(a).conn)
        && settings == Some(Used(a).settings)
    {
      LoadCerts(a.load);
      if a.load.LoadFailed? {
        Reset();
        return false;
      }
      if a.load.Loaded? {
        ok := StartConnect(a);
        return;
      }
      if now - pairingStart > pairing.value.timeoutSeconds {
        Reset();
        return false;
      }
      match a.auth
      case AuthFailed =>
        Reset();
        ok := false;
      case Standby => ok := true;
      case Claimed =>
        LoadCerts(a.reload);
        if a.reload.Loaded? {
          ok := StartConnect(a);
        } else {
          Reset();
          ok := false;
        }
    }

    method HandleDisconnectedState(a: Answers, now: int) returns (ok: bool)
      requires "" !in hosts && hostId in hosts && registration.Some? && Acceptable(registration.value)
      requires state == DISCONNECTED && !mqttClient && !regDelivered && configPayload == None
      modifies this
      ensures Valid() && state == Reached(DISCONNECTED, a, false)
      ensures ok == (state != DISCONNECTED)
      ensures ok ==> hostId == old(hostId) && registration == old(registration)
      ensures state == CONNECTING ==>
        && Used(a).Loaded? && conn == Some(Used(a).conn)
        && settings == Some(Used(a).settings)
      ensures state == PAIRING ==> pairing == a.pair && pairingStart == now
    {
      LoadCerts(a.load);
      if a.load.LoadFailed? {
        Reset();
        return false;
      }
      if a.load.Loaded? {
        ok := StartConnect(a);
        return;
      }
      if a.pair == None {
        Reset();
        return false;
      }
      pairing, pairingStart := a.pair, now;
      state := PAIRING;
      ok := true;
    }

    method Disconnect()
      requires Valid()
      modifies this
      ensures Valid() && state == DISCONNECTED
    {
      Reset();
    }

    /** Always ends DISCONNECTED, but tries to delete credentials only for the connected host
        or when there is none, and reports whether that failed. */
    method Deprovision(host: string, removalSucceeds: bool) returns (ok: bool, informed: bool, deleted: bool)
      requires Valid()
      modifies this
      ensures Valid() && state == DISCONNECTED
      ensures deleted <==> (old(state) == DISCONNECTED || old(hostId) == host) && removalSucceeds
      ensures ok <==> (old(state) == DISCONNECTED || old(hostId) == host ==> removalSucceeds)
      ensures informed <==> old(state) == CONNECTED && old(hostId) == host
    {
      informed := state == CONNECTED && host == hostId;
      deleted, ok := false, true;
      if hostId == "" || hostId == host {
        ok := removalSucceeds;
        deleted := removalSucceeds;
      }
      Reset();
    }

    /** Replaces the registration by one that differs only in profiles. */
    method Register(r: Option<Registration>) returns (ok: bool)
      requires Valid()
      modifies this`registration
      ensures Valid()
      ensures ok <==> state == CONNECTED && r.Some? && Acceptable(r.value)
                      && r.value.templates != [] && r.value.assignments != []
                      && SameButProfiles(old(registration).value, r.value)
      ensures registration == if ok then r else old(registration)
    {
      if state != CONNECTED {
        return false;
      }
      ok := ValidateRegistration(r);
      if !ok || r.value.templates == [] || r.value.assignments == [] {
        return false;
      }
      var change := ValidateProfilesOnlyChange(registration, r.value);
      if change.Some? {
        return false;
      }
      registration := r;
    }

    method CanPublishNow(throttleAllows: bool) returns (ok: bool)
      ensures ok <==> state == CONNECTED && throttleAllows
    {
      ok := state == CONNECTED && throttleAllows;
    }

    // ----- callbacks of the current client -----

    method OnConnect()
      requires Valid() && mqttClient
      modifies this`state, this`regDelivered
      ensures Valid() && state == CONNECTED && regDelivered
    {
      state := CONNECTED;
      regDelivered := true;
    }

    method OnDisconnect()
      requires Valid() && mqttClient
      modifies this`state
      ensures Valid() && state == if old(state) == CONNECTED then RECONNECTING else old(state)
    {
      if state == CONNECTED {
        state := RECONNECTING;
      }
    }

    // A message that does not decode leaves the cached configuration alone.
    method UpdateConfiguration(message: Option<Wire.Config>)
      requires Valid() && mqttClient
      modifies this`configPayload
      ensures Valid() && configPayload == if message.Some? then message else old(configPayload)
    {
      if message.Some? {
        configPayload := message;
      }
    }

    /** A rotation that changed something disconnects, and keeps what is needed to connect again. */
    method UpdateCerts(updated: bool) returns (saved: Option<(Registration, string)>)
      requires Valid() && mqttClient
      modifies this
      ensures Valid()
      ensures !updated ==>
        && saved == None && state == old(state) && hostId == old(hostId)
        && registration == old(registration)
      ensures updated ==> state == DISCONNECTED && saved == Some((old(registration).value, old(hostId)))
      ensures saved.Some? ==> Acceptable(saved.value.0) && saved.value.1 in hosts
    {
      saved := None;
      if updated {
        saved := Some((registration.value, hostId));
        Disconnect();
      }
    }

    /** A second later it connects again, whatever was called in between: to the host it was rotated for,
        with the registration saved, unless it has been connected to that host again meanwhile. */
    method Reconnect(saved: (Registration, string), a: Answers, now: int) returns (ok: bool)
      requires Valid() && Acceptable(saved.0) && saved.1 in hosts
      modifies this
      ensures Valid() && ok == (state != DISCONNECTED)
      ensures state != DISCONNECTED ==>
        hostId == saved.1 && registration == if old(hostId) == saved.1 then old(registration) else Some(saved.0)
      ensures old(hostId) != saved.1 && a.storeOpens ==> state == Reached(DISCONNECTED, a, false)
      ensures old(hostId) == saved.1 && Online(old(state)) ==> state == old(state)
    {
      ok := Connect(Some(saved.0), saved.1, a, now);
    }
  }
}
