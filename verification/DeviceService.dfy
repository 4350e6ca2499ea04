/** The host's device service: each call checks the caller, changes the device table and publishes. */
module DeviceService {
  import opened Option
  import opened Wire
  import opened Registration
  import HostConfig
  import Lifecycle
  import Validation

  datatype Refusal = Refused(reason: Lifecycle.Failure) | Invalid(error: Validation.Error) | InvalidRegistration
      | UnknownChannel

  // The retained configuration message of a device.
  datatype Envelope = Envelope(updateId: nat, config: Config)

  // Why pairing is refused, in the order the checks are made.
  datatype PairFailure = HostIdMismatch | VersionNotSupported | DeviceTypeNotSupported

  // At most the one record differs, and the ids are the same.
  ghost predicate OthersKept(before: map<string, Lifecycle.Record>, after: map<string, Lifecycle.Record>, id: string) {
    forall other | other != id :: (other in before <==> other in after) && (other in before ==>
      after[other] == before[other])
  }

  lemma OneRecord(before: map<string, Lifecycle.Record>, id: string, r: Lifecycle.Record)
    ensures OthersKept(before, before[id := r], id)
  {
  }

  // The last whole second that is not after the clock value.
  ghost predicate SecondOf(s: nat, t: int) {
    s * 1_000_000_000 <= t < (s + 1) * 1_000_000_000
  }

  lemma SecondsMeans(t: nat)
    ensures SecondOf(Lifecycle.Seconds(t), t)
  {
  }

  // A record as pairing leaves it.
  ghost predicate Paired(r: Lifecycle.Record, csr: string, cert: string, code: string, access: string, until: nat) {
    && r.state == Lifecycle.PAIRING && r.account == "" && r.csr == csr && r.cert == cert && r.previousCert == ""
    && r.pairingCode == code && r.accessCode == access && SecondOf(r.pairingExpires, until)
    && r.registration == Lifecycle.Unregistered && r.desired == None && r.updateId == 0
    && r.registrationExpires == None && r.labels == Lifecycle.Labels("", "", 365)
  }

  // At most forty characters of each text, and an interval of thirty days to five years.
  ghost predicate LabelsKept(given: Lifecycle.Labels, kept: Lifecycle.Labels) {
    && kept.location <= given.location && |kept.location| == (if |given.location| <= 40 then |given.location| else 40)
    && kept.name <= given.name && |kept.name| == (if |given.name| <= 40 then |given.name| else 40)
    && (30 <= given.rotationDays <= 1825 ==> kept.rotationDays == given.rotationDays)
    && (given.rotationDays < 30 ==> kept.rotationDays == 365)
    && (given.rotationDays > 1825 ==> kept.rotationDays == 1825)
  }

  method KeepLabels(labels: Lifecycle.Labels) returns (kept: Lifecycle.Labels)
    ensures kept == Lifecycle.Kept(labels) && LabelsKept(labels, kept)
  {
    var interval := labels.rotationDays;
    if interval < 30 {
      interval := 365;
    }
    if interval > Lifecycle.FIVE_YEARS {
      interval := Lifecycle.FIVE_YEARS;
    }
    var location, name := labels.location, labels.name;
    if |location| > Lifecycle.LABEL_LENGTH {
      location := location[..Lifecycle.LABEL_LENGTH];
    }
    if |name| > Lifecycle.LABEL_LENGTH {
      name := name[..Lifecycle.LABEL_LENGTH];
    }
    kept := Lifecycle.Labels(location, name, interval);
  }

  // A record as a claim leaves it: the account, the new state, the expiry, the labels and perhaps a new certificate.
  ghost predicate ClaimedAs(was: Lifecycle.Record, r: Lifecycle.Record, account: string, until: int,
                            resigned: bool, cert: string, labels: Lifecycle.Labels)
  {
    && r.state == Lifecycle.ACTIVE && r.account == account && r.cert == (if resigned then cert else was.cert)
    && r.registrationExpires.Some? && SecondOf(r.registrationExpires.value, until)
    && LabelsKept(labels, r.labels)
    && (r.registration, r.desired, r.updateId) == (was.registration, was.desired, was.updateId)
    && (r.csr, r.previousCert) == (was.csr, was.previousCert)
    && (r.pairingCode, r.accessCode, r.pairingExpires) == (was.pairingCode, was.accessCode, was.pairingExpires)
  }

  // Only the desired configuration and the update id of the one record change.
  ghost predicate OnlyDesired(before: map<string, Lifecycle.Record>, after: map<string, Lifecycle.Record>, id: string) {
    && id in before && id in after && OthersKept(before, after, id)
    && after[id] == before[id].(desired := after[id].desired, updateId := before[id].updateId + 1)
  }

  predicate Assigned(r: Registration, channelId: string) {
    Mentions(r.assignments, channelId) || channelId in r.legacyChannels
  }

  // What the caller must satisfy before any configuration update.
  function Checked(table: map<string, Lifecycle.Record>, id: string, account: string): Option<Lifecycle.Failure> {
    if id !in table then Some(Lifecycle.NotFound)
    else if table[id].account != account then Some(Lifecycle.Forbidden)
    else if table[id].state == Lifecycle.DEPROVISIONED then Some(Lifecycle.Conflict)
    else None
  }

  // ----- the loops that compare and look up channels -----

  method ChannelContentChanged(incoming: Channel, stored: Option<Channel>) returns (changed: bool)
    ensures changed <==> HostConfig.ChannelContentChanged(incoming, stored)
  {
    if stored == None {
      return true;
    }
    var keys := incoming.Keys;
    while keys != {}
      invariant keys <= incoming.Keys
      invariant forall k | k in incoming && k !in keys && k != "version" ::
          k in stored.value && stored.value[k] == incoming[k]
      decreases |keys|
    {
      var k :| k in keys;
      keys := keys - {k};
      if k != "version" && (k !in stored.value || stored.value[k] != incoming[k]) {
        return true;
      }
    }
    changed := false;
  }

  // The stored channels by id; a later one replaces an earlier one.
  method IndexChannels(channels: seq<Channel>) returns (byId: map<string, Channel>)
    ensures forall id: string :: HostConfig.Find(channels, id) == if id in byId then Some(byId[id]) else None
  {
    byId := map[];
    var i := 0;
    while i < |channels|
      invariant i <= |channels|
      invariant forall id: string :: HostConfig.Find(channels[..i], id) == if id in byId then Some(byId[id]) else None
    {
      assert channels[..i + 1][..i] == channels[..i];
      if Get(channels[i], "id").Str? {
        byId := byId[channels[i]["id"].s := channels[i]];
      }
      i := i + 1;
    }
    assert channels[..i] == channels;
  }

  // Looks through the assignments, and then through the flat list of the older form.
  method ChannelExists(channelId: string, r: Registration) returns (found: bool)
    ensures found <==> Assigned(r, channelId)
  {
    var i := 0;
    while i < |r.assignments|
      invariant i <= |r.assignments| && forall j | 0 <= j < i :: r.assignments[j].channelId != channelId
    {
      if r.assignments[i].channelId == channelId {
        return true;
      }
      i := i + 1;
    }
    i := 0;
    while i < |r.legacyChannels|
      invariant i <= |r.legacyChannels| && forall j | 0 <= j < i :: r.legacyChannels[j] != channelId
    {
      if r.legacyChannels[i] == channelId {
        return true;
      }
      i := i + 1;
    }
    found := false;
  }

  class DeviceService {
    var clock: nat
    var table: map<string, Lifecycle.Record>
    var retained: map<string, Envelope>
    // The devices with a retained deprovision message.
    var notices: set<string>
    const serviceId: string
    // What was ever signed, given out and published, and what the clean-up loops have queried.
    ghost var known: Lifecycle.Host

    // The host as the life-cycle model sees it.
    ghost function View(): Lifecycle.Host
      reads this
    {
      known.(now := clock, table := table)
    }

    constructor (serviceId: string)
      ensures View() == Lifecycle.EMPTY_HOST && retained == map[] && notices == {} && this.serviceId == serviceId
    {
      this.serviceId := serviceId;
      clock, table, retained, notices, known := 0, map[], map[], {}, Lifecycle.EMPTY_HOST;
    }

    // Every reading of the clock is later than the one before.
    method Now() returns (t: nat)
      modifies this`clock
      ensures t == old(clock) && clock == old(clock) + 1
    {
      t := clock;
      clock := clock + 1;
    }

    // ----- pairing and claim -----

    // Refuses another host's id, a missing version and an unknown type; otherwise inserts a record in state PAIRING.
    method Pair(hostId: string, version: string, knownType: bool,
                id: string, csr: string, cert: string, code: string, access: string, timeout: nat)
      returns (failure: Option<PairFailure>)
      modifies this`table, this`known
      ensures failure ==
        if hostId != serviceId then Some(HostIdMismatch)
        else if version == "" then Some(VersionNotSupported)
        else if !knownType then Some(DeviceTypeNotSupported)
        else None
      ensures failure.Some? ==> View() == old(View())
      ensures failure == None ==>
        && View() == Lifecycle.Pair(old(View()), id, csr, cert, code, access, timeout)
        && id in table && OthersKept(old(table), table, id)
        && Paired(table[id], csr, cert, code, access, clock + timeout * 1_000_000_000)
    {
      SecondsMeans(clock + timeout * 1_000_000_000);
      if hostId != serviceId {
        return Some(HostIdMismatch);
      }
      if version == "" {
        return Some(VersionNotSupported);
      }
      if !knownType {
        return Some(DeviceTypeNotSupported);
      }
      known := Lifecycle.Sign(known, id, csr, cert).(csrOf := known.csrOf[id := csr]);
      var expires := Lifecycle.Seconds(clock + timeout * Lifecycle.SECOND);
      table := table[id :=
        Lifecycle.Record("", Lifecycle.PAIRING, Lifecycle.Unregistered, None, 0, csr, cert, "", code, access, expires,
          None, Lifecycle.NO_LABELS)];
      failure := None;
    }

    // Looks the device up by its pairing code; if several have it, any of them is found.
    method GetDeviceByPairingCode(code: string) returns (id: Option<string>)
      ensures id.Some? ==> id.value in table && table[id.value].pairingCode == code
      ensures id == None ==> forall other | other in table :: table[other].pairingCode != code
    {
      var rest := table.Keys;
      while rest != {}
        invariant rest <= table.Keys
        invariant forall other | other in table && other !in rest :: table[other].pairingCode != code
        decreases |rest|
      {
        var other :| other in rest;
        if table[other].pairingCode == code {
          return Some(other);
        }
        rest := rest - {other};
      }
      id := None;
    }

    method Claim(code: string, account: string, expirationDays: int, credentialDays: int, labels: Lifecycle.Labels,
                 newCert: string)
      returns (err: Option<Lifecycle.Failure>, id: Option<string>)
      modifies this`table, this`known
      ensures id == None ==>
        && (forall other | other in old(table) :: old(table)[other].pairingCode != code)
        && err == Some(Lifecycle.NotFound) && View() == old(View())
      ensures id.Some? ==>
        && id.value in old(table) && old(table)[id.value].pairingCode == code
        && (View(), err)
           == Lifecycle.Claim(old(View()), id.value, account, expirationDays, credentialDays, labels, newCert)
      ensures id.Some? ==>
        var was := old(table)[id.value];
        var expired := old(clock) > was.pairingExpires * 1_000_000_000;
        && (err == Some(Lifecycle.Conflict) <==> was.state != Lifecycle.PAIRING)
        && (err == Some(Lifecycle.Expired) <==> was.state == Lifecycle.PAIRING && expired)
        && (err == None <==> was.state == Lifecycle.PAIRING && !expired)
        && (err.Some? ==> table == old(table))
        && (err == None ==>
              var days := if expirationDays <= 0 then 730 else expirationDays;
              && id.value in table && OthersKept(old(table), table, id.value)
              && ClaimedAs(was, table[id.value], account, clock + days * 86_400 * 1_000_000_000,
                           credentialDays > 0 && was.csr != "", newCert, labels))
    {
      hide SecondOf, LabelsKept, Lifecycle.Kept, OthersKept;
      id := GetDeviceByPairingCode(code);
      if id == None {
        return Some(Lifecycle.NotFound), None;
      }
      var device := table[id.value];
      if device.state != Lifecycle.PAIRING {
        return Some(Lifecycle.Conflict), id;
      }
      if clock > device.pairingExpires * Lifecycle.SECOND {
        return Some(Lifecycle.Expired), id;
      }
      var days := expirationDays;
      if days <= 0 {
        days := 730;
      }
      var kept := KeepLabels(labels);
      if credentialDays > 0 && device.csr != "" {
        known := Lifecycle.Sign(known, id.value, device.csr, newCert);
        table := table[id.value := table[id.value].(cert := newCert)];
      }
      var expires := Lifecycle.Seconds(clock + days * Lifecycle.DAY * Lifecycle.SECOND);
      SecondsMeans(clock + days * Lifecycle.DAY * Lifecycle.SECOND);
      table := table[id.value := table[id.value].(
        account := account, state := Lifecycle.ACTIVE, registrationExpires := Some(expires),
        labels := kept)];
      assert table == old(table)[id.value := table[id.value]];
      OneRecord(old(table), id.value, table[id.value]);
      err := None;
    }

    method Authenticate(id: string, code: string, access: string)
      returns (cert: Option<string>, err: Option<Lifecycle.Failure>)
      ensures (cert, err) == Lifecycle.Authenticate(View(), id, code, access)
      ensures
        var known := id in table && table[id].pairingCode == code && table[id].accessCode == access;
        var expired := known && clock > table[id].pairingExpires * 1_000_000_000;
        && (cert.Some? <==> known && !expired && table[id].state != Lifecycle.PAIRING)
        && (cert.Some? ==> cert.value == table[id].cert)
        && err == if expired then Some(Lifecycle.Expired) else None
    {
      if id !in table {
        return None, None;
      }
      var device := table[id];
      if device.pairingCode != code || device.accessCode != access {
        return None, None;
      }
      if clock > device.pairingExpires * Lifecycle.SECOND {
        return None, Some(Lifecycle.Expired);
      }
      if device.state == Lifecycle.PAIRING {
        return None, None;
      }
      return Some(device.cert), None;
    }

    method Deprovision(id: string, account: string) returns (err: Option<Lifecycle.Failure>)
      modifies this`table, this`notices
      ensures (View(), err) == Lifecycle.Deprovision(old(View()), id, account)
      ensures
        var now := old(id in table && table[id].account == account && table[id].state != Lifecycle.DEPROVISIONED);
        && notices == (if now then old(notices) + {id} else old(notices))
        && (now ==>
              && id in table && OthersKept(old(table), table, id)
              && table[id] == old(table[id]).(state := Lifecycle.DEPROVISIONED, desired := None))
        && (!now ==> table == old(table))
        && err == if id !in old(table) then Some(Lifecycle.NotFound)
           else if old(table[id].account) != account then Some(Lifecycle.Forbidden) else None
    {
      if id !in table {
        return Some(Lifecycle.NotFound);
      }
      if table[id].account != account {
        return Some(Lifecycle.Forbidden);
      }
      if table[id].state == Lifecycle.DEPROVISIONED {
        return None;
      }
      table := table[id := table[id].(state := Lifecycle.DEPROVISIONED, desired := None)];
      notices := notices + {id};
      err := None;
    }

    method RotateCredentials(id: string, account: string, newCert: string, caCert: string)
      returns (err: Option<Lifecycle.Failure>)
      modifies this`table, this`known
      ensures (View(), err) == Lifecycle.Rotate(old(View()), id, account, newCert, caCert)
      ensures err ==
        if id !in old(table) then Some(Lifecycle.NotFound)
        else if old(table[id].account) != account then Some(Lifecycle.Forbidden)
        else if old(table[id].state) != Lifecycle.ACTIVE then Some(Lifecycle.Conflict) else None
      ensures err.Some? ==> table == old(table) && known == old(known)
      ensures err == None ==>
        && id in table && OthersKept(old(table), table, id)
        && table[id] == old(table[id]).(cert := newCert, previousCert := old(table[id].cert))
        && known.rotated == old(known.rotated) + {Lifecycle.Rotated(id, newCert, caCert)}
    {
      if id !in table {
        return Some(Lifecycle.NotFound);
      }
      var device := table[id];
      if device.account != account {
        return Some(Lifecycle.Forbidden);
      }
      if device.state != Lifecycle.ACTIVE {
        return Some(Lifecycle.Conflict);
      }
      table := table[id := device.(cert := newCert, previousCert := device.cert)];
      ghost var published := known.rotated + {Lifecycle.Rotated(id, newCert, caCert)};
      known := Lifecycle.Sign(known, id, device.csr, newCert).(rotated := published);
      err := None;
    }

    // ----- configuration -----

    // Stores the configuration under the next update id and publishes both, retained.
    method PersistAndPublish(id: string, merged: Config)
      requires id in table
      modifies this`table, this`retained
      ensures
        var r := old(table[id]);
        && table == old(table)[id := r.(desired := Some(merged), updateId := r.updateId + 1)]
        && retained == old(retained)[id := Envelope(r.updateId + 1, merged)]
    {
      var updateId := table[id].updateId + 1;
      table := table[id := table[id].(desired := Some(merged), updateId := updateId)];
      retained := retained[id := Envelope(updateId, merged)];
    }

    // A successful update stores and publishes the same configuration, one update id further.
    ghost predicate PublishedAsStored(id: string, before: nat)
      reads this
    {
      && id in table && table[id].desired.Some? && table[id].updateId == before + 1
      && id in retained && retained[id] == Envelope(before + 1, table[id].desired.value)
    }

    /** A full update: versions change only where content does. */
    method UpdateConfiguration(id: string, account: string, full: Config) returns (err: Option<Refusal>)
      modifies this
      ensures
        var failure := Checked(old(table), id, account);
        if failure.Some? then err == Some(Refused(failure.value))
        else if old(table[id]).registration.Unparsed? then err == Some(InvalidRegistration)
        else if old(table[id]).registration.Parsed? && !Validation.Accepts(full, old(table[id]).registration.value) then
          && err.Some? && err.value.Invalid?
          && Validation.Fault(full, old(table[id]).registration.value, err.value.error)
        else err == None
      ensures err == None ==>
        && View() == Lifecycle.Configure(old(View()), id, account, HostConfig.Full(full)).0
        && PublishedAsStored(id, old(table[id]).updateId) && OnlyDesired(old(table), table, id)
        && HostConfig.StoredAsSent(old(table[id]).desired, full, table[id].desired.value, old(clock), clock)
      ensures err.Some? ==> View() == old(View()) && retained == old(retained)
    {
      hide Validation.Accepts, Validation.Fault, HostConfig.ChannelContentChanged, HostConfig.Find,
        HostConfig.StoredAsSent, HostConfig.FullUpdate;
      if id !in table {
        return Some(Refused(Lifecycle.NotFound));
      }
      var device := table[id];
      if device.account != account {
        return Some(Refused(Lifecycle.Forbidden));
      }
      if device.state == Lifecycle.DEPROVISIONED {
        return Some(Refused(Lifecycle.Conflict));
      }
      if device.registration.Unparsed? {
        return Some(InvalidRegistration);
      }
      if device.registration.Parsed? {
        var fault := Validation.ValidateConfiguration(full, device.registration.value);
        if fault.Some? {
          return Some(Invalid(fault.value));
        }
      }
      var stamped := StampConfiguration(full, device.desired);
      PersistAndPublish(id, stamped);
      err := None;
    }

    // Bumps the device version if the settings changed, and the version of every channel that did.
    method StampConfiguration(full: Config, current: Option<Config>) returns (stamped: Config)
      modifies this`clock
      ensures clock == old(clock) + 1 + |full.channels|
      ensures stamped == HostConfig.FullUpdate(current, full, old(clock))
      ensures HostConfig.StoredAsSent(current, full, stamped, old(clock), clock)
    {
      hide HostConfig.StoredAsSent;
      var now := Now();
      var version := full.version;
      if current == None || full.settings != current.value.settings {
        version := Some(Stamp(now));
      } else if current.value.version.Some? {
        version := current.value.version;
      }
      var stored := if current.Some? then current.value.channels else [];
      var channels := RestampChannels(full.channels, stored);
      HostConfig.FullUpdateMeans(current, full, old(clock));
      stamped := Config(version, full.settings, channels);
    }

    // Bumps the version of every channel whose content changed; the clock moves on from channel to channel.
    method RestampChannels(incoming: seq<Channel>, stored: seq<Channel>) returns (channels: seq<Channel>)
      modifies this`clock
      ensures clock == old(clock) + |incoming|
      ensures channels == HostConfig.RestampAll(incoming, stored, old(clock))
    {
      hide HostConfig.ChannelContentChanged, HostConfig.Find;
      var currentChannels := IndexChannels(stored);
      channels := incoming;
      var i := 0;
      while i < |incoming|
        modifies this`clock
        invariant i <= |incoming| == |channels| && clock == old(clock) + i
        invariant forall j | 0 <= j < i ::
            channels[j] == HostConfig.Restamp(incoming[j], HostConfig.Find(stored, IdOf(incoming[j])), old(clock) + j)
        invariant forall j | i <= j < |incoming| :: channels[j] == incoming[j]
      {
        var now := Now();
        var id := IdOf(channels[i]);
        var current := if id in currentChannels then Some(currentChannels[id]) else None;
        assert current == HostConfig.Find(stored, id);
        var changed := ChannelContentChanged(channels[i], current);
        if changed {
          channels := channels[i := channels[i]["version" := Stamp(now)]];
        } else if id != "" && current.Some? && "version" in current.value {
          channels := channels[i := channels[i]["version" := current.value["version"]]];
        }
        assert channels[i] == HostConfig.Restamp(incoming[i], current, now) by {
          ChangedOrStored(incoming[i], current);
        }
        i := i + 1;
      }
      assert channels == HostConfig.RestampAll(incoming, stored, old(clock));
    }

    /** One channel's update: overlaid on the stored channel, or added. */
    method UpdateChannelConfig(id: string, account: string, channelId: string, fields: Channel)
      returns (err: Option<Refusal>)
      modifies this
      ensures
        var failure := Checked(old(table), id, account);
        if failure.Some? then err == Some(Refused(failure.value))
        else if old(table[id]).registration.Parsed? && !Assigned(old(table[id]).registration.value, channelId) then
          err == Some(UnknownChannel)
        else err == None
      ensures err == None ==>
        && View() == Lifecycle.Configure(old(View()), id, account, HostConfig.OneChannel(channelId, fields)).0
        && PublishedAsStored(id, old(table[id]).updateId) && OnlyDesired(old(table), table, id)
        && HostConfig.StoredInOne(old(table[id]).desired, channelId, fields, table[id].desired.value, old(clock), clock)
      ensures err.Some? ==> View() == old(View()) && retained == old(retained)
    {
      hide HostConfig.StoredInOne, HostConfig.ChannelUpdate, Assigned;
      if id !in table {
        return Some(Refused(Lifecycle.NotFound));
      }
      var device := table[id];
      if device.account != account {
        return Some(Refused(Lifecycle.Forbidden));
      }
      if device.state == Lifecycle.DEPROVISIONED {
        return Some(Refused(Lifecycle.Conflict));
      }
      // A registration that does not decode is not looked at.
      if device.registration.Parsed? {
        var found := ChannelExists(channelId, device.registration.value);
        if !found {
          return Some(UnknownChannel);
        }
      }
      HostConfig.ChannelUpdateMeans(device.desired, channelId, fields, clock);
      var merged := MergeChannelUpdate(device.desired, channelId, fields);
      PersistAndPublish(id, merged);
      err := None;
    }

    method MergeChannelUpdate(stored: Option<Config>, channelId: string, fields: Channel) returns (merged: Config)
      modifies this`clock
      ensures merged == HostConfig.ChannelUpdate(stored, channelId, fields, old(clock)) && clock == old(clock) + 2
    {
      merged := if stored.Some? then stored.value else HostConfig.EMPTY_CONFIG;
      var newVersion := Now();
      var channels := merged.channels;
      var i := 0;
      while i < |channels| && Get(channels[i], "id") != Str(channelId)
        modifies {}
        invariant i <= |channels| && forall j | 0 <= j < i :: Get(channels[j], "id") != Str(channelId)
      {
        i := i + 1;
      }
      IsFirst(channels, channelId, i);
      if i < |channels| {
        channels := channels[i := (channels[i] + fields)["id" := Str(channelId)]["version" := Stamp(newVersion)]];
      } else {
        channels := channels + [map["id" := Str(channelId), "version" := Stamp(newVersion)] + fields];
      }
      var deviceVersion := Now();
      merged := merged.(channels := channels);
      if merged.version == None {
        merged := merged.(version := Some(Stamp(deviceVersion)));
      }
    }

    /** An update of the device-level settings: the device version is always fresh. */
    method UpdateDeviceSettings(id: string, account: string, settings: Option<seq<KeyValue>>)
      returns (err: Option<Refusal>)
      modifies this
      ensures
        var failure := Checked(old(table), id, account);
        err == if failure.Some? then Some(Refused(failure.value)) else None
      ensures err == None ==>
        && View() == Lifecycle.Configure(old(View()), id, account, HostConfig.DeviceSettings(settings)).0
        && PublishedAsStored(id, old(table[id]).updateId) && OnlyDesired(old(table), table, id)
        && HostConfig.StoredSettings(old(table[id]).desired, settings, table[id].desired.value, old(clock), clock)
      ensures err.Some? ==> View() == old(View()) && retained == old(retained)
    {
      if id !in table {
        return Some(Refused(Lifecycle.NotFound));
      }
      var device := table[id];
      if device.account != account {
        return Some(Refused(Lifecycle.Forbidden));
      }
      if device.state == Lifecycle.DEPROVISIONED {
        return Some(Refused(Lifecycle.Conflict));
      }
      var merged := if device.desired.Some? then device.desired.value else HostConfig.EMPTY_CONFIG;
      if settings.Some? {
        merged := merged.(settings := settings);
      }
      var now := Now();
      merged := merged.(version := Some(Stamp(now)));
      PersistAndPublish(id, merged);
      err := None;
    }
  }

  // A channel without a stored counterpart counts as changed.
  lemma ChangedOrStored(incoming: Channel, stored: Option<Channel>)
    ensures HostConfig.ChannelContentChanged(incoming, stored) || stored.Some?
  {
  }

  lemma IsFirst(channels: seq<Channel>, id: string, i: nat)
    requires i <= |channels| && forall j | 0 <= j < i :: Get(channels[j], "id") != Str(id)
    requires i < |channels| ==> Get(channels[i], "id") == Str(id)
    ensures HostConfig.IndexOf(channels, id) == i
  {
    var k := HostConfig.IndexOf(channels, id);
    assert !(k < i) && !(i < k);
  }
}
