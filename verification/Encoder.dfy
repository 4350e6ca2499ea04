/** The reference encoder's stores, and the shim that applies a configuration to it and reads it back. */
module Encoder {
  import opened Option
  import opened Wire
  import opened Registration
  import opened Validation
  import Device
  import HostConfig

  datatype SrtEncryption = SrtEncryption(passphrase: string, keyLength: Option<string>)

  // An srtCaller connection as desired, with its optional fields, and as the encoder stores it.
  datatype SrtDesired = SrtDesired(address: string, port: int, streamId: Option<string>, latency: Option<int>,
      encryption: Option<SrtEncryption>)
  datatype Srt = Srt(address: string, port: int, streamId: string, latency: int, encryption: Option<SrtEncryption>)

  // `running` holds the channels whose process runs.
  datatype Stores = Stores(
    deviceSettings: map<string, string>,
    channelSettings: map<string, map<string, string>>,
    channelProfiles: map<string, string>,
    srt: map<string, Srt>,
    running: set<string>)

  function TextIn(fields: map<string, Value>, k: string): Option<string> {
    if k in fields && fields[k].Text? then Some(fields[k].s) else None
  }

  function NumberIn(fields: map<string, Value>, k: string): Option<int> {
    if k in fields && fields[k].Number? then Some(fields[k].n) else None
  }

  function EncryptionIn(fields: map<string, Value>): Option<SrtEncryption> {
    if "encryption" in fields && fields["encryption"].Encryption? then
      Some(SrtEncryption(fields["encryption"].passphrase, fields["encryption"].keyLength))
    else None
  }

  // The srtCaller connection of a transport protocol, if it is one.
  function SrtOf(j: Json): Option<SrtDesired> {
    if !j.Protocol? || "srtCaller" !in j.bodies || !j.bodies["srtCaller"].Fields? then None
    else
      var f := j.bodies["srtCaller"].fields;
      var address, port := TextIn(f, "address"), NumberIn(f, "port");
      if address == None || port == None then None
      else Some(SrtDesired(address.value, port.value, TextIn(f, "streamId"), NumberIn(f, "minimumLatencyMilliseconds"),
          EncryptionIn(f)))
  }

  // The fields of a transport protocol give this srtCaller connection.
  ghost predicate Names(j: Json, d: SrtDesired) {
    j.Protocol? && "srtCaller" in j.bodies && j.bodies["srtCaller"].Fields? &&
    var f := j.bodies["srtCaller"].fields;
    && "address" in f && f["address"] == Text(d.address)
    && "port" in f && f["port"] == Number(d.port)
    && (forall s :: d.streamId == Some(s) <==> "streamId" in f && f["streamId"] == Text(s))
    && (forall n :: d.latency == Some(n) <==>
          "minimumLatencyMilliseconds" in f && f["minimumLatencyMilliseconds"] == Number(n))
    && (forall e: SrtEncryption :: d.encryption == Some(e) <==>
          "encryption" in f && f["encryption"] == Encryption(e.passphrase, e.keyLength))
  }

  lemma SrtOfMeans(j: Json, d: SrtDesired)
    ensures SrtOf(j) == Some(d) <==> Names(j, d)
  {
    if SrtOf(j).Some? {
      var f := j.bodies["srtCaller"].fields;
      TextInMeans(f, "streamId", d.streamId);
      NumberInMeans(f, "minimumLatencyMilliseconds", d.latency);
      EncryptionInMeans(f, d.encryption);
    }
  }

  lemma TextInMeans(f: map<string, Value>, k: string, t: Option<string>)
    ensures TextIn(f, k) == t <==> forall s :: t == Some(s) <==> k in f && f[k] == Text(s)
  {
    if TextIn(f, k).Some? {
      assert k in f && f[k] == Text(f[k].s);
    }
    if t.Some? && TextIn(f, k) != t {
      assert !(k in f && f[k] == Text(t.value));
    }
  }

  lemma NumberInMeans(f: map<string, Value>, k: string, t: Option<int>)
    ensures NumberIn(f, k) == t <==> forall n :: t == Some(n) <==> k in f && f[k] == Number(n)
  {
    if NumberIn(f, k).Some? {
      assert k in f && f[k] == Number(f[k].n);
    }
    if t.Some? && forall n :: t == Some(n) <==> k in f && f[k] == Number(n) {
      var n := t.value;
      assert t == Some(n) <==> k in f && f[k] == Number(n);
    }
  }

  lemma EncryptionInMeans(f: map<string, Value>, t: Option<SrtEncryption>)
    ensures EncryptionIn(f) == t <==> forall e: SrtEncryption ::
      t == Some(e) <==> "encryption" in f && f["encryption"] == Encryption(e.passphrase, e.keyLength)
  {
    var k := "encryption";
    if EncryptionIn(f).Some? {
      var e := EncryptionIn(f).value;
      assert k in f && f[k] == Encryption(e.passphrase, e.keyLength);
    }
    if t.Some? && EncryptionIn(f) != t {
      assert !(k in f && f[k] == Encryption(t.value.passphrase, t.value.keyLength));
    }
  }

  function Stored(d: SrtDesired): Srt {
    Srt(d.address, d.port,
        if d.streamId.Some? then d.streamId.value else "",
        if d.latency.Some? then d.latency.value else 0,
        d.encryption)
  }

  // What the encoder reports for a stored connection: zero values come back as its defaults.
  function Reported(s: Srt): SrtDesired {
    SrtDesired(
      if s.address == "" then "127.0.0.1" else s.address,
      if s.port == 0 then 5000 else s.port,
      Some(if s.streamId == "" then "test_stream" else s.streamId),
      Some(if s.latency == 0 then 200 else s.latency),
      s.encryption)
  }

  const NO_CONNECTION := Srt("", 0, "", 0, None)

  predicate NonDefault(d: SrtDesired) {
    d.address != "" && d.port != 0
    && d.streamId.Some? && d.streamId.value != ""
    && d.latency.Some? && d.latency.value != 0
  }

  /** A connection reads back equal exactly when all its fields are given and none is a zero value; every field that is
      given and not zero reads back, whatever the others are, and a default stands in for every other. */
  lemma ConnectionReadsBack(d: SrtDesired)
    ensures Reported(Stored(d)) == d <==> NonDefault(d)
    ensures
      var r := Reported(Stored(d));
      && r.encryption == d.encryption
      && r.address == (if d.address != "" then d.address else "127.0.0.1")
      && r.port == (if d.port != 0 then d.port else 5000)
      && r.streamId == (if d.streamId.Some? && d.streamId.value != "" then d.streamId else Some("test_stream"))
      && r.latency == (if d.latency.Some? && d.latency.value != 0 then d.latency else Some(200))
  {
  }

  // ----- what applying a configuration does to the stores -----

  function SettingsFor(s: Stores, id: string): map<string, string> {
    if id in s.channelSettings then s.channelSettings[id] else map[]
  }

  function AppliedSettings(s: Stores, id: string, kvs: seq<KeyValue>): Stores {
    if kvs == [] then s
    else s.(channelSettings := s.channelSettings[id := Device.Overlaid(SettingsFor(s, id), kvs)])
  }

  function ApplyProfile(s: Stores, id: string, settings: Device.ChannelSettings): Stores {
    if settings.ByProfile? then s.(channelProfiles := s.channelProfiles[id := settings.profile]) else s
  }

  function ApplySettings(s: Stores, id: string, settings: Device.ChannelSettings): Stores {
    ApplyProfile(if settings.Standard? then AppliedSettings(s, id, settings.kvs) else s, id, settings)
  }

  // A protocol other than srtCaller stops the channel and stores nothing.
  function ApplyConnection(s: Stores, id: string, j: Json): Stores {
    if SrtOf(j).Some? then s.(srt := s.srt[id := Stored(SrtOf(j).value)])
    else if j.Protocol? then s.(running := s.running - {id})
    else s
  }

  function At<T>(m: map<string, T>, id: string): Option<T> {
    if id in m then Some(m[id]) else None
  }

  predicate Startable(c: Option<Srt>) {
    c.Some? && c.value.address != "" && c.value.port > 0
  }

  // IDLE stops the channel; ACTIVE starts or restarts it if there is an address to call; nothing else is a state.
  function ApplyState(s: Stores, id: string, j: Json): Stores {
    if j == Str("IDLE") then s.(running := s.running - {id})
    else if j == Str("ACTIVE") && Startable(At(s.srt, id)) then s.(running := s.running + {id})
    else s
  }

  function ApplyChannel(s: Stores, ch: Channel): Stores {
    var id := IdOf(ch);
    var t := ApplySettings(s, id, Device.SettingsOf(ch));
    ApplyState(ApplyConnection(t, id, Get(ch, "protocol")), id, Get(ch, "state"))
  }

  function ApplyChannels(s: Stores, channels: seq<Channel>): Stores {
    if channels == [] then s
    else ApplyChannel(ApplyChannels(s, channels[..|channels| - 1]), channels[|channels| - 1])
  }

  function Apply(s: Stores, cfg: Config): Stores {
    var t := if cfg.settings.Some? then s.(deviceSettings := Device.Overlaid(s.deviceSettings, cfg.settings.value))
        else s;
    ApplyChannels(t, cfg.channels)
  }

  // ----- what is reported for a channel -----

  datatype ActualSettings = Values(kvs: seq<KeyValue>) | InProfile(profile: string) | Omitted
  datatype ActualChannel = ActualChannel(
    id: string, version: Json, state: Json, settings: ActualSettings, connection: SrtDesired, thumbnail: Option<string>)
  datatype ActualDevice = ActualDevice(version: Json, settings: seq<KeyValue>, channels: seq<ActualChannel>)

  function ReadSettings(m: map<string, string>, items: seq<Item>): seq<KeyValue> {
    if items == [] then []
    else
      var k := items[|items| - 1].id;
      ReadSettings(m, items[..|items| - 1]) + if k in m then [KeyValue(k, m[k])] else []
  }

  function DesiredFor(channels: seq<Channel>, id: string): Device.ChannelSettings {
    if channels == [] then Device.NoSettings
    else if IdOf(channels[|channels| - 1]) == id then Device.SettingsOf(channels[|channels| - 1])
    else DesiredFor(channels[..|channels| - 1], id)
  }

  function ReportSettings(s: Stores, e: Resolved, desired: Device.ChannelSettings): ActualSettings {
    if desired.ByProfile? then
      if e.channelId in s.channelProfiles && s.channelProfiles[e.channelId] != ""
          then InProfile(s.channelProfiles[e.channelId]) else Omitted
    else
      var kvs := ReadSettings(SettingsFor(s, e.channelId), e.template.settings);
      if kvs == [] then Omitted else Values(kvs)
  }

  // A channel that has applied nothing yet reports the version "initial".
  function ReportVersion(applied: map<string, Json>, id: string): Json {
    if id in applied && applied[id] != Str("") then applied[id] else Str("initial")
  }

  // The preview of the selected input.
  function Thumbnail(settings: map<string, string>): Option<string> {
    var input := if "IN01" in settings then settings["IN01"] else "SDI1";
    if input == "SDI1" then Some("/tmp/image_sdi.jpg")
    else if input == "HDMI1" then Some("/tmp/image_hdmi.jpg")
    else None
  }

  function ReportState(s: Stores, id: string): Json {
    Str(if id in s.running then "ACTIVE" else "IDLE")
  }

  function ReportChannel(s: Stores, e: Resolved, desired: Device.ChannelSettings,
                         applied: map<string, Json>): ActualChannel
  {
    ActualChannel(
      e.channelId,
      ReportVersion(applied, e.channelId),
      ReportState(s, e.channelId),
      ReportSettings(s, e, desired),
      Reported(if e.channelId in s.srt then s.srt[e.channelId] else NO_CONNECTION),
      Thumbnail(SettingsFor(s, e.channelId)))
  }

  function Wanted(desired: Option<Config>): seq<Channel> {
    if desired.Some? then desired.value.channels else []
  }

  // The device version is echoed; without a configuration it is "initial".
  function DeviceVersion(desired: Option<Config>): Json {
    if desired == None then Str("initial")
    else if desired.value.version.Some? then desired.value.version.value
    else Str("")
  }

  // One entry per registered channel, in assignment order.
  function Report(s: Stores, r: Registration, desired: Option<Config>, applied: map<string, Json>): ActualDevice {
    var list := ClientList(r.templates, r.assignments);
    ActualDevice(
      DeviceVersion(desired),
      ReadSettings(s.deviceSettings, r.settings),
      seq(|list|, i requires 0 <= i < |list| =>
        ReportChannel(s, list[i], DesiredFor(Wanted(desired), list[i].channelId), applied)))
  }

  // ----- read-back -----

  // The stores say the same about one channel.
  ghost predicate Alike(s: Stores, t: Stores, id: string) {
    && SettingsFor(t, id) == SettingsFor(s, id)
    && At(t.channelProfiles, id) == At(s.channelProfiles, id)
    && At(t.srt, id) == At(s.srt, id)
    && (id in t.running <==> id in s.running)
  }

  lemma AlikeTransitive(s: Stores, t: Stores, u: Stores, id: string)
    requires Alike(s, t, id) && Alike(t, u, id)
    ensures Alike(s, u, id)
  {
  }

  lemma OtherSettings(s: Stores, other: string, kvs: seq<KeyValue>, id: string)
    requires other != id
    ensures Alike(s, AppliedSettings(s, other, kvs), id)
  {
  }

  lemma OtherProfile(s: Stores, other: string, settings: Device.ChannelSettings, id: string)
    requires other != id
    ensures Alike(s, ApplyProfile(s, other, settings), id)
  {
  }

  lemma OtherConnection(s: Stores, other: string, j: Json, id: string)
    requires other != id
    ensures Alike(s, ApplyConnection(s, other, j), id)
  {
  }

  lemma OtherState(s: Stores, other: string, j: Json, id: string)
    requires other != id
    ensures Alike(s, ApplyState(s, other, j), id)
  {
  }

  // Applying one channel leaves the stores of every other channel alone.
  lemma ApplyChannelKeeps(s: Stores, ch: Channel, id: string)
    requires IdOf(ch) != id
    ensures Alike(s, ApplyChannel(s, ch), id)
  {
    hide SrtOf, Device.SettingsOf, Alike, AppliedSettings, ApplyProfile, ApplyConnection, ApplyState;
    var settings := Device.SettingsOf(ch);
    var t0 := if settings.Standard? then AppliedSettings(s, IdOf(ch), settings.kvs) else s;
    OtherSettings(s, IdOf(ch), if settings.Standard? then settings.kvs else [], id);
    AlikeItself(s, id);
    OtherProfile(t0, IdOf(ch), settings, id);
    var t := ApplyProfile(t0, IdOf(ch), settings);
    AlikeTransitive(s, t0, t, id);
    OtherConnection(t, IdOf(ch), Get(ch, "protocol"), id);
    var u := ApplyConnection(t, IdOf(ch), Get(ch, "protocol"));
    AlikeTransitive(s, t, u, id);
    OtherState(u, IdOf(ch), Get(ch, "state"), id);
    AlikeTransitive(s, u, ApplyChannel(s, ch), id);
  }

  lemma AlikeItself(s: Stores, id: string)
    ensures Alike(s, s, id)
  {
  }

  // The stores hold what the fields of the channel ask for: standard settings, or else a profile, and a connection.
  ghost predicate Carries(s: Stores, ch: Channel) {
    var id := IdOf(ch);
    var j := Get(ch, "channelSettings");
    && (j.Settings? && j.standard.Some? ==> Device.HoldsSettings(SettingsFor(s, id), j.standard.value))
    && (j.Settings? && j.standard == None && j.profile.Some? ==> At(s.channelProfiles, id) == j.profile)
    && (forall d | Names(Get(ch, "protocol"), d) :: At(s.srt, id) == Some(Stored(d)))
  }

  // How the stores of one channel change when it is applied: what its fields name, and nothing else.
  ghost predicate Applied(s: Stores, t: Stores, ch: Channel) {
    var id := IdOf(ch);
    var j := Get(ch, "channelSettings");
    && Carries(t, ch)
    && (forall k: string | !(j.Settings? && j.standard.Some? && Device.LastValue(j.standard.value, k).Some?) ::
          At(SettingsFor(t, id), k) == At(SettingsFor(s, id), k))
    && (!(j.Settings? && j.standard == None && j.profile.Some?) ==>
          At(t.channelProfiles, id) == At(s.channelProfiles, id))
    && ((forall d :: !Names(Get(ch, "protocol"), d)) ==> At(t.srt, id) == At(s.srt, id))
    && (id in t.running <==> RunsAfter(s, ch))
    && t.deviceSettings == s.deviceSettings
    && (forall other | other != id :: Alike(s, t, other))
  }

  // Whether the channel runs once its configuration is applied to stores s.
  predicate RunsAfter(s: Stores, ch: Channel) {
    var id := IdOf(ch);
    var j := Get(ch, "protocol");
    var c := if SrtOf(j).Some? then Some(Stored(SrtOf(j).value)) else At(s.srt, id);
    && Get(ch, "state") != Str("IDLE")
    && ((Get(ch, "state") == Str("ACTIVE") && Startable(c)) || (id in s.running && (j.Protocol? ==> SrtOf(j).Some?)))
  }

  lemma SettingsCarry(s: Stores, id: string, settings: Device.ChannelSettings)
    ensures
      var t := ApplySettings(s, id, settings);
      && t.srt == s.srt && t.running == s.running && t.deviceSettings == s.deviceSettings
      && (settings.Standard? ==> Device.HoldsSettings(SettingsFor(t, id), settings.kvs))
      && At(t.channelProfiles, id)
         == (if settings.ByProfile? then Some(settings.profile) else At(s.channelProfiles, id))
      && (forall k: string | !(settings.Standard? && Device.LastValue(settings.kvs, k).Some?) ::
            At(SettingsFor(t, id), k) == At(SettingsFor(s, id), k))
  {
    if settings.Standard? {
      Device.OverlaidHolds(SettingsFor(s, id), settings.kvs);
      forall k: string | Device.LastValue(settings.kvs, k) == None
        ensures At(Device.Overlaid(SettingsFor(s, id), settings.kvs), k) == At(SettingsFor(s, id), k)
      {
        Device.OverlaidLooksUp(SettingsFor(s, id), settings.kvs, k);
      }
    }
  }

  lemma ConnectionStep(s: Stores, id: string, j: Json)
    ensures
      var t := ApplyConnection(s, id, j);
      && t.channelSettings == s.channelSettings && t.channelProfiles == s.channelProfiles
      && t.deviceSettings == s.deviceSettings
      && At(t.srt, id) == (if SrtOf(j).Some? then Some(Stored(SrtOf(j).value)) else At(s.srt, id))
      && (id in t.running <==> id in s.running && (j.Protocol? ==> SrtOf(j).Some?))
  {
    hide SrtOf, Stored;
  }

  lemma StateStep(s: Stores, id: string, j: Json)
    ensures
      var t := ApplyState(s, id, j);
      && t.channelSettings == s.channelSettings && t.channelProfiles == s.channelProfiles && t.srt == s.srt
      && t.deviceSettings == s.deviceSettings
      && (id in t.running <==>
            j != Str("IDLE") && ((j == Str("ACTIVE") && Startable(At(s.srt, id))) || id in s.running))
  {
    hide Startable;
    assert "ACTIVE"[0] != "IDLE"[0];
  }

  lemma AtMeans<T>(m: map<string, T>, id: string)
    ensures At(m, id).Some? <==> id in m
    ensures id in m ==> At(m, id).value == m[id]
  {
  }

  lemma ConnectionCarries(s: Stores, ch: Channel)
    ensures
      var id := IdOf(ch);
      var t := ApplyState(ApplyConnection(s, id, Get(ch, "protocol")), id, Get(ch, "state"));
      && t.channelSettings == s.channelSettings && t.channelProfiles == s.channelProfiles
      && t.deviceSettings == s.deviceSettings
      && At(t.srt, id) == (if SrtOf(Get(ch, "protocol")).Some? then Some(Stored(SrtOf(Get(ch, "protocol")).value))
          else At(s.srt, id))
      && (id in t.running <==> RunsAfter(s, ch))
  {
    assert SrtOf(Null) == None;
    hide SrtOf, Stored, ApplyConnection, ApplyState, Startable, At;
    var u := ApplyConnection(s, IdOf(ch), Get(ch, "protocol"));
    ConnectionStep(s, IdOf(ch), Get(ch, "protocol"));
    StateStep(u, IdOf(ch), Get(ch, "state"));
    AtMeans(u.srt, IdOf(ch));
  }

  // The names of a connection, all at once.
  lemma NamesOne(j: Json)
    ensures forall d :: Names(j, d) <==> SrtOf(j) == Some(d)
  {
    forall d ensures Names(j, d) <==> SrtOf(j) == Some(d) {
      SrtOfMeans(j, d);
    }
  }

  /** Applying one channel does to the stores what its fields say, and nothing else. */
  lemma ApplyChannelMeans(s: Stores, ch: Channel)
    ensures Applied(s, ApplyChannel(s, ch), ch)
  {
    hide ApplyConnection, ApplyState, ApplySettings, SrtOf, Stored, Names, Alike, RunsAfter, Startable,
      Device.SettingsOf, Device.HoldsSettings;
    var id := IdOf(ch);
    var t := ApplySettings(s, id, Device.SettingsOf(ch));
    SettingsCarry(s, id, Device.SettingsOf(ch));
    Device.SettingsOfMeans(ch);
    ConnectionCarries(t, ch);
    NamesOne(Get(ch, "protocol"));
    SameRuns(s, t, ch);
    forall other | other != id ensures Alike(s, ApplyChannel(s, ch), other) {
      ApplyChannelKeeps(s, ch, other);
    }
    var u := ApplyChannel(s, ch);
    assert SettingsFor(u, id) == SettingsFor(t, id);
    assert forall d | Names(Get(ch, "protocol"), d) :: At(u.srt, id) == Some(Stored(d));
    assert At(u.channelProfiles, id) == At(t.channelProfiles, id);
    assert Carries(u, ch);
    assert (forall d :: !Names(Get(ch, "protocol"), d)) ==> At(u.srt, id) == At(s.srt, id);
    assert id in u.running <==> RunsAfter(s, ch);
    assert u.deviceSettings == s.deviceSettings;
  }

  lemma SameRuns(s: Stores, t: Stores, ch: Channel)
    requires t.srt == s.srt && t.running == s.running
    ensures RunsAfter(t, ch) <==> RunsAfter(s, ch)
  {
  }

  lemma ApplyChannelCarries(s: Stores, ch: Channel)
    ensures Carries(ApplyChannel(s, ch), ch)
    ensures IdOf(ch) in ApplyChannel(s, ch).running <==> RunsAfter(s, ch)
  {
    ApplyChannelMeans(s, ch);
    hide Carries, RunsAfter, ApplyChannel;
  }

  lemma AlikeCarries(s: Stores, t: Stores, ch: Channel)
    requires Alike(s, t, IdOf(ch))
    ensures Carries(s, ch) <==> Carries(t, ch)
    ensures RunsAfter(s, ch) <==> RunsAfter(t, ch)
    ensures IdOf(ch) in s.running <==> IdOf(ch) in t.running
  {
    assert IdOf(ch) in s.channelProfiles <==> At(s.channelProfiles, IdOf(ch)).Some?;
    assert IdOf(ch) in s.srt <==> At(s.srt, IdOf(ch)).Some?;
  }

  lemma {:induction false} ApplyOthers(s: Stores, channels: seq<Channel>, id: string)
    requires forall i | 0 <= i < |channels| :: IdOf(channels[i]) != id
    ensures Alike(s, ApplyChannels(s, channels), id)
  {
    hide Alike, ApplyChannel;
    if channels == [] {
      AlikeItself(s, id);
    } else {
      var last := |channels| - 1;
      ApplyOthers(s, channels[..last], id);
      ApplyChannelKeeps(ApplyChannels(s, channels[..last]), channels[last], id);
      AlikeTransitive(s, ApplyChannels(s, channels[..last]), ApplyChannels(s, channels), id);
    }
  }

  lemma DistinctIdsDiffer(channels: seq<Channel>, i: nat, j: nat)
    requires HostConfig.DistinctIds(channels) && i < j < |channels|
    ensures IdOf(channels[i]) != IdOf(channels[j])
  {
    assert Get(channels[i], "id") != Get(channels[j], "id");
  }

  lemma {:induction false} ApplyChannelsCarry(s: Stores, channels: seq<Channel>, n: nat)
    requires HostConfig.DistinctIds(channels) && n < |channels|
    ensures Carries(ApplyChannels(s, channels), channels[n])
    ensures IdOf(channels[n]) in ApplyChannels(s, channels).running <==> RunsAfter(s, channels[n])
    ensures DesiredFor(channels, IdOf(channels[n])) == Device.SettingsOf(channels[n])
  {
    hide Carries, RunsAfter, ApplyChannel, Alike, Device.SettingsOf;
    var last := |channels| - 1;
    var before := ApplyChannels(s, channels[..last]);
    if n == last {
      forall i | 0 <= i < |channels[..last]| ensures IdOf(channels[..last][i]) != IdOf(channels[n]) {
        DistinctIdsDiffer(channels, i, n);
      }
      ApplyOthers(s, channels[..last], IdOf(channels[n]));
      AlikeCarries(s, before, channels[n]);
      ApplyChannelCarries(before, channels[last]);
    } else {
      ApplyChannelsCarry(s, channels[..last], n);
      DistinctIdsDiffer(channels, n, last);
      ApplyChannelKeeps(before, channels[last], IdOf(channels[n]));
      AlikeCarries(before, ApplyChannels(s, channels), channels[n]);
    }
  }

  lemma ReadSettingsFinds(m: map<string, string>, items: seq<Item>, k: string)
    ensures k in m && HasId(items, k) ==> KeyValue(k, m[k]) in ReadSettings(m, items)
    ensures forall kv | kv in ReadSettings(m, items) :: kv.id in m && kv.value == m[kv.id] && HasId(items, kv.id)
  {
    if items != [] {
      var n := |items| - 1;
      ReadSettingsFinds(m, items[..n], k);
      assert forall id: string :: HasId(items, id) <==> HasId(items[..n], id) || items[n].id == id by {
        forall id: string ensures HasId(items, id) <==> HasId(items[..n], id) || items[n].id == id {
          HasIdSplits(items, id);
        }
      }
    }
  }

  // Settings are read in the order they are registered in.
  lemma {:induction false} ReadSettingsSplits(m: map<string, string>, a: seq<Item>, b: seq<Item>)
    ensures ReadSettings(m, a + b) == ReadSettings(m, a) + ReadSettings(m, b)
    ensures |a| == 1 ==> ReadSettings(m, a) == if a[0].id in m then [KeyValue(a[0].id, m[a[0].id])] else []
  {
    hide ReadSettings;
    ReadNothing(m);
    if b == [] {
      assert a + b == a;
    } else {
      var n := |b| - 1;
      var c, x := b[..n], b[n];
      var last := if x.id in m then [KeyValue(x.id, m[x.id])] else [];
      ReadSettingsSplits(m, a, c);
      assert a + b == (a + c) + [x] && b == c + [x];
      ReadOneMore(m, a + c, x);
      ReadOneMore(m, c, x);
      assert (ReadSettings(m, a) + ReadSettings(m, c)) + last == ReadSettings(m, a) + (ReadSettings(m, c) + last);
    }
    if |a| == 1 {
      assert a == [] + [a[0]];
      ReadOneMore(m, [], a[0]);
    }
  }

  lemma ReadNothing(m: map<string, string>)
    ensures ReadSettings(m, []) == []
  {
  }

  lemma ReadOneMore(m: map<string, string>, items: seq<Item>, x: Item)
    ensures ReadSettings(m, items + [x]) == ReadSettings(m, items) + if x.id in m then [KeyValue(x.id, m[x.id])] else []
  {
    assert (items + [x])[..|items|] == items;
  }

  // What one channel's report says of the stores.
  ghost predicate ReportedFrom(s: Stores, e: Resolved, desired: Device.ChannelSettings, version: Json,
                               a: ActualChannel)
  {
    var id := e.channelId;
    && a.id == id && a.version == version
    && (a.state == Str("ACTIVE") <==> id in s.running) && (a.state == Str("IDLE") <==> id !in s.running)
    && (desired.ByProfile? ==>
          if At(s.channelProfiles, id) in {None, Some("")} then a.settings == Omitted
          else a.settings == InProfile(s.channelProfiles[id]))
    && (!desired.ByProfile? ==>
          if forall i | 0 <= i < |e.template.settings| :: e.template.settings[i].id !in SettingsFor(s, id)
          then a.settings == Omitted
          else a.settings == Values(ReadSettings(SettingsFor(s, id), e.template.settings)))
    && (id in s.srt ==> a.connection == Reported(s.srt[id]))
    && (id !in s.srt ==> a.connection == Reported(Srt("", 0, "", 0, None)))
    && (At(SettingsFor(s, id), "IN01") in {None, Some("SDI1")} ==> a.thumbnail == Some("/tmp/image_sdi.jpg"))
    && (At(SettingsFor(s, id), "IN01") == Some("HDMI1") ==> a.thumbnail == Some("/tmp/image_hdmi.jpg"))
    && (At(SettingsFor(s, id), "IN01") !in {None, Some("SDI1"), Some("HDMI1")} ==> a.thumbnail == None)
  }

  lemma {:induction false} NothingRead(m: map<string, string>, items: seq<Item>)
    ensures ReadSettings(m, items) == [] <==> forall i | 0 <= i < |items| :: items[i].id !in m
  {
    if items == [] {
    } else {
      NothingRead(m, items[..|items| - 1]);
    }
  }

  lemma StatesDiffer()
    ensures "ACTIVE" != "IDLE" && "SDI1" != "HDMI1"
  {
    assert "ACTIVE"[0] != "IDLE"[0] && "SDI1"[0] != "HDMI1"[0];
  }

  lemma ReportMeans(s: Stores, e: Resolved, desired: Device.ChannelSettings, version: Json, applied: map<string, Json>)
    ensures ReportedFrom(s, e, desired, version, ReportChannel(s, e, desired, applied).(version := version))
  {
    NothingRead(SettingsFor(s, e.channelId), e.template.settings);
    StatesDiffer();
    hide Reported, ReadSettings, SettingsFor;
  }

  lemma HasIdSplits(items: seq<Item>, id: string)
    requires items != []
    ensures HasId(items, id) <==> HasId(items[..|items| - 1], id) || items[|items| - 1].id == id
  {
    var n := |items| - 1;
    if i :| 0 <= i < |items| && items[i].id == id {
      assert i < n ==> items[..n][i].id == id;
    }
    if i :| 0 <= i < |items[..n]| && items[..n][i].id == id {
      assert items[i].id == id;
    }
    if items[n].id == id {
      assert items[n].id == id;
    }
  }

  // The report a shows what the channel configuration asked for.
  ghost predicate Shows(a: ActualChannel, ch: Channel) {
    var j := Get(ch, "channelSettings");
    && (j.Settings? && j.standard.Some? ==>
          var kvs := j.standard.value;
          forall k: string | Device.LastValue(kvs, k).Some? ::
            && a.settings.Values?
            && KeyValue(k, Device.LastValue(kvs, k).value) in a.settings.kvs
            && forall kv | kv in a.settings.kvs && kv.id == k :: kv.value == Device.LastValue(kvs, k).value)
    && (j.Settings? && j.standard == None && j.profile.Some? ==>
          a.settings == if j.profile.value == "" then Omitted else InProfile(j.profile.value))
    && (forall d | Names(Get(ch, "protocol"), d) :: a.connection == Reported(Stored(d)))
  }

  lemma CarriedIsShown(t: Stores, ch: Channel, e: Resolved, applied: map<string, Json>)
    requires Carries(t, ch) && ChannelFits(ch, e.template) && e.channelId == IdOf(ch)
    ensures Shows(ReportChannel(t, e, Device.SettingsOf(ch), applied), ch)
  {
    Device.SettingsOfMeans(ch);
    var desired := Device.SettingsOf(ch);
    hide Device.SettingsOf, Names, Reported;
    var m := SettingsFor(t, e.channelId);
    if desired.Standard? {
      forall k: string | Device.LastValue(desired.kvs, k).Some?
        ensures
          var kvs := ReadSettings(m, e.template.settings);
          && KeyValue(k, Device.LastValue(desired.kvs, k).value) in kvs
          && forall kv | kv in kvs && kv.id == k :: kv.value == Device.LastValue(desired.kvs, k).value
      {
        LastValueIsListed(desired.kvs, k);
        ReadSettingsFinds(m, e.template.settings, k);
      }
    }
  }

  // The device settings shown are the last desired values.
  ghost predicate ShowsSettings(shown: seq<KeyValue>, desired: Option<seq<KeyValue>>) {
    desired.Some? ==> forall k: string | Device.LastValue(desired.value, k).Some? ::
      && KeyValue(k, Device.LastValue(desired.value, k).value) in shown
      && forall kv | kv in shown && kv.id == k :: kv.value == Device.LastValue(desired.value, k).value
  }

  lemma DeviceSettingsReadBack(s: Stores, cfg: Config, r: Registration)
    requires Accepts(cfg, r)
    ensures ShowsSettings(ReadSettings(Apply(s, cfg).deviceSettings, r.settings), cfg.settings)
  {
    ApplyKeepsDeviceSettings(s, cfg);
    if cfg.settings.Some? {
      var m := Apply(s, cfg).deviceSettings;
      Device.OverlaidHolds(s.deviceSettings, cfg.settings.value);
      forall k: string | Device.LastValue(cfg.settings.value, k).Some?
        ensures
          var shown := ReadSettings(m, r.settings);
          && KeyValue(k, Device.LastValue(cfg.settings.value, k).value) in shown
          && forall kv | kv in shown && kv.id == k :: kv.value == Device.LastValue(cfg.settings.value, k).value
      {
        LastValueIsListed(cfg.settings.value, k);
        ReadSettingsFinds(m, r.settings, k);
      }
    }
  }

  lemma {:induction false} ChannelsKeepDeviceSettings(s: Stores, channels: seq<Channel>)
    ensures ApplyChannels(s, channels).deviceSettings == s.deviceSettings
  {
    hide ApplyChannel;
    if channels == [] {
    } else {
      var last := |channels| - 1;
      ChannelsKeepDeviceSettings(s, channels[..last]);
      ChannelKeepsDeviceSettings(ApplyChannels(s, channels[..last]), channels[last]);
    }
  }

  lemma ChannelKeepsDeviceSettings(s: Stores, ch: Channel)
    ensures ApplyChannel(s, ch).deviceSettings == s.deviceSettings
  {
    hide ApplySettings, ApplyConnection, ApplyState, Device.SettingsOf, Device.HoldsSettings, SrtOf, Stored, Startable;
    var t := ApplySettings(s, IdOf(ch), Device.SettingsOf(ch));
    SettingsCarry(s, IdOf(ch), Device.SettingsOf(ch));
    ConnectionStep(t, IdOf(ch), Get(ch, "protocol"));
    StateStep(ApplyConnection(t, IdOf(ch), Get(ch, "protocol")), IdOf(ch), Get(ch, "state"));
  }

  lemma ApplyKeepsDeviceSettings(s: Stores, cfg: Config)
    ensures Apply(s, cfg).deviceSettings ==
      if cfg.settings.Some? then Device.Overlaid(s.deviceSettings, cfg.settings.value) else s.deviceSettings
  {
    var t := if cfg.settings.Some? then s.(deviceSettings := Device.Overlaid(s.deviceSettings, cfg.settings.value))
        else s;
    ChannelsKeepDeviceSettings(t, cfg.channels);
  }

  lemma RunsAfterIgnoresDeviceSettings(s: Stores, m: map<string, string>, ch: Channel)
    ensures RunsAfter(s.(deviceSettings := m), ch) <==> RunsAfter(s, ch)
  {
  }

  lemma ReportsState(s: Stores, ch: Channel)
    ensures ReportState(s, IdOf(ch)) == Get(ch, "state") <==>
      if IdOf(ch) in s.running then Get(ch, "state") == Str("ACTIVE") else Get(ch, "state") == Str("IDLE")
  {
    assert "ACTIVE"[0] != "IDLE"[0];
  }

  // A desired state that the report will show: IDLE always; ACTIVE if there is an address to call,
  // or if the channel runs already and the configuration does not stop it.
  predicate StateHolds(s: Stores, ch: Channel) {
    Get(ch, "state") == Str("IDLE") || (Get(ch, "state") == Str("ACTIVE") && RunsAfter(s, ch))
  }

  lemma OneChannelReadsBack(s: Stores, cfg: Config, r: Registration, n: nat, e: Resolved,
                                               applied: map<string, Json>)
    requires Accepts(cfg, r) && DistinctChannels(r.assignments) && HostConfig.DistinctIds(cfg.channels)
    requires n < |cfg.channels| && e in ClientList(r.templates, r.assignments) && e.channelId == IdOf(cfg.channels[n])
    ensures
      var ch := cfg.channels[n];
      var a := ReportChannel(Apply(s, cfg), e, DesiredFor(cfg.channels, e.channelId), applied);
      Shows(a, ch) && (a.state == Get(ch, "state") <==> StateHolds(s, ch))
  {
    hide Shows, Carries, ChannelFits, ApplyChannels, DesiredFor, ClientList, RunsAfter, ReportState, ReportSettings,
        Reported;
    var ch := cfg.channels[n];
    var start := if cfg.settings.Some? then s.(deviceSettings := Device.Overlaid(s.deviceSettings, cfg.settings.value))
        else s;
    RunsAfterIgnoresDeviceSettings(s, start.deviceSettings, ch);
    ApplyChannelsCarry(start, cfg.channels, n);
    AcceptedFitsClient(cfg, r, ch, e);
    CarriedIsShown(Apply(s, cfg), ch, e, applied);
    ReportsState(Apply(s, cfg), ch);
    IdleStops(s, ch);
  }

  lemma IdleStops(s: Stores, ch: Channel)
    ensures Get(ch, "state") == Str("IDLE") ==> !RunsAfter(s, ch)
    ensures Str("ACTIVE") != Str("IDLE")
  {
    assert "ACTIVE"[0] != "IDLE"[0];
  }

  /** Whatever the encoder held before: after applying a configuration that the host's validator
      accepts, the report shows the last desired value of every device setting, and lists every
      desired channel, with the last desired value of every setting, or the desired profile, and the
      desired connection up to defaults. The desired state is shown exactly when it is IDLE, or it is
      ACTIVE and the channel has an address to call or runs on. */
  lemma AcceptedConfigurationReadsBack(s: Stores, cfg: Config, r: Registration, applied: map<string, Json>, n: nat)
    requires Accepts(cfg, r) && DistinctChannels(r.assignments) && HostConfig.DistinctIds(cfg.channels)
    requires n < |cfg.channels|
    ensures
      var report := Report(Apply(s, cfg), r, Some(cfg), applied);
      var ch := cfg.channels[n];
      && ShowsSettings(report.settings, cfg.settings)
      && (exists i :: 0 <= i < |report.channels| && report.channels[i].id == IdOf(ch))
      && (forall i | 0 <= i < |report.channels| && report.channels[i].id == IdOf(ch) ::
            && Shows(report.channels[i], ch)
            && (report.channels[i].state == Get(ch, "state") <==> StateHolds(s, ch)))
  {
    hide Shows, StateHolds, Apply, ClientList, DesiredFor, Accepts, ReportVersion, ReportSettings, ReportState,
      Reported, ReadSettings, Thumbnail;
    var list := ClientList(r.templates, r.assignments);
    var report := Report(Apply(s, cfg), r, Some(cfg), applied);
    var ch := cfg.channels[n];
    DeviceSettingsReadBack(s, cfg, r);
    AcceptedIsListed(cfg, r, ch);
    var e :| e in list && e.channelId == IdOf(ch);
    var k :| 0 <= k < |list| && list[k] == e;
    assert report.channels[k].id == IdOf(ch);
    forall i | 0 <= i < |report.channels| && report.channels[i].id == IdOf(ch)
      ensures Shows(report.channels[i], ch) && (report.channels[i].state == Get(ch, "state") <==> StateHolds(s, ch))
    {
      OneChannelReadsBack(s, cfg, r, n, list[i], applied);
    }
  }

  // A fresh encoder told to be ACTIVE without a connection stays IDLE, although the host accepts the configuration.
  lemma ActiveWithoutAddress(r: Registration, e: Resolved, applied: map<string, Json>)
    requires e.channelId == "CH1"
    ensures
      var ch: Channel := map["id" := Str("CH1"), "state" := Str("ACTIVE")];
      var blank := Stores(map[], map[], map[], map[], {});
      && ChannelFits(ch, e.template)
      && ReportChannel(ApplyChannel(blank, ch), e, Device.NoSettings, applied).state == Str("IDLE")
  {
    hide ReportSettings, ReportVersion, Reported, Thumbnail;
    var ch: Channel := map["id" := Str("CH1"), "state" := Str("ACTIVE")];
    ApplyChannelCarries(Stores(map[], map[], map[], map[], {}), ch);
    hide ApplyChannel;
  }

  lemma LastValueIsListed(kvs: seq<KeyValue>, k: string)
    requires Device.LastValue(kvs, k).Some?
    ensures exists kv :: kv in kvs && kv.id == k
  {
    if kvs[|kvs| - 1].id == k {
      assert kvs[|kvs| - 1] in kvs;
    } else {
      LastValueIsListed(kvs[..|kvs| - 1], k);
    }
  }

  // No later channel has the id of the n-th.
  ghost predicate LastChannel(channels: seq<Channel>, n: int) {
    0 <= n < |channels| && forall m | n < m < |channels| :: IdOf(channels[m]) != IdOf(channels[n])
  }

  lemma {:induction false} LastChannelCarries(s: Stores, channels: seq<Channel>, n: int)
    requires LastChannel(channels, n)
    ensures Carries(ApplyChannels(s, channels), channels[n])
  {
    hide Carries, ApplyChannel, Alike;
    var last := |channels| - 1;
    var before := ApplyChannels(s, channels[..last]);
    if n == last {
      ApplyChannelCarries(before, channels[last]);
    } else {
      LastChannelCarries(s, channels[..last], n);
      ApplyChannelKeeps(before, channels[last], IdOf(channels[n]));
      AlikeCarries(before, ApplyChannels(s, channels), channels[n]);
    }
  }

  // What applying a whole configuration leaves in the stores.
  lemma ApplyMeans(s: Stores, cfg: Config)
    ensures
      var t := Apply(s, cfg);
      && (cfg.settings.Some? ==> Device.HoldsSettings(t.deviceSettings, cfg.settings.value))
      && (forall k: string | cfg.settings == None || Device.LastValue(cfg.settings.value, k) == None ::
            At(t.deviceSettings, k) == At(s.deviceSettings, k))
      && (forall n | LastChannel(cfg.channels, n) :: Carries(t, cfg.channels[n]))
      && (forall id: string | (forall i | 0 <= i < |cfg.channels| :: IdOf(cfg.channels[i]) != id) :: Alike(s, t, id))
  {
    hide Carries, ApplyChannels, Device.HoldsSettings, Device.Overlaid, Device.LastValue;
    var t := if cfg.settings.Some? then s.(deviceSettings := Device.Overlaid(s.deviceSettings, cfg.settings.value))
        else s;
    ApplyKeepsDeviceSettings(s, cfg);
    if cfg.settings.Some? {
      Device.OverlaidHolds(s.deviceSettings, cfg.settings.value);
      forall k: string | Device.LastValue(cfg.settings.value, k) == None
        ensures At(t.deviceSettings, k) == At(s.deviceSettings, k)
      {
        Device.OverlaidLooksUp(s.deviceSettings, cfg.settings.value, k);
      }
    }
    forall n | LastChannel(cfg.channels, n) ensures Carries(Apply(s, cfg), cfg.channels[n]) {
      LastChannelCarries(t, cfg.channels, n);
    }
    forall id: string | forall i | 0 <= i < |cfg.channels| :: IdOf(cfg.channels[i]) != id
      ensures Alike(s, Apply(s, cfg), id)
    {
      ApplyOthers(t, cfg.channels, id);
      AlikeTransitive(s, t, Apply(s, cfg), id);
    }
  }

  // ----- the encoder and the shim as objects -----

  class Encoder {
    var deviceSettings: map<string, string>
    var channelSettings: map<string, map<string, string>>
    var channelProfiles: map<string, string>
    var srt: map<string, Srt>
    var running: set<string>

    ghost function View(): Stores
      reads this
    {
      Stores(deviceSettings, channelSettings, channelProfiles, srt, running)
    }

    constructor ()
      ensures View() == Stores(map["sync_clock_source" := "NTP"], map[], map[], map[], {})
    {
      deviceSettings := map["sync_clock_source" := "NTP"];
      channelSettings, channelProfiles, srt, running := map[], map[], map[], {};
    }

    method SetDeviceSetting(key: string, value: string)
      modifies this`deviceSettings
      ensures deviceSettings == old(deviceSettings)[key := value]
    {
      deviceSettings := deviceSettings[key := value];
    }

    method SetChannelSetting(id: string, key: string, value: string)
      modifies this`channelSettings
      ensures channelSettings == old(channelSettings)[id := old(SettingsFor(View(), id))[key := value]]
    {
      if id !in channelSettings {
        channelSettings := channelSettings[id := map[]];
      }
      channelSettings := channelSettings[id := channelSettings[id][key := value]];
    }

    // A protocol other than srtCaller stops the channel and stores nothing.
    method HandleTransportConfigChange(id: string, protocol: Json)
      requires protocol.Protocol?
      modifies this`srt, this`running
      ensures View() == ApplyConnection(old(View()), id, protocol)
      ensures forall d | Names(protocol, d) :: srt == old(srt)[id := Stored(d)] && running == old(running)
      ensures (forall d :: !Names(protocol, d)) ==> srt == old(srt) && running == old(running) - {id}
    {
      hide Names, SrtOf, Stored;
      NamesOne(protocol);
      var d := SrtOf(protocol);
      if d == None {
        StopChannel(id);
        return;
      }
      srt := srt[id := Stored(d.value)];
    }

    method StopChannel(id: string)
      modifies this`running
      ensures running == old(running) - {id}
    {
      running := running - {id};
    }

    // Launches the channel's process and records what it was started with; the start succeeds.
    method StartChannel(id: string, c: Srt)
      requires At(srt, id) == Some(c)
      modifies this`srt, this`running
      ensures running == old(running) + {id} && srt == old(srt)
    {
      if id in running {
        return;
      }
      running := running + {id};
      srt := srt[id := srt[id].(address := c.address, port := c.port, streamId := c.streamId)];
    }

    // ACTIVE restarts a channel that runs, and starts one only with an address and a positive port.
    method HandleUpdateState(id: string, state: Json)
      modifies this`srt, this`running
      ensures View() == ApplyState(old(View()), id, state) && srt == old(srt)
      ensures state == Str("IDLE") ==> running == old(running) - {id}
      ensures state == Str("ACTIVE") ==>
        var there := id in srt && srt[id].address != "" && srt[id].port > 0;
        running == if there then old(running) + {id} else old(running)
      ensures state != Str("IDLE") && state != Str("ACTIVE") ==> running == old(running)
    {
      StatesDiffer();
      if state == Str("IDLE") {
        StopChannel(id);
      } else if state == Str("ACTIVE") {
        if id in srt && srt[id].address != "" && srt[id].port > 0 {
          if id in running {
            StopChannel(id);
          }
          StartChannel(id, srt[id]);
          assert old(running) - {id} + {id} == old(running) + {id};
        }
      }
    }

    method SetChannelSettings(id: string, kvs: seq<KeyValue>)
      modifies this`channelSettings
      ensures View() == AppliedSettings(old(View()), id, kvs)
      ensures Device.HoldsSettings(SettingsFor(View(), id), kvs)
    {
      hide Device.HoldsSettings;
      Device.OverlaidHolds(SettingsFor(View(), id), kvs);
      var i := 0;
      while i < |kvs|
        invariant i <= |kvs|
        invariant channelSettings ==
          if i == 0 then old(channelSettings)
          else old(channelSettings)[id := Device.Overlaid(old(SettingsFor(View(), id)), kvs[..i])]
      {
        assert kvs[..i + 1][..i] == kvs[..i];
        SetChannelSetting(id, kvs[i].id, kvs[i].value);
        i := i + 1;
      }
      assert kvs[..i] == kvs;
    }

    // Applies one channel: what its fields name changes, and nothing else.
    method ApplyOneChannel(ch: Channel)
      modifies this
      ensures View() == ApplyChannel(old(View()), ch) && Applied(old(View()), View(), ch)
    {
      hide Applied;
      ApplyChannelMeans(View(), ch);
      var id := IdOf(ch);
      match Device.SettingsOf(ch) {
        case Standard(kvs) =>
          SetChannelSettings(id, kvs);
        case ByProfile(p) => channelProfiles := channelProfiles[id := p];
        case NoSettings =>
      }
      if Get(ch, "protocol").Protocol? {
        HandleTransportConfigChange(id, ch["protocol"]);
      }
      HandleUpdateState(id, Get(ch, "state"));
    }

    /** Pushes every value of a desired configuration to the device: the last value of every device setting, and what
        the fields of the last channel with each id say. Nothing else changes. */
    method ApplyDesiredConfiguration(cfg: Config)
      modifies this
      ensures View() == Apply(old(View()), cfg)
      ensures cfg.settings.Some? ==> Device.HoldsSettings(deviceSettings, cfg.settings.value)
      ensures forall k: string | cfg.settings == None || Device.LastValue(cfg.settings.value, k) == None ::
        At(deviceSettings, k) == At(old(deviceSettings), k)
      ensures forall n | LastChannel(cfg.channels, n) :: Carries(View(), cfg.channels[n])
      ensures forall id: string | (forall i | 0 <= i < |cfg.channels| :: IdOf(cfg.channels[i]) != id) ::
        Alike(old(View()), View(), id)
    {
      hide Carries, Alike, ApplyChannel, LastChannel, Device.HoldsSettings, Device.LastValue;
      ApplyMeans(View(), cfg);
      if cfg.settings.Some? {
        SetDeviceSettings(cfg.settings.value);
      }
      ghost var start := View();
      var i := 0;
      while i < |cfg.channels|
        invariant i <= |cfg.channels| && View() == ApplyChannels(start, cfg.channels[..i])
      {
        assert cfg.channels[..i + 1][..i] == cfg.channels[..i];
        ApplyOneChannel(cfg.channels[i]);
        i := i + 1;
      }
      assert cfg.channels[..i] == cfg.channels;
    }

    method SetDeviceSettings(kvs: seq<KeyValue>)
      modifies this`deviceSettings
      ensures deviceSettings == Device.Overlaid(old(deviceSettings), kvs)
    {
      var i := 0;
      while i < |kvs|
        invariant i <= |kvs| && deviceSettings == Device.Overlaid(old(deviceSettings), kvs[..i])
      {
        assert kvs[..i + 1][..i] == kvs[..i];
        SetDeviceSetting(kvs[i].id, kvs[i].value);
        i := i + 1;
      }
      assert kvs[..i] == kvs;
    }

    method ReadChannelSettings(id: string, items: seq<Item>) returns (kvs: seq<KeyValue>)
      ensures kvs == ReadSettings(SettingsFor(View(), id), items)
    {
      kvs := [];
      var i := 0;
      while i < |items|
        invariant i <= |items| && kvs == ReadSettings(SettingsFor(View(), id), items[..i])
      {
        assert items[..i + 1][..i] == items[..i];
        if id in channelSettings && items[i].id in channelSettings[id] {
          kvs := kvs + [KeyValue(items[i].id, channelSettings[id][items[i].id])];
        }
        i := i + 1;
      }
      assert items[..i] == items;
    }

    method BuildChannelConfig(e: Resolved, desired: Device.ChannelSettings, version: Json) returns (a: ActualChannel)
      ensures a == ReportChannel(View(), e, desired, map[]).(version := version)
      ensures ReportedFrom(View(), e, desired, version, a)
    {
      hide ReportedFrom;
      ReportMeans(View(), e, desired, version, map[]);
      var id := e.channelId;
      var settings := Omitted;
      if desired.ByProfile? {
        if id in channelProfiles && channelProfiles[id] != "" {
          settings := InProfile(channelProfiles[id]);
        }
      } else if |e.template.settings| > 0 {
        var kvs := ReadChannelSettings(id, e.template.settings);
        if |kvs| > 0 {
          settings := Values(kvs);
        }
      }
      a := ActualChannel(id, version, Str(if id in running then "ACTIVE" else "IDLE"), settings,
                         Reported(if id in srt then srt[id] else NO_CONNECTION),
                         Thumbnail(if id in channelSettings then channelSettings[id] else map[]));
    }

    // Reads the device settings and every registered channel back, in registration and assignment order.
    method GetActualConfiguration(r: Registration, desired: Option<Config>, applied: map<string, Json>)
      returns (report: ActualDevice)
      ensures report == Report(View(), r, desired, applied)
      ensures report.version == match desired
        case None => Str("initial")
        case Some(cfg) => if cfg.version.Some? then cfg.version.value else Str("")
      ensures
        var list := ClientList(r.templates, r.assignments);
        && |report.channels| == |list|
        && forall i | 0 <= i < |list| ::
            && report.channels[i].id == list[i].channelId
            && report.channels[i].version ==
              if At(applied, list[i].channelId) in {None, Some(Str(""))} then Str("initial")
              else applied[list[i].channelId]
    {
      hide Reported, ReportSettings, ClientList, DesiredFor, Thumbnail, ReportedFrom, ReportState, SettingsFor,
        Device.SettingsOf;
      var version := Str("initial");
      if desired.Some? {
        version := if desired.value.version.Some? then desired.value.version.value else Str("");
      }
      var deviceValues := ReadDeviceSettings(r.settings);
      var wanted := if desired.Some? then desired.value.channels else [];
      var byId := DesiredById(wanted);
      var list := ResolveChannels(r);
      var channels := [];
      var i := 0;
      while i < |list|
        invariant i <= |list| && |channels| == i
        invariant forall k | 0 <= k < i ::
          channels[k] == ReportChannel(View(), list[k], DesiredFor(wanted, list[k].channelId), applied)
      {
        var id := list[i].channelId;
        var settings := if id in byId then byId[id] else Device.NoSettings;
        var a := BuildChannelConfig(list[i], settings, ReportVersion(applied, id));
        channels := channels + [a];
        i := i + 1;
      }
      report := ActualDevice(version, deviceValues, channels);
      assert channels == Report(View(), r, desired, applied).channels;
    }

    method ReadDeviceSettings(items: seq<Item>) returns (kvs: seq<KeyValue>)
      ensures kvs == ReadSettings(deviceSettings, items)
    {
      kvs := [];
      var i := 0;
      while i < |items|
        invariant i <= |items| && kvs == ReadSettings(deviceSettings, items[..i])
      {
        assert items[..i + 1][..i] == items[..i];
        if items[i].id in deviceSettings {
          kvs := kvs + [KeyValue(items[i].id, deviceSettings[items[i].id])];
        }
        i := i + 1;
      }
      assert items[..i] == items;
    }
  }

  method DesiredById(wanted: seq<Channel>) returns (byId: map<string, Device.ChannelSettings>)
    ensures forall id: string :: DesiredFor(wanted, id) == if id in byId then byId[id] else Device.NoSettings
  {
    byId := map[];
    var i := 0;
    while i < |wanted|
      invariant i <= |wanted|
      invariant forall id: string :: DesiredFor(wanted[..i], id) == if id in byId then byId[id] else Device.NoSettings
    {
      assert wanted[..i + 1][..i] == wanted[..i];
      byId := byId[IdOf(wanted[i]) := Device.SettingsOf(wanted[i])];
      i := i + 1;
    }
    assert wanted[..i] == wanted;
  }
}
