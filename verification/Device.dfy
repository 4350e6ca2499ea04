/** The device behind the callbacks: independent stores for settings, profile, connection and state. */
module Device {
  import opened Option
  import opened Wire

  datatype Callback = SetSetting(key: string, value: string) | SetProfile(id: string) | SetConnection(proto: Json)
      | SetState(state: Json)

  datatype ChannelDevice = ChannelDevice(settings: map<string, string>, profile: Option<string>, connection: Json,
      state: Json)
  datatype Device = Device(settings: map<string, string>, channels: map<string, ChannelDevice>)

  const UNTOUCHED := ChannelDevice(map[], None, Null, Null)

  function ChannelOf(d: Device, id: string): ChannelDevice {
    if id in d.channels then d.channels[id] else UNTOUCHED
  }

  function Do(cd: ChannelDevice, c: Callback): ChannelDevice {
    match c
    case SetSetting(k, v) => cd.(settings := cd.settings[k := v])
    case SetProfile(p) => cd.(profile := Some(p))
    case SetConnection(p) => cd.(connection := p)
    case SetState(s) => cd.(state := s)
  }

  function DoAll(cd: ChannelDevice, cs: seq<Callback>): ChannelDevice {
    if cs == [] then cd else Do(DoAll(cd, cs[..|cs| - 1]), cs[|cs| - 1])
  }

  lemma {:induction false} DoAllAppend(cd: ChannelDevice, a: seq<Callback>, b: seq<Callback>)
    ensures DoAll(cd, a + b) == DoAll(DoAll(cd, a), b)
  {
    if b == [] {
      assert a + b == a;
    } else {
      var n := |b| - 1;
      assert (a + b)[..|a + b| - 1] == a + b[..n];
      DoAllAppend(cd, a, b[..n]);
    }
  }

  // ----- what one desired channel asks for -----

  function SettingCallbacks(kvs: seq<KeyValue>): seq<Callback> {
    seq(|kvs|, i requires 0 <= i < |kvs| => SetSetting(kvs[i].id, kvs[i].value))
  }

  // The channelSettings union as the client decodes it: standard settings, a profile, or nothing.
  datatype ChannelSettings = Standard(kvs: seq<KeyValue>) | ByProfile(profile: string) | NoSettings

  function SettingsOf(ch: Channel): ChannelSettings {
    var j := Get(ch, "channelSettings");
    if !j.Settings? then NoSettings
    else if j.standard.Some? then Standard(j.standard.value)
    else if j.profile.Some? then ByProfile(j.profile.value)
    else NoSettings
  }

  // Standard settings win over a profile.
  lemma SettingsOfMeans(ch: Channel)
    ensures
      var j, s := Get(ch, "channelSettings"), SettingsOf(ch);
      && (s.Standard? <==> j.Settings? && j.standard.Some?) && (s.Standard? ==> s.kvs == j.standard.value)
      && (s.ByProfile? <==> j.Settings? && j.standard == None && j.profile.Some?)
      && (s.ByProfile? ==> s.profile == j.profile.value)
  {
  }

  function SettingsCallbacks(s: ChannelSettings): seq<Callback> {
    match s
    case Standard(kvs) => SettingCallbacks(kvs)
    case ByProfile(p) => [SetProfile(p)]
    case NoSettings => []
  }

  function ProtocolCallbacks(ch: Channel): seq<Callback> {
    if Get(ch, "protocol").Protocol? then [SetConnection(ch["protocol"])] else []
  }

  // Settings and connection first; a field that is absent is not touched.
  function ConfigCallbacks(ch: Channel): seq<Callback> {
    SettingsCallbacks(SettingsOf(ch)) + ProtocolCallbacks(ch)
  }

  function Callbacks(ch: Channel): seq<Callback> {
    ConfigCallbacks(ch) + [SetState(Get(ch, "state"))]
  }

  // The value a list of settings gives to a key; a later entry wins.
  function LastValue(kvs: seq<KeyValue>, k: string): Option<string> {
    if kvs == [] then None
    else if kvs[|kvs| - 1].id == k then Some(kvs[|kvs| - 1].value)
    else LastValue(kvs[..|kvs| - 1], k)
  }

  // It is the value of the entry with that key that no later one has.
  lemma {:induction false} LastValueMeans(kvs: seq<KeyValue>, k: string)
    ensures LastValue(kvs, k) == None <==> forall i | 0 <= i < |kvs| :: kvs[i].id != k
    ensures forall i | 0 <= i < |kvs| && kvs[i].id == k && (forall j | i < j < |kvs| :: kvs[j].id != k) ::
      LastValue(kvs, k) == Some(kvs[i].value)
  {
    if kvs == [] {
    } else {
      var n := |kvs| - 1;
      var before := kvs[..n];
      LastValueMeans(before, k);
      assert forall i | 0 <= i < n :: kvs[i] == before[i];
      if kvs[n].id != k {
        forall i | 0 <= i < |kvs| && kvs[i].id == k && (forall j | i < j < |kvs| :: kvs[j].id != k)
          ensures LastValue(kvs, k) == Some(kvs[i].value)
        {
          assert before[i].id == k && forall j | i < j < n :: before[j].id != k;
        }
      }
    }
  }

  function Overlaid(m: map<string, string>, kvs: seq<KeyValue>): map<string, string> {
    if kvs == [] then m
    else Overlaid(m, kvs[..|kvs| - 1])[kvs[|kvs| - 1].id := kvs[|kvs| - 1].value]
  }

  ghost predicate HoldsSettings(m: map<string, string>, kvs: seq<KeyValue>) {
    forall k: string :: LastValue(kvs, k).Some? ==> k in m && m[k] == LastValue(kvs, k).value
  }

  lemma {:induction false} OverlaidLooksUp(m: map<string, string>, kvs: seq<KeyValue>, k: string)
    ensures
      var r := Overlaid(m, kvs);
      if LastValue(kvs, k).Some? then k in r && r[k] == LastValue(kvs, k).value
      else (k in r <==> k in m) && (k in m ==> r[k] == m[k])
  {
    if kvs != [] {
      OverlaidLooksUp(m, kvs[..|kvs| - 1], k);
    }
  }

  lemma OverlaidHolds(m: map<string, string>, kvs: seq<KeyValue>)
    ensures HoldsSettings(Overlaid(m, kvs), kvs)
    ensures HoldsSettings(m, kvs) ==> Overlaid(m, kvs) == m
  {
    var r := Overlaid(m, kvs);
    forall k: string ensures LastValue(kvs, k).Some? ==> k in r && r[k] == LastValue(kvs, k).value {
      OverlaidLooksUp(m, kvs, k);
    }
    if HoldsSettings(m, kvs) {
      forall k: string ensures (k in r <==> k in m) && (k in m ==> r[k] == m[k]) {
        OverlaidLooksUp(m, kvs, k);
      }
    }
  }

  lemma {:induction false} SettingCallbacksOverlay(cd: ChannelDevice, kvs: seq<KeyValue>)
    ensures DoAll(cd, SettingCallbacks(kvs)) == cd.(settings := Overlaid(cd.settings, kvs))
  {
    if kvs != [] {
      var n := |kvs| - 1;
      assert SettingCallbacks(kvs)[..n] == SettingCallbacks(kvs[..n]);
      SettingCallbacksOverlay(cd, kvs[..n]);
    }
  }

  // The device shows everything the channel configuration asks for: standard settings, or else a profile.
  ghost predicate Reflects(cd: ChannelDevice, ch: Channel) {
    var j := Get(ch, "channelSettings");
    && (j.Settings? && j.standard.Some? ==> HoldsSettings(cd.settings, j.standard.value))
    && (j.Settings? && j.standard == None && j.profile.Some? ==> cd.profile == j.profile)
    && (Get(ch, "protocol").Protocol? ==> cd.connection == ch["protocol"])
    && cd.state == Get(ch, "state")
  }

  lemma DoOne(cd: ChannelDevice, c: Callback)
    ensures DoAll(cd, [c]) == Do(cd, c)
  {
    assert DoAll(cd, [c]) == Do(DoAll(cd, []), c);
  }

  lemma SettingsStore(cd: ChannelDevice, s: ChannelSettings)
    ensures DoAll(cd, SettingsCallbacks(s)) == cd.(
      settings := if s.Standard? then Overlaid(cd.settings, s.kvs) else cd.settings,
      profile := if s.ByProfile? then Some(s.profile) else cd.profile)
  {
    match s
    case Standard(kvs) => SettingCallbacksOverlay(cd, kvs);
    case ByProfile(p) => DoOne(cd, SetProfile(p));
    case NoSettings =>
  }

  lemma ProtocolStore(cd: ChannelDevice, ch: Channel)
    ensures DoAll(cd, ProtocolCallbacks(ch)) ==
      cd.(connection := if Get(ch, "protocol").Protocol? then ch["protocol"] else cd.connection)
  {
    if Get(ch, "protocol").Protocol? {
      DoOne(cd, SetConnection(ch["protocol"]));
    }
  }

  // The device after all callbacks of one channel, store by store.
  lemma CallbacksStoreByStore(cd: ChannelDevice, ch: Channel)
    ensures
      var s := SettingsOf(ch);
      DoAll(cd, Callbacks(ch)) == ChannelDevice(
        if s.Standard? then Overlaid(cd.settings, s.kvs) else cd.settings,
        if s.ByProfile? then Some(s.profile) else cd.profile,
        if Get(ch, "protocol").Protocol? then ch["protocol"] else cd.connection,
        Get(ch, "state"))
  {
    hide DoAll, SettingsOf, SettingsCallbacks, ProtocolCallbacks, Overlaid;
    var first, second := SettingsCallbacks(SettingsOf(ch)), ProtocolCallbacks(ch);
    var last := SetState(Get(ch, "state"));
    DoAllAppend(cd, first + second, [last]);
    DoAllAppend(cd, first, second);
    SettingsStore(cd, SettingsOf(ch));
    ProtocolStore(DoAll(cd, first), ch);
    DoOne(DoAll(DoAll(cd, first), second), last);
  }

  /** Applying a channel configuration makes the device reflect it, and applying
      one that the device already reflects changes nothing. */
  lemma ApplyIsIdempotent(cd: ChannelDevice, ch: Channel)
    ensures Reflects(DoAll(cd, Callbacks(ch)), ch)
    ensures Reflects(cd, ch) ==> DoAll(cd, Callbacks(ch)) == cd
  {
    CallbacksStoreByStore(cd, ch);
    if SettingsOf(ch).Standard? {
      OverlaidHolds(cd.settings, SettingsOf(ch).kvs);
    }
  }

  /** What applying leaves alone: every setting that is not named, the profile unless it alone is given, and the
      connection unless one is given. */
  lemma ApplyKeepsTheRest(cd: ChannelDevice, ch: Channel)
    ensures
      var d := DoAll(cd, Callbacks(ch));
      var j := Get(ch, "channelSettings");
      && (forall k: string | !(j.Settings? && j.standard.Some? && LastValue(j.standard.value, k).Some?) ::
            (k in d.settings <==> k in cd.settings) && (k in d.settings ==> d.settings[k] == cd.settings[k]))
      && (!(j.Settings? && j.standard == None && j.profile.Some?) ==> d.profile == cd.profile)
      && (!Get(ch, "protocol").Protocol? ==> d.connection == cd.connection)
  {
    CallbacksStoreByStore(cd, ch);
    var s := SettingsOf(ch);
    if s.Standard? {
      forall k: string | LastValue(s.kvs, k) == None
        ensures
          var r := Overlaid(cd.settings, s.kvs);
          (k in r <==> k in cd.settings) && (k in r ==> r[k] == cd.settings[k])
      {
        OverlaidLooksUp(cd.settings, s.kvs, k);
      }
    }
    hide Callbacks, DoAll;
  }

  /** The callbacks a channel configuration is applied by, in order, as its fields ask for them. */
  ghost predicate AsAsked(cs: seq<Callback>, ch: Channel) {
    var j := Get(ch, "channelSettings");
    var p := if Get(ch, "protocol").Protocol? then [SetConnection(ch["protocol"])] else [];
    if j.Settings? && j.standard.Some? then
      var kvs := j.standard.value;
      && |cs| == |kvs| + |p| && cs[|kvs|..] == p
      && forall i | 0 <= i < |kvs| :: cs[i] == SetSetting(kvs[i].id, kvs[i].value)
    else if j.Settings? && j.profile.Some? then cs == [SetProfile(j.profile.value)] + p
    else cs == p
  }

  lemma ConfigIsAsAsked(ch: Channel)
    ensures AsAsked(ConfigCallbacks(ch), ch)
  {
  }

  // Callbacks of different channels do not disturb each other.
  type Schedule = seq<(string, Callback)>

  function Execute(d: Device, s: Schedule): Device {
    if s == [] then d
    else
      var e := Execute(d, s[..|s| - 1]);
      var (id, c) := s[|s| - 1];
      e.(channels := e.channels[id := Do(ChannelOf(e, id), c)])
  }

  function Project(s: Schedule, id: string): seq<Callback> {
    if s == [] then []
    else Project(s[..|s| - 1], id) + if s[|s| - 1].0 == id then [s[|s| - 1].1] else []
  }

  /** However the callbacks of the channels are interleaved, each channel ends as
      if only its own callbacks had run. */
  lemma {:induction false} InterleavingIsPerChannel(d: Device, s: Schedule, id: string)
    ensures ChannelOf(Execute(d, s), id) == DoAll(ChannelOf(d, id), Project(s, id))
    ensures Execute(d, s).settings == d.settings
  {
    if s != [] {
      var n := |s| - 1;
      InterleavingIsPerChannel(d, s[..n], id);
      var p := Project(s, id);
      if s[n].0 == id {
        assert p[..|p| - 1] == Project(s[..n], id);
      } else {
        assert p == Project(s[..n], id);
      }
    }
  }
}
