/** How the host merges updates into a device's desired configuration and chooses versions. */
module HostConfig {
  import opened Option
  import opened Wire

  const EMPTY_CONFIG := Config(None, None, [])

  // ----- change detectors -----

  // Only the fields of the incoming channel are compared: a dropped field is not a change.
  predicate ChannelContentChanged(incoming: Channel, stored: Option<Channel>) {
    stored == None || exists k ::
      && k in incoming && k != "version"
      && (k !in stored.value || stored.value[k] != incoming[k])
  }

  predicate DeviceSettingsChanged(incoming: Config, stored: Option<Config>) {
    stored == None || incoming.settings != stored.value.settings
  }

  // ----- the three updates -----

  // The stored channel with a given id; a later one wins.
  function Find(channels: seq<Channel>, id: string): Option<Channel> {
    if channels == [] then None
    else
      var last := channels[|channels| - 1];
      if Get(last, "id") == Str(id) then Some(last) else Find(channels[..|channels| - 1], id)
  }

  // One channel of a full update: a fresh version if its content changed, the stored one otherwise.
  function Restamp(ch: Channel, stored: Option<Channel>, now: nat): Channel {
    if ChannelContentChanged(ch, stored) then ch["version" := Stamp(now)]
    else if IdOf(ch) != "" && "version" in stored.value then ch["version" := stored.value["version"]]
    else ch
  }

  function RestampAll(channels: seq<Channel>, stored: seq<Channel>, now: nat): seq<Channel> {
    seq(|channels|, i requires 0 <= i < |channels| => Restamp(channels[i], Find(stored, IdOf(channels[i])), now + i))
  }

  // A full update at clock value now; it reads the clock at most 1 + |channels| times.
  function FullUpdate(current: Option<Config>, full: Config, now: nat): Config {
    var version :=
      if DeviceSettingsChanged(full, current) then Some(Stamp(now))
      else if current.value.version.Some? then current.value.version
      else full.version;
    var stored := if current.Some? then current.value.channels else [];
    Config(version, full.settings, RestampAll(full.channels, stored, now + 1))
  }

  function IndexOf(channels: seq<Channel>, id: string): (i: nat)
    ensures i <= |channels|
    ensures i < |channels| ==> Get(channels[i], "id") == Str(id)
    ensures forall j | 0 <= j < i :: Get(channels[j], "id") != Str(id)
  {
    if channels == [] then 0
    else if Get(channels[0], "id") == Str(id) then 0
    else 1 + IndexOf(channels[1..], id)
  }

  function Overlay(ch: Channel, id: string, fields: Channel, now: nat): Channel {
    (ch + fields)["id" := Str(id)]["version" := Stamp(now)]
  }

  // One channel's update. A channel that is not there yet takes the incoming fields over its fresh id and version.
  function ChannelUpdate(current: Option<Config>, id: string, fields: Channel, now: nat): Config {
    var cfg := if current.Some? then current.value else EMPTY_CONFIG;
    var i := IndexOf(cfg.channels, id);
    var channels :=
      if i < |cfg.channels| then cfg.channels[i := Overlay(cfg.channels[i], id, fields, now)]
      else cfg.channels + [map["id" := Str(id), "version" := Stamp(now)] + fields];
    Config(if cfg.version.Some? then cfg.version else Some(Stamp(now + 1)), cfg.settings, channels)
  }

  function SettingsUpdate(current: Option<Config>, settings: Option<seq<KeyValue>>, now: nat): Config {
    var cfg := if current.Some? then current.value else EMPTY_CONFIG;
    cfg.(version := Some(Stamp(now)), settings := if settings.Some? then settings else cfg.settings)
  }

  // ----- what an update stores, told by its outcome -----

  // The last stored channel with an id, and the first; the length stands for none.
  ghost predicate LastWith(stored: seq<Channel>, id: string, j: int) {
    && 0 <= j < |stored| && Get(stored[j], "id") == Str(id)
    && forall l | j < l < |stored| :: Get(stored[l], "id") != Str(id)
  }

  ghost predicate FirstWith(stored: seq<Channel>, id: string, j: int) {
    && 0 <= j <= |stored| && (j < |stored| ==> Get(stored[j], "id") == Str(id))
    && forall l | 0 <= l < j :: Get(stored[l], "id") != Str(id)
  }

  ghost predicate SameButVersion(a: Channel, b: Channel) {
    forall k | k != "version" :: (k in a <==> k in b) && (k in a ==> a[k] == b[k])
  }

  // A version read from the clock during the update.
  ghost predicate Fresh(v: Json, from: nat, to: nat) {
    v.Stamp? && from <= v.n < to
  }

  // A stored channel already says everything that is sent, the version apart.
  ghost predicate NothingNew(sent: Channel, stored: seq<Channel>) {
    exists j :: LastWith(stored, IdOf(sent), j) && Extends(stored[j], sent)
  }

  // A channel is stored as it was sent; its version is fresh exactly if it says something new.
  ghost predicate ChannelAsSent(sent: Channel, stored: seq<Channel>, ch: Channel, from: nat, to: nat) {
    && SameButVersion(sent, ch)
    && (!NothingNew(sent, stored) ==> Fresh(Get(ch, "version"), from, to))
    && (NothingNew(sent, stored) ==> forall j | LastWith(stored, IdOf(sent), j) ::
          if IdOf(sent) != "" && "version" in stored[j] then Get(ch, "version") == stored[j]["version"] else ch == sent)
  }

  /** A full update stores what was sent. */
  ghost predicate StoredAsSent(current: Option<Config>, full: Config, c: Config, from: nat, to: nat) {
    var stored := if current.Some? then current.value.channels else [];
    && c.settings == full.settings && |c.channels| == |full.channels|
    && (forall i | 0 <= i < |c.channels| :: ChannelAsSent(full.channels[i], stored, c.channels[i], from, to))
    && (if current.Some? && current.value.settings == full.settings
        then current.value.version.Some? ==> c.version == current.value.version
        else c.version.Some? && Fresh(c.version.value, from, to))
  }

  // The fields sent over those that were there. A new channel takes even its id and version from them.
  ghost predicate Merged(was: Option<Channel>, id: string, fields: Channel, ch: Channel, from: nat, to: nat) {
    && (forall k | k != "id" && k != "version" ::
          && (k in ch <==> k in fields || (was.Some? && k in was.value))
          && (k in fields ==> Get(ch, k) == fields[k])
          && (k !in fields && was.Some? ==> Get(ch, k) == Get(was.value, k)))
    && Get(ch, "id") == (if was == None && "id" in fields then fields["id"] else Str(id))
    && (if was == None && "version" in fields then Get(ch, "version") == fields["version"]
        else Fresh(Get(ch, "version"), from, to))
  }

  lemma OverlayMerges(ch: Channel, id: string, fields: Channel, now: nat)
    ensures Merged(Some(ch), id, fields, Overlay(ch, id, fields, now), now, now + 2)
  {
  }

  lemma AdditionMerges(id: string, fields: Channel, now: nat)
    ensures Merged(None, id, fields, map["id" := Str(id), "version" := Stamp(now)] + fields, now, now + 2)
  {
  }

  lemma FirstIsIndex(channels: seq<Channel>, id: string, i: int)
    requires FirstWith(channels, id, i)
    ensures i == IndexOf(channels, id)
  {
  }

  /** A channel update stores what was sent over what was stored, in that one channel. */
  ghost predicate StoredInOne(current: Option<Config>, id: string, fields: Channel, c: Config, from: nat, to: nat) {
    var cfg := if current.Some? then current.value else Config(None, None, []);
    var n := |cfg.channels|;
    && c.settings == cfg.settings
    && (if cfg.version.Some? then c.version == cfg.version else c.version.Some? && Fresh(c.version.value, from, to))
    && forall i | FirstWith(cfg.channels, id, i) ::
      && |c.channels| == (if i < n then n else n + 1)
      && (forall j | 0 <= j < n && j != i :: c.channels[j] == cfg.channels[j])
      && Merged(if i < n then Some(cfg.channels[i]) else None, id, fields, c.channels[i], from, to)
  }

  /** A settings update stores the settings sent, if any, and always under a fresh version. */
  ghost predicate StoredSettings(current: Option<Config>, settings: Option<seq<KeyValue>>, c: Config,
                                 from: nat, to: nat)
  {
    && c.channels == (if current.Some? then current.value.channels else [])
    && c.settings == (if settings.Some? then settings else if current.Some? then current.value.settings else None)
    && c.version.Some? && Fresh(c.version.value, from, to)
  }

  lemma {:induction false} FindIsLast(stored: seq<Channel>, id: string)
    ensures forall j | LastWith(stored, id, j) :: Find(stored, id) == Some(stored[j])
    ensures Find(stored, id).Some? ==> exists j :: LastWith(stored, id, j) && stored[j] == Find(stored, id).value
  {
    if stored == [] {
    } else {
      var n := |stored| - 1;
      FindIsLast(stored[..n], id);
      if Get(stored[n], "id") == Str(id) {
        assert LastWith(stored, id, n);
      } else {
        forall j ensures LastWith(stored, id, j) <==> LastWith(stored[..n], id, j) {
          LastWithout(stored, id, j);
        }
      }
    }
  }

  lemma LastWithout(stored: seq<Channel>, id: string, j: int)
    requires stored != [] && Get(stored[|stored| - 1], "id") != Str(id)
    ensures LastWith(stored, id, j) <==> LastWith(stored[..|stored| - 1], id, j)
  {
    var before := stored[..|stored| - 1];
    assert forall l | 0 <= l < |before| :: before[l] == stored[l];
  }

  lemma RestampMeans(sent: Channel, stored: seq<Channel>, now: nat)
    ensures ChannelAsSent(sent, stored, Restamp(sent, Find(stored, IdOf(sent)), now), now, now + 1)
  {
    FindIsLast(stored, IdOf(sent));
    var f := Find(stored, IdOf(sent));
    assert !ChannelContentChanged(sent, f) <==> f.Some? && Extends(f.value, sent);
    assert NothingNew(sent, stored) <==> f.Some? && Extends(f.value, sent);
    hide ChannelContentChanged, Find, LastWith, Extends;
  }

  lemma FullUpdateMeans(current: Option<Config>, full: Config, now: nat)
    ensures StoredAsSent(current, full, FullUpdate(current, full, now), now, now + 1 + |full.channels|)
  {
    hide ChannelAsSent, Restamp, Find;
    var stored := if current.Some? then current.value.channels else [];
    var c := FullUpdate(current, full, now);
    forall i | 0 <= i < |c.channels|
      ensures ChannelAsSent(full.channels[i], stored, c.channels[i], now, now + 1 + |full.channels|)
    {
      RestampMeans(full.channels[i], stored, now + 1 + i);
      SentLater(full.channels[i], stored, c.channels[i], now + 1 + i, now, now + 1 + |full.channels|);
    }
  }

  lemma SentLater(sent: Channel, stored: seq<Channel>, ch: Channel, at: nat, from: nat, to: nat)
    requires ChannelAsSent(sent, stored, ch, at, at + 1) && from <= at < to
    ensures ChannelAsSent(sent, stored, ch, from, to)
  {
    hide NothingNew, LastWith, SameButVersion;
  }

  lemma ChannelUpdateMeans(current: Option<Config>, id: string, fields: Channel, now: nat)
    ensures StoredInOne(current, id, fields, ChannelUpdate(current, id, fields, now), now, now + 2)
  {
    var cfg := if current.Some? then current.value else Config(None, None, []);
    var n, k := |cfg.channels|, IndexOf(cfg.channels, id);
    var c := ChannelUpdate(current, id, fields, now);
    if k < n {
      OverlayMerges(cfg.channels[k], id, fields, now);
    } else {
      AdditionMerges(id, fields, now);
    }
    hide Merged, Overlay;
    assert forall j | 0 <= j < n && j != k :: c.channels[j] == cfg.channels[j];
    forall i | FirstWith(cfg.channels, id, i) ensures i == k {
      FirstIsIndex(cfg.channels, id, i);
    }
    hide FirstWith, IndexOf;
  }

  lemma SettingsUpdateMeans(current: Option<Config>, settings: Option<seq<KeyValue>>, now: nat)
    ensures StoredSettings(current, settings, SettingsUpdate(current, settings, now), now, now + 1)
  {
  }

  // ----- well-formed configurations -----

  ghost predicate DistinctIds(channels: seq<Channel>) {
    && (forall i | 0 <= i < |channels| :: "id" in channels[i] && channels[i]["id"].Str? && channels[i]["id"].s != "")
    && (forall i, j | 0 <= i < j < |channels| :: Get(channels[i], "id") != Get(channels[j], "id"))
  }

  predicate StampedBelow(v: Json, now: nat) {
    v.Stamp? && v.n < now
  }

  // What every stored configuration satisfies: distinct ids, and versions read from a clock that has moved on.
  ghost predicate Stored(c: Config, now: nat) {
    && DistinctIds(c.channels)
    && c.version.Some? && StampedBelow(c.version.value, now)
    && forall i | 0 <= i < |c.channels| :: StampedBelow(Get(c.channels[i], "version"), now)
  }

  // Every field of b except the version is in a with the same value.
  ghost predicate Extends(a: Channel, b: Channel) {
    forall k | k in b && k != "version" :: k in a && a[k] == b[k]
  }

  // Equal versions in an earlier and a later configuration mean equal device settings,
  // and a later channel that says no more than the earlier one.
  ghost predicate Identifies(earlier: Config, later: Config) {
    && (earlier.version == later.version ==> earlier.settings == later.settings)
    && (forall i, j | 0 <= i < |earlier.channels| && 0 <= j < |later.channels| ::
          Get(earlier.channels[i], "id") == Get(later.channels[j], "id")
          && Get(earlier.channels[i], "version") == Get(later.channels[j], "version")
          ==> Extends(earlier.channels[i], later.channels[j]))
  }

  // ----- every update keeps versions meaningful -----

  datatype Update = Full(cfg: Config) | OneChannel(id: string, fields: Channel)
      | DeviceSettings(settings: Option<seq<KeyValue>>)

  predicate HasChannel(current: Option<Config>, id: string) {
    current.Some? && exists i :: 0 <= i < |current.value.channels| && Get(current.value.channels[i], "id") == Str(id)
  }

  // The id a channel gets when it is first updated: an incoming one overwrites the one asked for.
  function NewId(id: string, fields: Channel): Json {
    if "id" in fields then fields["id"] else Str(id)
  }

  // A full update names its channels apart. The first update of a channel brings no id of another
  // channel and no version, unless it happens to be the one the clock shows.
  ghost predicate Admissible(u: Update, current: Option<Config>, now: nat) {
    match u
    case Full(cfg) => DistinctIds(cfg.channels)
    case OneChannel(id, fields) =>
      || HasChannel(current, id)
      || (&& NewId(id, fields).Str? && NewId(id, fields).s != "" && !HasChannel(current, NewId(id, fields).s)
          && ("version" in fields ==> fields["version"] == Stamp(now) || fields["version"] == Stamp(now + 1)))
    case DeviceSettings(_) => true
  }

  function Perform(current: Option<Config>, u: Update, now: nat): (Config, nat) {
    match u
    case Full(cfg) => (FullUpdate(current, cfg, now), now + 1 + |cfg.channels|)
    case OneChannel(id, fields) => (ChannelUpdate(current, id, fields, now), now + 2)
    case DeviceSettings(settings) => (SettingsUpdate(current, settings, now), now + 1)
  }

  // A channel of the next configuration is either freshly stamped or comes from a stored one of the same id and
  // version.
  ghost predicate Follows(ch: Channel, stored: seq<Channel>, now: nat, next: nat) {
    || (Get(ch, "version").Stamp? && now <= Get(ch, "version").n < next)
    || (exists i :: 0 <= i < |stored| && Get(stored[i], "id") == Get(ch, "id")
          && Get(stored[i], "version") == Get(ch, "version") && Extends(stored[i], ch))
  }

  lemma FindIsStored(channels: seq<Channel>, id: string)
    ensures
      var r := Find(channels, id);
      r.Some? ==> exists i :: 0 <= i < |channels| && channels[i] == r.value && Get(channels[i], "id") == Str(id)
  {
    if channels != [] {
      var n := |channels| - 1;
      FindIsStored(channels[..n], id);
      if Get(channels[n], "id") != Str(id) && Find(channels[..n], id).Some? {
        var i :| 0 <= i < n && channels[..n][i] == Find(channels[..n], id).value
            && Get(channels[..n][i], "id") == Str(id);
        assert channels[i] == Find(channels, id).value;
      }
    }
  }

  lemma RestampFollows(ch: Channel, stored: seq<Channel>, now: nat, at: nat, next: nat)
    requires now <= at < next
    requires "id" in ch && ch["id"].Str? && ch["id"].s != ""
    requires forall i | 0 <= i < |stored| :: StampedBelow(Get(stored[i], "version"), now)
    ensures
      var r := Restamp(ch, Find(stored, IdOf(ch)), at);
      && Follows(r, stored, now, next)
      && Get(r, "id") == ch["id"]
  {
    FindIsStored(stored, IdOf(ch));
    var f := Find(stored, IdOf(ch));
    if !ChannelContentChanged(ch, f) {
      var i :| 0 <= i < |stored| && stored[i] == f.value && Get(stored[i], "id") == Str(IdOf(ch));
      var r := Restamp(ch, f, at);
      forall k | k in r && k != "version" ensures k in stored[i] && stored[i][k] == r[k] {
        assert k in ch;
      }
    }
  }

  lemma FullUpdateFollows(current: Option<Config>, cfg: Config, now: nat)
    requires DistinctIds(cfg.channels) && (current.Some? ==> Stored(current.value, now))
    ensures
      var stored := if current.Some? then current.value.channels else [];
      var r := RestampAll(cfg.channels, stored, now + 1);
      var next := now + 1 + |cfg.channels|;
      && DistinctIds(r)
      && (forall j | 0 <= j < |r| :: Follows(r[j], stored, now, next) && StampedBelow(Get(r[j], "version"), next))
  {
    var stored := if current.Some? then current.value.channels else [];
    var r := RestampAll(cfg.channels, stored, now + 1);
    var next := now + 1 + |cfg.channels|;
    forall j | 0 <= j < |r|
      ensures Follows(r[j], stored, now, next) && StampedBelow(Get(r[j], "version"), next)
      ensures "id" in r[j] && r[j]["id"] == cfg.channels[j]["id"]
    {
      RestampFollows(cfg.channels[j], stored, now, now + 1 + j, next);
    }
  }

  ghost predicate ChannelsGood(channels: seq<Channel>, stored: seq<Channel>, now: nat, next: nat) {
    && DistinctIds(channels)
    && (forall j | 0 <= j < |channels| ::
          Follows(channels[j], stored, now, next) && StampedBelow(Get(channels[j], "version"), next))
  }

  lemma StoredFollowsItself(current: Config, j: nat, now: nat)
    requires Stored(current, now) && j < |current.channels|
    ensures Follows(current.channels[j], current.channels, now, now + 2)
    ensures StampedBelow(Get(current.channels[j], "version"), now + 2)
  {
  }

  lemma FreshFollows(ch: Channel, stored: seq<Channel>, now: nat)
    requires Get(ch, "version") == Stamp(now) || Get(ch, "version") == Stamp(now + 1)
    ensures Follows(ch, stored, now, now + 2) && StampedBelow(Get(ch, "version"), now + 2)
  {
  }

  lemma DistinctReplaced(channels: seq<Channel>, i: nat, ch: Channel)
    requires DistinctIds(channels) && i < |channels| && "id" in ch && ch["id"] == Get(channels[i], "id")
    ensures DistinctIds(channels[i := ch])
  {
  }

  lemma DistinctAppended(channels: seq<Channel>, ch: Channel)
    requires DistinctIds(channels) && "id" in ch
    ensures DistinctIds(channels + [ch]) <==>
      ch["id"].Str? && ch["id"].s != "" && forall j | 0 <= j < |channels| :: Get(channels[j], "id") != ch["id"]
  {
    var r := channels + [ch];
    assert r[|channels|] == ch && forall j | 0 <= j < |channels| :: r[j] == channels[j];
    if DistinctIds(r) {
      forall j | 0 <= j < |channels| ensures Get(channels[j], "id") != ch["id"] {
        assert Get(r[j], "id") != Get(r[|channels|], "id");
      }
    }
  }

  // An update of a stored channel.
  lemma StoredChannelFollows(current: Config, id: string, fields: Channel, now: nat)
    requires Stored(current, now) && HasChannel(Some(current), id)
    ensures ChannelsGood(ChannelUpdate(Some(current), id, fields, now).channels, current.channels, now, now + 2)
  {
    var stored := current.channels;
    var r := ChannelUpdate(Some(current), id, fields, now).channels;
    var i := IndexOf(stored, id);
    var ch := Overlay(stored[i], id, fields, now);
    assert r == stored[i := ch] && "id" in ch && ch["id"] == Str(id) && Get(ch, "version") == Stamp(now);
    hide Overlay, Follows, DistinctIds, StampedBelow, ChannelUpdate;
    StoredMeans(current, now);
    DistinctReplaced(stored, i, ch);
    FreshFollows(ch, stored, now);
    forall j | 0 <= j < |r|
      ensures Follows(r[j], stored, now, now + 2) && StampedBelow(Get(r[j], "version"), now + 2)
    {
      if j != i {
        StoredFollowsItself(current, j, now);
      }
    }
  }

  lemma StoredMeans(c: Config, now: nat)
    requires Stored(c, now)
    ensures DistinctIds(c.channels)
  {
  }

  // A first update of a channel: it is good exactly with an id of its own and a fresh version.
  lemma NewChannelFollows(current: Option<Config>, id: string, fields: Channel, now: nat)
    requires (current.Some? ==> Stored(current.value, now)) && !HasChannel(current, id)
    ensures
      var stored := if current.Some? then current.value.channels else [];
      ChannelsGood(ChannelUpdate(current, id, fields, now).channels, stored, now, now + 2)
      <==> Admissible(OneChannel(id, fields), current, now)
    ensures
      DistinctIds(ChannelUpdate(current, id, fields, now).channels) <==>
      NewId(id, fields).Str? && NewId(id, fields).s != "" && !HasChannel(current, NewId(id, fields).s)
  {
    var stored := if current.Some? then current.value.channels else [];
    var n := |stored|;
    var r := ChannelUpdate(current, id, fields, now).channels;
    var ch: Channel := map["id" := Str(id), "version" := Stamp(now)] + fields;
    assert r == stored + [ch] && "id" in ch && ch["id"] == NewId(id, fields);
    assert Get(ch, "version") == if "version" in fields then fields["version"] else Stamp(now);
    if current.Some? {
      StoredMeans(current.value, now);
    }
    DistinctAppended(stored, ch);
    NewFollows(ch, stored, now);
    hide Follows, DistinctIds, StampedBelow, ChannelUpdate, Stored;
    assert r[n] == ch;
    forall j | 0 <= j < n ensures Follows(r[j], stored, now, now + 2) && StampedBelow(Get(r[j], "version"), now + 2) {
      StoredFollowsItself(current.value, j, now);
    }
  }

  // A channel that no stored one has the id of follows exactly with a fresh version.
  lemma NewFollows(ch: Channel, stored: seq<Channel>, now: nat)
    ensures (forall j | 0 <= j < |stored| :: Get(stored[j], "id") != Get(ch, "id")) ==>
      (Follows(ch, stored, now, now + 2) && StampedBelow(Get(ch, "version"), now + 2)
       <==> Get(ch, "version") == Stamp(now) || Get(ch, "version") == Stamp(now + 1))
  {
  }

  // What an update is for: a configuration that can be stored, every channel freshly stamped or continuing
  // a stored one, and a fresh device version unless the settings are unchanged.
  ghost predicate Good(current: Option<Config>, u: Update, now: nat) {
    var (c, next) := Perform(current, u, now);
    var stored := if current.Some? then current.value.channels else [];
    && Stored(c, next)
    && (forall j | 0 <= j < |c.channels| :: Follows(c.channels[j], stored, now, next))
    && (now <= c.version.value.n
        || (current.Some? && c.version == current.value.version && c.settings == current.value.settings))
  }

  lemma FullIsGood(current: Option<Config>, cfg: Config, now: nat)
    requires current.Some? ==> Stored(current.value, now)
    ensures Good(current, Full(cfg), now) <==> DistinctIds(cfg.channels)
  {
    FullUpdateKeepsIds(current, cfg, now);
    if DistinctIds(cfg.channels) {
      FullUpdateFollows(current, cfg, now);
    }
    hide Follows, DistinctIds, RestampAll;
  }

  lemma OneChannelIsGood(current: Option<Config>, id: string, fields: Channel, now: nat)
    requires current.Some? ==> Stored(current.value, now)
    ensures Good(current, OneChannel(id, fields), now) <==> Admissible(OneChannel(id, fields), current, now)
  {
    if HasChannel(current, id) {
      StoredChannelFollows(current.value, id, fields, now);
    } else {
      NewChannelFollows(current, id, fields, now);
    }
    hide Follows, DistinctIds, HasChannel, NewId;
  }

  lemma SettingsAreGood(current: Option<Config>, settings: Option<seq<KeyValue>>, now: nat)
    requires current.Some? ==> Stored(current.value, now)
    ensures Good(current, DeviceSettings(settings), now)
  {
    var stored := if current.Some? then current.value.channels else [];
    var c := SettingsUpdate(current, settings, now);
    forall j | 0 <= j < |c.channels| ensures Follows(c.channels[j], stored, now, now + 1) {
      assert c.channels[j] == stored[j];
    }
  }

  /** Exactly the admissible updates are good, whatever was stored. */
  lemma UpdateFollows(current: Option<Config>, u: Update, now: nat)
    requires current.Some? ==> Stored(current.value, now)
    ensures Good(current, u, now) <==> Admissible(u, current, now)
  {
    match u
    case Full(cfg) => FullIsGood(current, cfg, now);
    case OneChannel(id, fields) => OneChannelIsGood(current, id, fields, now);
    case DeviceSettings(settings) => SettingsAreGood(current, settings, now);
  }

  lemma IdentifiesItself(c: Config, now: nat)
    requires Stored(c, now)
    ensures Identifies(c, c)
  {
  }

  lemma IdentifiesNext(earlier: Config, current: Config, u: Update, now: nat)
    requires Admissible(u, Some(current), now) && Stored(earlier, now) && Stored(current, now)
        && Identifies(earlier, current)
    ensures Identifies(earlier, Perform(Some(current), u, now).0)
  {
    UpdateFollows(Some(current), u, now);
    var c := Perform(Some(current), u, now).0;
    forall i, j | 0 <= i < |earlier.channels| && 0 <= j < |c.channels|
      && Get(earlier.channels[i], "id") == Get(c.channels[j], "id")
      && Get(earlier.channels[i], "version") == Get(c.channels[j], "version")
      ensures Extends(earlier.channels[i], c.channels[j])
    {
      assert Follows(c.channels[j], current.channels, now, Perform(Some(current), u, now).1);
      assert StampedBelow(Get(earlier.channels[i], "version"), now);
    }
  }

  // ----- whole runs -----

  // The configurations stored by a run of updates, oldest first, and the clock after it.
  function Run(updates: seq<Update>, now: nat): (seq<Config>, nat) {
    if updates == [] then ([], now)
    else
      var (hist, clock) := Run(updates[..|updates| - 1], now);
      var (c, next) := Perform(if hist == [] then None else Some(hist[|hist| - 1]), updates[|updates| - 1], clock);
      (hist + [c], next)
  }

  // The configuration stored after a run.
  function Latest(updates: seq<Update>, now: nat): Option<Config> {
    var hist := Run(updates, now).0;
    if hist == [] then None else Some(hist[|hist| - 1])
  }

  ghost predicate AllAdmissible(updates: seq<Update>, now: nat) {
    updates == [] ||
    var n := |updates| - 1;
    AllAdmissible(updates[..n], now) && Admissible(updates[n], Latest(updates[..n], now), Run(updates[..n], now).1)
  }

  // Every update of the run was good when it was made.
  ghost predicate AllGood(updates: seq<Update>, now: nat) {
    updates == [] ||
    var n := |updates| - 1;
    AllGood(updates[..n], now) && Good(Latest(updates[..n], now), updates[n], Run(updates[..n], now).1)
  }

  // A device version is read from the clock, or kept together with the settings.
  ghost predicate VersionFresh(current: Option<Config>, c: Config, now: nat, next: nat) {
    && c.version.Some? && c.version.value.Stamp?
    && (now <= c.version.value.n < next
        || (current.Some? && c.version == current.value.version && c.settings == current.value.settings))
  }

  lemma DeviceVersionFresh(current: Option<Config>, u: Update, now: nat)
    requires current.Some? ==> current.value.version.Some? && current.value.version.value.Stamp?
    ensures VersionFresh(current, Perform(current, u, now).0, now, Perform(current, u, now).1)
  {
    hide RestampAll, IndexOf, Overlay;
  }

  /** Over every run, whatever the updates: equal device versions mean equal device settings. */
  lemma {:induction false} DeviceVersionsIdentifySettings(updates: seq<Update>, now: nat)
    ensures
      var (hist, clock) := Run(updates, now);
      && |hist| == |updates| && now <= clock
      && (forall i | 0 <= i < |hist| :: hist[i].version.Some? && StampedBelow(hist[i].version.value, clock))
      && (forall i, j | 0 <= i <= j < |hist| ::
            hist[i].version == hist[j].version ==> hist[i].settings == hist[j].settings)
  {
    if updates == [] {
    } else {
      var n := |updates| - 1;
      DeviceVersionsIdentifySettings(updates[..n], now);
      var (hist, clock) := Run(updates[..n], now);
      var current := if hist == [] then None else Some(hist[|hist| - 1]);
      DeviceVersionFresh(current, updates[n], clock);
      var (c, next) := Perform(current, updates[n], clock);
      assert clock <= next;
      hide Perform;
      var all := hist + [c];
      assert Run(updates, now) == (all, next);
      forall i, j | 0 <= i <= j < |all| && all[i].version == all[j].version
        ensures all[i].settings == all[j].settings
      {
        if i < |hist| && j == |hist| && current.Some? && c.version == current.value.version {
          assert hist[i].version == hist[|hist| - 1].version;
        }
      }
    }
  }

  /** Over every run of admissible updates: each stored configuration has distinct ids and versions that were read
      from the clock, and a version identifies what it was given to. */
  lemma {:induction false} AdmissibleRun(updates: seq<Update>, now: nat)
    requires AllAdmissible(updates, now)
    ensures
      var (hist, clock) := Run(updates, now);
      && |hist| == |updates| && now <= clock
      && (forall i | 0 <= i < |hist| :: Stored(hist[i], clock))
      && (forall i, j | 0 <= i <= j < |hist| :: Identifies(hist[i], hist[j]))
  {
    if updates == [] {
    } else {
      var n := |updates| - 1;
      AdmissibleRun(updates[..n], now);
      var (hist, clock) := Run(updates[..n], now);
      var current := if hist == [] then None else Some(hist[|hist| - 1]);
      var (c, next) := Perform(current, updates[n], clock);
      assert Run(updates, now) == (hist + [c], next) && clock <= next;
      hide Run, Admissible, Perform, Stored, Identifies;
      AdmissibleStep(current, updates[n], clock);
      forall i | 0 <= i < |hist| ensures Identifies(hist[i], c) && Stored(hist[i], next) {
        IdentifiesNext(hist[i], hist[|hist| - 1], updates[n], clock);
        StoredLater(hist[i], clock, next);
      }
    }
  }

  lemma AdmissibleStep(current: Option<Config>, u: Update, now: nat)
    requires Admissible(u, current, now) && (current.Some? ==> Stored(current.value, now))
    ensures
      var (c, next) := Perform(current, u, now);
      Stored(c, next) && Identifies(c, c)
  {
    UpdateFollows(current, u, now);
    var (c, next) := Perform(current, u, now);
    hide Perform, Admissible, Stored, Identifies;
    IdentifiesItself(c, next);
  }

  lemma StoredLater(c: Config, now: nat, later: nat)
    requires Stored(c, now) && now <= later
    ensures Stored(c, later)
  {
    hide DistinctIds;
  }

  lemma {:induction false} GoodRuns(updates: seq<Update>, now: nat)
    ensures AllGood(updates, now) <==> AllAdmissible(updates, now)
  {
    hide Good, Admissible, Stored, Identifies, Perform;
    if updates == [] {
    } else {
      var n := |updates| - 1;
      GoodRuns(updates[..n], now);
      if AllAdmissible(updates[..n], now) {
        AdmissibleRun(updates[..n], now);
        UpdateFollows(Latest(updates[..n], now), updates[n], Run(updates[..n], now).1);
      }
    }
  }

  /** Over every run: all updates do what an update is for if and only if all were admissible; and then each stored
      configuration has distinct ids and versions that were read from the clock, and a version identifies what it
      was given to. */
  lemma VersionsIdentifyContent(updates: seq<Update>, now: nat)
    ensures AllGood(updates, now) <==> AllAdmissible(updates, now)
    ensures AllAdmissible(updates, now) ==>
      var (hist, clock) := Run(updates, now);
      && (forall i | 0 <= i < |hist| :: Stored(hist[i], clock))
      && (forall i, j | 0 <= i <= j < |hist| :: Identifies(hist[i], hist[j]))
  {
    GoodRuns(updates, now);
    if AllAdmissible(updates, now) {
      AdmissibleRun(updates, now);
    }
  }

  // ----- what one channel update leaves alone -----

  /** Whatever was stored and whatever comes in: a channel update overlays exactly one channel, the first with its id
      or a new last one; no channel is lost, every other one stays, and so do the settings and the device version. */
  lemma ChannelUpdateFrame(current: Config, id: string, fields: Channel, now: nat)
    ensures
      var c := ChannelUpdate(Some(current), id, fields, now);
      var n := |current.channels|;
      var i := IndexOf(current.channels, id);
      && c.settings == current.settings && (current.version.Some? ==> c.version == current.version)
      && |c.channels| == (if HasChannel(Some(current), id) then n else n + 1)
      && i < |c.channels|
      && (forall j | 0 <= j < n && j != i :: c.channels[j] == current.channels[j])
      && (forall k | k != "id" && k != "version" ::
            Get(c.channels[i], k) ==
              if k in fields then fields[k] else if i < n then Get(current.channels[i], k) else Null)
  {
    var i := IndexOf(current.channels, id);
    assert HasChannel(Some(current), id) <==> i < |current.channels|;
  }

  /** The channel an update is for gets the id asked for, and a fresh version, exactly when it is
      stored already or the incoming fields do not bring another id, or version, along. */
  lemma ChannelGetsIdAndVersion(current: Option<Config>, id: string, fields: Channel, now: nat)
    ensures
      var channels := if current.Some? then current.value.channels else [];
      var found := exists i :: 0 <= i < |channels| && Get(channels[i], "id") == Str(id);
      var ch := ChannelUpdate(current, id, fields, now).channels[IndexOf(channels, id)];
      && (Get(ch, "version") == Stamp(now) <==> found || "version" !in fields || fields["version"] == Stamp(now))
      && (Get(ch, "id") == Str(id) <==> found || "id" !in fields || fields["id"] == Str(id))
  {
  }

  /** A full update stores distinct, non-empty ids exactly when it was sent with them: the host adds and drops none. */
  lemma FullUpdateKeepsIds(current: Option<Config>, full: Config, now: nat)
    ensures DistinctIds(FullUpdate(current, full, now).channels) <==> DistinctIds(full.channels)
  {
    var r := FullUpdate(current, full, now).channels;
    assert |r| == |full.channels|;
    forall j | 0 <= j < |r|
      ensures Get(r[j], "id") == Get(full.channels[j], "id") && ("id" in r[j] <==> "id" in full.channels[j])
    {
    }
  }

  // A full update that repeats an id: the last copy lends its version to all, and a later
  // configuration says more under that version than an earlier one did.
  lemma DuplicateIdsConfuse()
    ensures
      var idle: Channel := map["id" := Str("A"), "state" := Str("IDLE")];
      var active: Channel := map["id" := Str("A"), "state" := Str("ACTIVE")];
      var more: Channel := active["protocol" := Protocol(map[])];
      var c1 := FullUpdate(None, Config(None, None, [idle, more]), 0);
      var c2 := FullUpdate(Some(c1), Config(None, None, [active, more]), 10);
      var c3 := FullUpdate(Some(c2), Config(None, None, [more]), 20);
      !Identifies(c2, c3)
  {
    var idle: Channel := map["id" := Str("A"), "state" := Str("IDLE")];
    var active: Channel := map["id" := Str("A"), "state" := Str("ACTIVE")];
    var more: Channel := active["protocol" := Protocol(map[])];
    var c1 := FullUpdate(None, Config(None, None, [idle, more]), 0);
    assert c1.channels[1] == more["version" := Stamp(2)];
    LastIsFound(c1.channels, "A");
    var c2 := FullUpdate(Some(c1), Config(None, None, [active, more]), 10);
    assert c2.channels[0] == active["version" := Stamp(2)] && c2.channels[1] == more["version" := Stamp(2)];
    LastIsFound(c2.channels, "A");
    var c3 := FullUpdate(Some(c2), Config(None, None, [more]), 20);
    hide Find;
    assert c3.channels[0] == more["version" := Stamp(2)];
    hide FullUpdate, Restamp, RestampAll;
    assert Get(c2.channels[0], "id") == Get(c3.channels[0], "id");
    assert "protocol" in c3.channels[0] && "protocol" !in c2.channels[0];
  }

  lemma LastIsFound(channels: seq<Channel>, id: string)
    requires channels != [] && Get(channels[|channels| - 1], "id") == Str(id)
    ensures Find(channels, id) == Some(channels[|channels| - 1])
  {
  }

  // An incoming "version" key on a first update reuses an old version for new content.
  lemma StaleVersionReused()
    ensures
      var c0 := ChannelUpdate(None, "CH1", map["state" := Str("IDLE")], 10);
      var c1 := FullUpdate(Some(c0), Config(None, None, []), 20);
      var c2 := ChannelUpdate(Some(c1), "CH1", map["state" := Str("ACTIVE"), "version" := Stamp(10)], 30);
      !Identifies(c0, c2)
  {
    var c0 := ChannelUpdate(None, "CH1", map["state" := Str("IDLE")], 10);
    var c1 := FullUpdate(Some(c0), Config(None, None, []), 20);
    var c2 := ChannelUpdate(Some(c1), "CH1", map["state" := Str("ACTIVE"), "version" := Stamp(10)], 30);
    assert c1.channels == [];
    assert c0.channels[0]["version"] == c2.channels[0]["version"] && c0.channels[0]["state"] != c2.channels[0]["state"];
  }
}
