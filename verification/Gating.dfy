/** Why the client may skip what it has already applied.

  The client polls the retained configuration and starts work only for channels
  whose version it has not recorded. When the workers of a poll finish before the
  next one, this leaves the device exactly as re-applying everything would.
*/
module Gating {
  import opened Option
  import opened Wire
  import HostConfig
  import opened Device

  // What the application loop remembers between polls.
  datatype Client = Client(device: Device, latest: map<string, Json>, latestDevice: Json)

  function Recorded(latest: map<string, Json>, id: string): Json {
    if id in latest then latest[id] else Str("")
  }

  predicate Skipped(latest: map<string, Json>, ch: Channel) {
    Recorded(latest, IdOf(ch)) == Get(ch, "version")
  }

  // The record after the workers of a poll have finished.
  function Record(latest: map<string, Json>, channels: seq<Channel>): map<string, Json> {
    if channels == [] then latest
    else
      var r := Record(latest, channels[..|channels| - 1]);
      var ch := channels[|channels| - 1];
      if Skipped(latest, ch) then r else r[IdOf(ch) := Get(ch, "version")]
  }

  // ----- one poll -----

  // The workers' callbacks, interleaved in any way that keeps each worker's own order.
  ghost predicate Runs(s: Schedule, latest: map<string, Json>, channels: seq<Channel>) {
    && (forall i | 0 <= i < |channels| ::
          Project(s, IdOf(channels[i])) == if Skipped(latest, channels[i]) then [] else Callbacks(channels[i]))
    && (forall id: string :: (forall i | 0 <= i < |channels| :: IdOf(channels[i]) != id) ==> Project(s, id) == [])
  }

  function Settled(m: map<string, string>, cfg: Config): map<string, string> {
    if cfg.settings.Some? then Overlaid(m, cfg.settings.value) else m
  }

  function VersionOf(cfg: Config): Json {
    if cfg.version.Some? then cfg.version.value else Str("")
  }

  function GatedPoll(c: Client, cfg: Config, s: Schedule): Client {
    var d := Execute(c.device, s);
    Client(
      if VersionOf(cfg) != c.latestDevice then d.(settings := Settled(d.settings, cfg)) else d,
      Record(c.latest, cfg.channels),
      VersionOf(cfg))
  }

  function FullPoll(d: Device, cfg: Config, s: Schedule): Device {
    var e := Execute(d, s);
    e.(settings := Settled(e.settings, cfg))
  }

  // The client loses its connection and forgets what it has applied.
  function Forget(c: Client): Client {
    Client(c.device, map[], Str(""))
  }

  // ----- runs -----

  // A poll of the at-th stored configuration, with one schedule for each of the two loops.
  datatype Event = Poll(at: nat, gated: Schedule, full: Schedule) | Reset

  ghost predicate Happens(hist: seq<Config>, e: Event, c: Client, from: nat) {
    match e
    case Poll(at, gated, full) =>
      && from <= at < |hist|
      && Runs(gated, c.latest, hist[at].channels) && Runs(full, map[], hist[at].channels)
    case Reset => true
  }

  function Gated(hist: seq<Config>, e: Event, c: Client): Client {
    match e
    case Poll(at, gated, _) => if at < |hist| then GatedPoll(c, hist[at], gated) else c
    case Reset => Forget(c)
  }

  function Full(hist: seq<Config>, e: Event, d: Device): Device {
    match e
    case Poll(at, _, full) => if at < |hist| then FullPoll(d, hist[at], full) else d
    case Reset => d
  }

  function GatedRun(hist: seq<Config>, es: seq<Event>, d: Device): Client {
    if es == [] then Client(d, map[], Str(""))
    else Gated(hist, es[|es| - 1], GatedRun(hist, es[..|es| - 1], d))
  }

  function FullRun(hist: seq<Config>, es: seq<Event>, d: Device): Device {
    if es == [] then d
    else Full(hist, es[|es| - 1], FullRun(hist, es[..|es| - 1], d))
  }

  function Position(es: seq<Event>): nat {
    if es == [] then 0
    else if es[|es| - 1].Poll? then es[|es| - 1].at
    else Position(es[..|es| - 1])
  }

  // Configurations arrive in the order they were stored, each at least as late as the one before.
  ghost predicate InOrder(hist: seq<Config>, es: seq<Event>, d: Device) {
    es == [] ||
    var n := |es| - 1;
    InOrder(hist, es[..n], d) && Happens(hist, es[n], GatedRun(hist, es[..n], d), Position(es[..n]))
  }

  // A history whose versions identify content and whose channels all name a state.
  ghost predicate Meaningful(hist: seq<Config>, now: nat) {
    && (forall i | 0 <= i < |hist| :: HostConfig.Stored(hist[i], now))
    && (forall i, j | 0 <= i <= j < |hist| :: HostConfig.Identifies(hist[i], hist[j]))
    && (forall i, j | 0 <= i < |hist| && 0 <= j < |hist[i].channels| :: "state" in hist[i].channels[j])
  }

  // ----- the invariant -----

  ghost predicate Agree(d: Device, e: Device) {
    d.settings == e.settings && forall id: string :: ChannelOf(d, id) == ChannelOf(e, id)
  }

  // Every recorded channel version was given to a configuration that the device still reflects.
  ghost predicate Earned(hist: seq<Config>, c: Client, upTo: nat, id: string) {
    id in c.latest ==>
      exists i, j :: 0 <= i <= upTo && i < |hist| && 0 <= j < |hist[i].channels|
        && IdOf(hist[i].channels[j]) == id
        && Get(hist[i].channels[j], "version") == c.latest[id]
        && Reflects(ChannelOf(c.device, id), hist[i].channels[j])
  }

  ghost predicate EarnedDevice(hist: seq<Config>, c: Client, upTo: nat) {
    c.latestDevice != Str("") ==>
      exists i :: 0 <= i <= upTo && i < |hist| && VersionOf(hist[i]) == c.latestDevice
        && (hist[i].settings.Some? ==> HoldsSettings(c.device.settings, hist[i].settings.value))
  }

  ghost predicate Inv(hist: seq<Config>, c: Client, d: Device, upTo: nat) {
    && Agree(c.device, d)
    && (forall id: string :: Earned(hist, c, upTo, id))
    && EarnedDevice(hist, c, upTo)
  }

  // ----- small facts -----

  lemma {:induction false} RecordLooksUp(latest: map<string, Json>, channels: seq<Channel>, id: string)
    requires HostConfig.DistinctIds(channels)
    ensures
      var r := Record(latest, channels);
      && (forall i | 0 <= i < |channels| && IdOf(channels[i]) == id && !Skipped(latest, channels[i]) ::
            id in r && r[id] == Get(channels[i], "version"))
      && ((forall i | 0 <= i < |channels| :: IdOf(channels[i]) == id ==> Skipped(latest, channels[i])) ==>
            (id in r <==> id in latest) && (id in r ==> r[id] == latest[id]))
  {
    hide Skipped;
    if channels == [] {
    } else {
      var n := |channels| - 1;
      RecordLooksUp(latest, channels[..n], id);
      forall i | 0 <= i < n ensures IdOf(channels[i]) != IdOf(channels[n]) && channels[i] == channels[..n][i] {
        assert Get(channels[i], "id") != Get(channels[n], "id");
      }
    }
  }

  // A channel that says no more than one the device reflects is reflected too.
  lemma ReflectsLess(cd: ChannelDevice, a: Channel, b: Channel)
    requires Reflects(cd, a) && HostConfig.Extends(a, b) && "state" in b
    ensures Reflects(cd, b)
  {
    if "channelSettings" in b {
      assert Get(a, "channelSettings") == Get(b, "channelSettings");
    }
    if "protocol" in b {
      assert Get(a, "protocol") == Get(b, "protocol");
    }
  }

  // Skipping one channel: the device already reflects what is skipped.
  lemma SkippedIsReflected(hist: seq<Config>, now: nat, c: Client, upTo: nat, at: nat, n: nat)
    requires Meaningful(hist, now) && upTo <= at < |hist| && n < |hist[at].channels|
    requires Skipped(c.latest, hist[at].channels[n])
    requires Earned(hist, c, upTo, IdOf(hist[at].channels[n]))
    ensures IdOf(hist[at].channels[n]) in c.latest
    ensures Reflects(ChannelOf(c.device, IdOf(hist[at].channels[n])), hist[at].channels[n])
  {
    var ch := hist[at].channels[n];
    assert HostConfig.Stored(hist[at], now);
    assert HostConfig.StampedBelow(Get(ch, "version"), now);
    var id := IdOf(ch);
    var i, j :| 0 <= i <= upTo && i < |hist| && 0 <= j < |hist[i].channels|
      && IdOf(hist[i].channels[j]) == id && Get(hist[i].channels[j], "version") == c.latest[id]
      && Reflects(ChannelOf(c.device, id), hist[i].channels[j]);
    assert HostConfig.Identifies(hist[i], hist[at]) && HostConfig.Stored(hist[i], now);
    ReflectsLess(ChannelOf(c.device, id), hist[i].channels[j], ch);
  }

  // After a poll the record has the version of each of its channels.
  lemma RecordedAfter(latest: map<string, Json>, channels: seq<Channel>, n: nat)
    requires HostConfig.DistinctIds(channels) && n < |channels|
    requires Skipped(latest, channels[n]) ==> IdOf(channels[n]) in latest
    ensures
      var r := Record(latest, channels);
      IdOf(channels[n]) in r && r[IdOf(channels[n])] == Get(channels[n], "version")
  {
    RecordLooksUp(latest, channels, IdOf(channels[n]));
    forall i | 0 <= i < |channels| && i != n ensures IdOf(channels[i]) != IdOf(channels[n]) {
      var first, second := if i < n then i else n, if i < n then n else i;
      assert Get(channels[first], "id") != Get(channels[second], "id");
    }
  }

  lemma EarnedNow(hist: seq<Config>, c: Client, at: nat, n: nat)
    requires at < |hist| && n < |hist[at].channels|
    requires
      var ch := hist[at].channels[n];
      Reflects(ChannelOf(c.device, IdOf(ch)), ch) && (IdOf(ch) in c.latest ==> Get(ch, "version") == c.latest[IdOf(ch)])
    ensures Earned(hist, c, at, IdOf(hist[at].channels[n]))
  {
    hide Reflects;
  }

  // The callbacks the two loops make on the n-th channel of a poll.
  lemma PollCallbacks(hist: seq<Config>, c: Client, d: Device, upTo: nat, e: Event, n: nat)
    requires e.Poll? && Happens(hist, e, c, upTo) && n < |hist[e.at].channels|
    ensures
      var ch := hist[e.at].channels[n];
      var id := IdOf(ch);
      && ChannelOf(Gated(hist, e, c).device, id)
         == DoAll(ChannelOf(c.device, id), if Skipped(c.latest, ch) then [] else Callbacks(ch))
      && ChannelOf(Full(hist, e, d), id) == DoAll(ChannelOf(d, id), if Skipped(map[], ch) then [] else Callbacks(ch))
      && Gated(hist, e, c).latest == Record(c.latest, hist[e.at].channels)
  {
    hide Execute, Project, Record, DoAll, Callbacks, Skipped, Settled, VersionOf;
    var id := IdOf(hist[e.at].channels[n]);
    InterleavingIsPerChannel(c.device, e.gated, id);
    InterleavingIsPerChannel(d, e.full, id);
    SettingsKeepChannels(Execute(c.device, e.gated), Settled(Execute(c.device, e.gated).settings, hist[e.at]), id);
    SettingsKeepChannels(Execute(d, e.full), Settled(Execute(d, e.full).settings, hist[e.at]), id);
  }

  lemma SettingsKeepChannels(d: Device, settings: map<string, string>, id: string)
    ensures ChannelOf(d.(settings := settings), id) == ChannelOf(d, id)
  {
  }

  // What the two loops do to the n-th channel of a poll, and to a channel it does not name.
  lemma PollOneChannel(hist: seq<Config>, now: nat, c: Client, d: Device, upTo: nat, e: Event, n: nat)
    requires Meaningful(hist, now) && Inv(hist, c, d, upTo) && e.Poll? && Happens(hist, e, c, upTo)
    requires n < |hist[e.at].channels|
    ensures
      var id := IdOf(hist[e.at].channels[n]);
      && ChannelOf(Gated(hist, e, c).device, id) == ChannelOf(Full(hist, e, d), id)
      && Earned(hist, Gated(hist, e, c), e.at, id)
  {
    var cfg := hist[e.at];
    var ch := cfg.channels[n];
    var id := IdOf(ch);
    var cd := ChannelOf(c.device, id);
    assert Earned(hist, c, upTo, id) && HostConfig.Stored(cfg, now) && upTo <= e.at;
    PollCallbacks(hist, c, d, upTo, e, n);
    hide Reflects, Record, Earned, EarnedDevice, Meaningful, HostConfig.Stored, DoAll, Callbacks, Gated, Full, Happens;
    ApplyIsIdempotent(cd, ch);
    DoNothing(cd);
    if Skipped(c.latest, ch) {
      SkippedIsReflected(hist, now, c, upTo, e.at, n);
    }
    NothingSkippedAtFirst(hist, now, e.at, n);
    hide Skipped;
    RecordedAfter(c.latest, cfg.channels, n);
    EarnedNow(hist, Gated(hist, e, c), e.at, n);
  }

  lemma NothingSkippedAtFirst(hist: seq<Config>, now: nat, at: nat, n: nat)
    requires at < |hist| && n < |hist[at].channels| && HostConfig.Stored(hist[at], now)
    ensures !Skipped(map[], hist[at].channels[n])
    ensures HostConfig.DistinctIds(hist[at].channels)
  {
    assert HostConfig.StampedBelow(Get(hist[at].channels[n], "version"), now);
  }

  lemma PollOtherChannel(hist: seq<Config>, now: nat, c: Client, d: Device, upTo: nat, e: Event, id: string)
    requires Meaningful(hist, now) && Inv(hist, c, d, upTo) && e.Poll? && Happens(hist, e, c, upTo)
    requires forall n | 0 <= n < |hist[e.at].channels| :: IdOf(hist[e.at].channels[n]) != id
    ensures ChannelOf(Gated(hist, e, c).device, id) == ChannelOf(Full(hist, e, d), id)
    ensures Earned(hist, Gated(hist, e, c), e.at, id)
  {
    hide Execute, Reflects, Project, Record, HostConfig.Identifies, DoAll;
    var cfg := hist[e.at];
    assert Earned(hist, c, upTo, id) && HostConfig.Stored(cfg, now);
    InterleavingIsPerChannel(c.device, e.gated, id);
    InterleavingIsPerChannel(d, e.full, id);
    RecordLooksUp(c.latest, cfg.channels, id);
    DoNothing(ChannelOf(c.device, id));
  }

  lemma DoNothing(cd: ChannelDevice)
    ensures DoAll(cd, []) == cd
  {
  }

  lemma PollDevice(hist: seq<Config>, now: nat, c: Client, d: Device, upTo: nat, e: Event)
    requires Meaningful(hist, now) && Inv(hist, c, d, upTo) && e.Poll? && Happens(hist, e, c, upTo)
    ensures Gated(hist, e, c).device.settings == Full(hist, e, d).settings
    ensures EarnedDevice(hist, Gated(hist, e, c), e.at)
  {
    var cfg := hist[e.at];
    InterleavingIsPerChannel(c.device, e.gated, "");
    InterleavingIsPerChannel(d, e.full, "");
    assert HostConfig.Stored(cfg, now);
    if cfg.settings.Some? {
      OverlaidHolds(d.settings, cfg.settings.value);
    }
    if VersionOf(cfg) == c.latestDevice {
      var i :| 0 <= i <= upTo && i < |hist| && VersionOf(hist[i]) == c.latestDevice
        && (hist[i].settings.Some? ==> HoldsSettings(c.device.settings, hist[i].settings.value));
      assert HostConfig.Identifies(hist[i], cfg) && HostConfig.Stored(hist[i], now);
    }
    assert VersionOf(hist[e.at]) == VersionOf(cfg);
  }

  lemma {:induction false} RunKeepsInv(hist: seq<Config>, now: nat, es: seq<Event>, d: Device)
    requires Meaningful(hist, now) && InOrder(hist, es, d)
    ensures Inv(hist, GatedRun(hist, es, d), FullRun(hist, es, d), Position(es))
  {
    if es != [] {
      var n := |es| - 1;
      var c, f := GatedRun(hist, es[..n], d), FullRun(hist, es[..n], d);
      RunKeepsInv(hist, now, es[..n], d);
      if es[n].Poll? {
        forall id: string
          ensures ChannelOf(Gated(hist, es[n], c).device, id) == ChannelOf(Full(hist, es[n], f), id)
          ensures Earned(hist, Gated(hist, es[n], c), es[n].at, id)
        {
          if k: nat :| k < |hist[es[n].at].channels| && IdOf(hist[es[n].at].channels[k]) == id {
            PollOneChannel(hist, now, c, f, Position(es[..n]), es[n], k);
          } else {
            PollOtherChannel(hist, now, c, f, Position(es[..n]), es[n], id);
          }
        }
        PollDevice(hist, now, c, f, Position(es[..n]), es[n]);
      }
    }
  }

  /** Gating refines re-applying. Take any run of host updates, any polls of the stored
      configurations in order, any interleaving of the workers inside a poll, and any
      resets in between: the loop that skips recorded versions leaves the device as the
      loop that applies the whole configuration at every poll. */
  lemma GatingRefinesReapplying(updates: seq<HostConfig.Update>, now: nat, es: seq<Event>, d: Device)
    requires HostConfig.AllAdmissible(updates, now)
    requires
      var (hist, _) := HostConfig.Run(updates, now);
      && (forall i, j | 0 <= i < |hist| && 0 <= j < |hist[i].channels| :: "state" in hist[i].channels[j])
      && InOrder(hist, es, d)
    ensures
      var (hist, _) := HostConfig.Run(updates, now);
      Agree(GatedRun(hist, es, d).device, FullRun(hist, es, d))
  {
    var (hist, clock) := HostConfig.Run(updates, now);
    HostConfig.VersionsIdentifyContent(updates, now);
    RunKeepsInv(hist, clock, es, d);
  }
}
