/** The client's application loop as an object; each method is a run of the steps in Workers. */
module ApplicationLoop {
  import opened Option
  import opened Wire
  import opened Device
  import opened Workers
  import Gating

  // The channels a poll starts work for.
  function Due(latest: map<string, Json>, channels: seq<Channel>): seq<Channel> {
    if channels == [] then []
    else
      Due(latest, channels[..|channels| - 1])
      + if Gating.Skipped(latest, channels[|channels| - 1]) then [] else [channels[|channels| - 1]]
  }

  function Starts(channels: seq<Channel>): seq<Step> {
    seq(|channels|, i requires 0 <= i < |channels| => StartWork(channels[i]))
  }

  // The steps of one poll: only channels with an unrecorded version are started, and the
  // periodic report is sent only when none was.
  function PollSteps(latest: map<string, Json>, cfg: Config, reportDue: bool): seq<Step> {
    var due := Due(latest, cfg.channels);
    [SeeConfig(cfg)] + Starts(due) + [ApplySettings(cfg)] + if reportDue && due == [] then [Beat] else []
  }

  // A poll is its steps one group after the other.
  lemma PollIsARun(l: Loop, latest: map<string, Json>, cfg: Config, reportDue: bool)
    ensures
      var due := Due(latest, cfg.channels);
      var m := Take(Run(Take(l, SeeConfig(cfg)), Starts(due)), ApplySettings(cfg));
      Run(l, PollSteps(latest, cfg, reportDue)) == if reportDue && due == [] then Take(m, Beat) else m
  {
    hide Take, Due, Starts;
    var due := Due(latest, cfg.channels);
    var a, b := [SeeConfig(cfg)], Starts(due);
    RunOne(l, SeeConfig(cfg));
    RunConcat(l, a, b);
    RunAppend(l, a + b, ApplySettings(cfg));
    RunAppend(l, a + b + [ApplySettings(cfg)], Beat);
    assert a + b + [ApplySettings(cfg)] + [] == a + b + [ApplySettings(cfg)];
  }

  lemma DueNext(latest: map<string, Json>, channels: seq<Channel>, i: nat)
    requires i < |channels|
    ensures
      var due := Due(latest, channels[..i]);
      if Gating.Skipped(latest, channels[i]) then Due(latest, channels[..i + 1]) == due
      else Due(latest, channels[..i + 1]) == due + [channels[i]]
           && Starts(due + [channels[i]]) == Starts(due) + [StartWork(channels[i])]
  {
    assert channels[..i + 1][..i] == channels[..i];
  }

  lemma InLonger(channels: seq<Channel>, last: Channel, ch: Channel)
    ensures ch in channels + [last] <==> ch in channels || ch == last
  {
  }

  lemma {:induction false} DueMembers(latest: map<string, Json>, channels: seq<Channel>, ch: Channel)
    ensures ch in Due(latest, channels) <==> ch in channels && !Gating.Skipped(latest, ch)
  {
    hide Gating.Skipped;
    if channels == [] {
    } else {
      var n := |channels| - 1;
      DueMembers(latest, channels[..n], ch);
      assert channels == channels[..n] + [channels[n]];
      InLonger(channels[..n], channels[n], ch);
      InLonger(Due(latest, channels[..n]), channels[n], ch);
    }
  }

  // The channel's version is the one recorded for it; without a record that is the empty version.
  predicate VersionRecorded(latest: map<string, Json>, ch: Channel) {
    if IdOf(ch) in latest then latest[IdOf(ch)] == Get(ch, "version") else Get(ch, "version") == Str("")
  }

  // Started work: one new worker after the other, one at least for exactly the channels that are due.
  ghost predicate Started(before: seq<Worker>, after: seq<Worker>, latest: map<string, Json>, channels: seq<Channel>) {
    && |before| <= |after|
    && (forall i | |before| <= i < |after| :: after[i].stage == Applying && after[i].ran == [])
    && forall ch :: (exists i :: |before| <= i < |after| && after[i].ch == ch) <==>
        ch in channels && !VersionRecorded(latest, ch)
  }

  // A new worker of a channel, cancelled or not.
  predicate NewFor(w: Worker, ch: Channel) {
    w.ch == ch && w.stage == Applying && w.ran == []
  }

  lemma DispatchAppends(l: Loop, ch: Channel, n: nat)
    ensures
      var m := Take(l, StartWork(ch));
      && |m.workers| == |l.workers| + 1 && NewFor(m.workers[|l.workers|], ch)
      && forall i, c | n <= i < |l.workers| && NewFor(l.workers[i], c) :: NewFor(m.workers[i], c)
  {
  }

  lemma {:induction false} StartsAppend(l: Loop, due: seq<Channel>)
    ensures
      var m := Run(l, Starts(due));
      var n := |l.workers|;
      |m.workers| == n + |due| && forall i | n <= i < n + |due| :: NewFor(m.workers[i], due[i - n])
  {
    if due == [] {
    } else {
      var n := |due| - 1;
      var k := Run(l, Starts(due[..n]));
      StartsAppend(l, due[..n]);
      assert Starts(due) == Starts(due[..n]) + [StartWork(due[n])];
      RunAppend(l, Starts(due[..n]), StartWork(due[n]));
      hide Run, Take, Starts, NewFor;
      DispatchAppends(k, due[n], |l.workers|);
      forall i | |l.workers| <= i < |k.workers|
        ensures NewFor(Take(k, StartWork(due[n])).workers[i], due[i - |l.workers|])
      {
        assert due[..n][i - |l.workers|] == due[i - |l.workers|];
      }
    }
  }

  lemma DueStarts(l: Loop, latest: map<string, Json>, channels: seq<Channel>)
    ensures Started(l.workers, Run(l, Starts(Due(latest, channels))).workers, latest, channels)
    ensures Due(latest, channels) == [] <==> forall ch | ch in channels :: VersionRecorded(latest, ch)
  {
    var due := Due(latest, channels);
    var after := Run(l, Starts(due)).workers;
    var n := |l.workers|;
    StartsAppend(l, due);
    hide Run, Starts;
    forall ch ensures ch in due <==> ch in channels && !VersionRecorded(latest, ch) {
      DueMembers(latest, channels, ch);
    }
    hide Due, VersionRecorded;
    forall ch ensures (exists i :: n <= i < |after| && after[i].ch == ch) <==> ch in due {
      if ch in due {
        var k :| 0 <= k < |due| && due[k] == ch;
        assert NewFor(after[n + k], due[k]);
      }
    }
    assert forall i | n <= i < |after| :: NewFor(after[i], due[i - n]);
    if due == [] {
      forall ch | ch in channels ensures VersionRecorded(latest, ch) {
        assert ch !in due;
      }
    } else {
      assert due[0] in due;
    }
  }

  // Every registered worker is cancelled, and no other.
  ghost predicate AllCancelled(before: seq<Worker>, registered: map<string, nat>, after: seq<Worker>) {
    |after| == |before| && forall i | 0 <= i < |before| ::
      after[i] == if i in registered.Values then before[i].(cancelled := true) else before[i]
  }

  // The device settings of a configuration are applied: the last value of every key, and no other key.
  ghost predicate SettingsApplied(was: map<string, string>, now: map<string, string>, cfg: Config) {
    && (cfg.settings.Some? ==> HoldsSettings(now, cfg.settings.value))
    && forall k: string | cfg.settings == None || LastValue(cfg.settings.value, k) == None ::
      (k in now <==> k in was) && (k in now ==> now[k] == was[k])
  }

  lemma OverlaidIsApplied(was: map<string, string>, cfg: Config)
    ensures SettingsApplied(was, if cfg.settings.Some? then Overlaid(was, cfg.settings.value) else was, cfg)
  {
    if cfg.settings.Some? {
      OverlaidHolds(was, cfg.settings.value);
      forall k: string | LastValue(cfg.settings.value, k) == None
        ensures
          var now := Overlaid(was, cfg.settings.value);
          (k in now <==> k in was) && (k in now ==> now[k] == was[k])
      {
        OverlaidLooksUp(was, cfg.settings.value, k);
      }
    }
  }

  /** What one poll does: it starts work for exactly the channels whose version is not recorded, applies the device
      settings if their version is not, and reports what is recorded if that is due and nothing was started. */
  ghost predicate Polled(l: Loop, m: Loop, cfg: Config, reportDue: bool) {
    var version := if cfg.version.Some? then cfg.version.value else Str("");
    && m.lastSeen == Some(cfg) && m.latestDevice == version && m.latest == l.latest
    && Started(l.workers, m.workers, l.latest, cfg.channels) && m.device.channels == l.device.channels
    && (if version == l.latestDevice then m.device == l.device
        else SettingsApplied(l.device.settings, m.device.settings, cfg))
    && m.reports == l.reports
       + if reportDue && (forall ch | ch in cfg.channels :: VersionRecorded(l.latest, ch)) then [l.latest] else []
  }

  lemma {:induction false} StartsKeepTheRest(l: Loop, due: seq<Channel>)
    ensures
      var m := Run(l, Starts(due));
      m == l.(workers := m.workers, registered := m.registered)
  {
    if due == [] {
    } else {
      var n := |due| - 1;
      StartsKeepTheRest(l, due[..n]);
      assert Starts(due) == Starts(due[..n]) + [StartWork(due[n])];
      RunAppend(l, Starts(due[..n]), StartWork(due[n]));
    }
  }

  lemma PollMeans(l: Loop, cfg: Config, reportDue: bool)
    ensures Polled(l, Run(l, PollSteps(l.latest, cfg, reportDue)), cfg, reportDue)
  {
    var due := Due(l.latest, cfg.channels);
    var seen := Take(l, SeeConfig(cfg));
    var started := Run(seen, Starts(due));
    PollIsARun(l, l.latest, cfg, reportDue);
    DueStarts(seen, l.latest, cfg.channels);
    StartsKeepTheRest(seen, due);
    OverlaidIsApplied(l.device.settings, cfg);
    hide Started, SettingsApplied, Due, Starts, Run, PollSteps, VersionRecorded, Overlaid, Dispatch;
    assert Take(started, ApplySettings(cfg)).workers == started.workers;
  }

  // ----- a worker among the others -----

  // The steps that are not those of worker i.
  function Without(steps: seq<Step>, i: nat): seq<Step> {
    if steps == [] then []
    else
      var last := steps[|steps| - 1];
      Without(steps[..|steps| - 1], i) + if last == Work(i) then [] else [last]
  }

  function Batches(others: seq<seq<Step>>): seq<Step> {
    if others == [] then [] else Batches(others[..|others| - 1]) + others[|others| - 1]
  }

  lemma BatchesNext(others: seq<seq<Step>>, k: nat)
    requires k < |others|
    ensures Batches(others[..k + 1]) == Batches(others[..k]) + others[k]
  {
    assert others[..k + 1][..k] == others[..k];
  }

  lemma {:induction false} WithoutConcat(a: seq<Step>, b: seq<Step>, i: nat)
    ensures Without(a + b, i) == Without(a, i) + Without(b, i)
  {
    if b == [] {
      assert a + b == a;
    } else {
      var n := |b| - 1;
      assert (a + b)[..|a + b| - 1] == a + b[..n];
      WithoutConcat(a, b[..n], i);
    }
  }

  lemma {:induction false} WithoutNothing(steps: seq<Step>, i: nat)
    requires Work(i) !in steps
    ensures Without(steps, i) == steps
  {
    if steps == [] {
    } else {
      WithoutNothing(steps[..|steps| - 1], i);
      assert steps[|steps| - 1] in steps;
    }
  }

  // A step of the worker extends the run.
  lemma OwnStep(l: Loop, steps: seq<Step>, i: nat)
    ensures Run(l, steps + [Work(i)]) == Take(Run(l, steps), Work(i))
    ensures Without(steps + [Work(i)], i) == Without(steps, i)
  {
    RunAppend(l, steps, Work(i));
    assert (steps + [Work(i)])[..|steps|] == steps;
    assert Without(steps, i) + [] == Without(steps, i);
  }

  lemma TakenNothing(l: Loop, i: nat, others: seq<seq<Step>>)
    ensures Run(l, []) == l && Without([], i) == Batches(others[..0])
  {
  }

  // Where the others leave a worker: at most cancelled.
  lemma {:induction false} OthersKeepWorker(l: Loop, steps: seq<Step>, i: nat)
    requires i < |l.workers| && Work(i) !in steps
    ensures
      var m := Run(l, steps);
      i < |m.workers| && m.workers[i].(cancelled := false) == l.workers[i].(cancelled := false)
  {
    hide Take;
    if steps == [] {
    } else {
      var n := |steps| - 1;
      OthersKeepWorker(l, steps[..n], i);
      assert steps[n] in steps;
      OtherKeepsWorker(Run(l, steps[..n]), steps[n], i);
    }
  }

  lemma OtherKeepsWorker(l: Loop, s: Step, i: nat)
    requires i < |l.workers| && s != Work(i)
    ensures i < |Take(l, s).workers| && Take(l, s).workers[i].(cancelled := false) == l.workers[i].(cancelled := false)
  {
    hide Advance;
  }

  // The configuration callbacks of a channel, in order.
  lemma ConfigAt(ch: Channel)
    ensures
      var (s, cs) := (SettingsOf(ch), ConfigCallbacks(ch));
      var first := if s.Standard? then |s.kvs| else if s.ByProfile? then 1 else 0;
      && |cs| == first + (if Get(ch, "protocol").Protocol? then 1 else 0)
      && (Get(ch, "protocol").Protocol? ==> cs[first] == SetConnection(ch["protocol"]))
      && (s.ByProfile? ==> cs[0] == SetProfile(s.profile))
      && (s.Standard? ==> forall n | 0 <= n < |s.kvs| :: cs[n] == SetSetting(s.kvs[n].id, s.kvs[n].value))
  {
  }

  class ApplicationLoop {
    var latestDeviceConfigId: Json
    var latestChannelConfigIds: map<string, Json>
    var channelWorkers: map<string, nat>
    var workers: seq<Worker>
    var lastSeenConfig: Option<Config>
    var device: Device
    var reports: seq<map<string, Json>>

    ghost function View(): Loop
      reads this
    {
      Loop(latestChannelConfigIds, latestDeviceConfigId, channelWorkers, workers, lastSeenConfig, device, reports)
    }

    constructor (d: Device)
      ensures View() == Initial(d)
    {
      latestDeviceConfigId, latestChannelConfigIds, channelWorkers, workers := Str(""), map[], map[], [];
      lastSeenConfig, device, reports := None, d, [];
    }

    // Fetches the desired configuration and starts work for what has changed.
    method ProcessConfiguration(payload: Option<Config>, reportDue: bool)
      modifies this
      ensures payload == None ==> View() == old(View())
      ensures payload.Some? ==> View() == Run(old(View()),
          PollSteps(old(latestChannelConfigIds), payload.value, reportDue))
      ensures payload.Some? ==> Polled(old(View()), View(), payload.value, reportDue)
    {
      if payload == None {
        return;
      }
      var cfg := payload.value;
      hide Dispatch, ApplyDeviceSettings, Due, Starts, Run, PollSteps, Started, Polled, SettingsApplied,
        VersionRecorded;
      PollMeans(View(), cfg, reportDue);
      PollIsARun(View(), latestChannelConfigIds, cfg, reportDue);
      lastSeenConfig := Some(cfg);
      var latest := latestChannelConfigIds;
      var channelDispatched := DispatchDue(cfg.channels, latest);
      ApplyDeviceConfiguration(cfg);
      if !channelDispatched && reportDue {
        reports := reports + [latestChannelConfigIds];
      }
    }

    method DispatchDue(channels: seq<Channel>, latest: map<string, Json>) returns (channelDispatched: bool)
      modifies this`channelWorkers, this`workers
      ensures View() == Run(old(View()), Starts(Due(latest, channels)))
      ensures channelDispatched <==> Due(latest, channels) != []
      ensures Started(old(workers), workers, latest, channels)
      ensures channelDispatched <==> exists ch :: ch in channels && !VersionRecorded(latest, ch)
    {
      hide Dispatch, Gating.Skipped, Started, VersionRecorded;
      ghost var l := View();
      DueStarts(l, latest, channels);
      channelDispatched := false;
      var i := 0;
      while i < |channels|
        invariant i <= |channels|
        invariant View() == Run(l, Starts(Due(latest, channels[..i])))
        invariant channelDispatched <==> Due(latest, channels[..i]) != []
      {
        var ch := channels[i];
        DueNext(latest, channels, i);
        if !Gating.Skipped(latest, ch) {
          RunAppend(l, Starts(Due(latest, channels[..i])), StartWork(ch));
          DispatchChannelWork(ch);
          channelDispatched := true;
        }
        i := i + 1;
      }
      assert channels[..i] == channels;
    }

    // Cancels any in-flight worker of the channel and starts a fresh one.
    method DispatchChannelWork(ch: Channel)
      modifies this`channelWorkers, this`workers
      ensures View() == Take(old(View()), StartWork(ch))
      ensures channelWorkers == old(channelWorkers)[IdOf(ch) := |old(workers)|]
      ensures |workers| == |old(workers)| + 1 && workers[|old(workers)|] == Worker(ch, Applying, false, [])
      ensures forall i | 0 <= i < |old(workers)| ::
        var registered := IdOf(ch) in old(channelWorkers) && old(channelWorkers)[IdOf(ch)] == i;
        workers[i] == if registered then old(workers)[i].(cancelled := true) else old(workers)[i]
    {
      var id := IdOf(ch);
      if id in channelWorkers {
        var i := channelWorkers[id];
        if i < |workers| {
          workers := workers[i := workers[i].(cancelled := true)];
        }
      }
      channelWorkers := channelWorkers[id := |workers|];
      workers := workers + [Worker(ch, Applying, false, [])];
    }

    method ApplyDeviceConfiguration(cfg: Config)
      modifies this`device, this`latestDeviceConfigId
      ensures View() == Take(old(View()), ApplySettings(cfg))
      ensures latestDeviceConfigId == (if cfg.version.Some? then cfg.version.value else Str(""))
      ensures device.channels == old(device).channels
      ensures
        if latestDeviceConfigId == old(latestDeviceConfigId) then device == old(device)
        else SettingsApplied(old(device).settings, device.settings, cfg)
    {
      hide SettingsApplied;
      OverlaidIsApplied(device.settings, cfg);
      if Gating.VersionOf(cfg) != latestDeviceConfigId {
        if cfg.settings.Some? {
          var kvs := cfg.settings.value;
          var i := 0;
          while i < |kvs|
            invariant i <= |kvs|
            invariant latestDeviceConfigId == old(latestDeviceConfigId)
            invariant device == old(device).(settings := Overlaid(old(device).settings, kvs[..i]))
          {
            assert kvs[..i + 1][..i] == kvs[..i];
            device := device.(settings := device.settings[kvs[i].id := kvs[i].value]);
            i := i + 1;
          }
          assert kvs[..i] == kvs;
        }
        latestDeviceConfigId := Gating.VersionOf(cfg);
      }
    }

    // What the main loop and the other workers do in between.
    method Meanwhile(steps: seq<Step>)
      modifies this
      ensures View() == Run(old(View()), steps)
    {
      var l := Loop(
        latestChannelConfigIds, latestDeviceConfigId, channelWorkers, workers, lastSeenConfig, device, reports);
      var m := Run(l, steps);
      latestChannelConfigIds, latestDeviceConfigId := m.latest, m.latestDevice;
      channelWorkers, workers := m.registered, m.workers;
      lastSeenConfig, device, reports := m.lastSeen, m.device, m.reports;
    }

    // ----- one worker; `ran` and `stage` say where it is -----

    method Call(i: nat, c: Callback)
      requires i < |workers|
      modifies this`device
      ensures
        var id := IdOf(workers[i].ch);
        device == old(device).(channels := old(device).channels[id := Do(ChannelOf(old(device), id), c)])
    {
      var id := IdOf(workers[i].ch);
      device := device.(channels := device.channels[id := Do(ChannelOf(device, id), c)]);
    }

    // One setting, profile or connection callback.
    method ApplyOne(i: nat, c: Callback)
      requires i < |workers| && workers[i].stage.Applying?
      requires |workers[i].ran| < |ConfigCallbacks(workers[i].ch)|
          && c == ConfigCallbacks(workers[i].ch)[|workers[i].ran|]
      modifies this`device, this`workers
      ensures |workers| == old(|workers|) && View() == Take(old(View()), Work(i))
      ensures workers[i] == old(workers[i]).(ran := old(workers[i].ran) + [c])
    {
      Call(i, c);
      workers := workers[i := workers[i].(ran := workers[i].ran + [c])];
    }

    // Drives the channel to its desired state.
    method IssueChannelState(i: nat)
      requires i < |workers| && workers[i].stage.Driving?
      modifies this`device, this`workers
      ensures |workers| == old(|workers|) && View() == Take(old(View()), Work(i))
      ensures workers[i].stage.Driven? && workers[i].ch == old(workers[i].ch)
      ensures workers[i].ran == old(workers[i].ran) + [SetState(Get(workers[i].ch, "state"))]
      ensures ChannelOf(device, IdOf(workers[i].ch)).state == Get(workers[i].ch, "state")
    {
      var c := SetState(Get(workers[i].ch, "state"));
      Call(i, c);
      workers := workers[i := workers[i].(stage := Driven, ran := workers[i].ran + [c])];
    }

    // A cancelled worker returns here, after its configuration or after its state.
    method CheckCancelled(i: nat) returns (cancelled: bool)
      requires i < |workers| && (workers[i].stage.Driven?
        || (workers[i].stage.Applying? && |workers[i].ran| >= |ConfigCallbacks(workers[i].ch)|))
      modifies this`workers
      ensures |workers| == old(|workers|) && View() == Take(old(View()), Work(i)) && workers[i].ch == old(workers[i].ch)
      ensures cancelled == workers[i].stage.Abandoned? == old(workers[i].cancelled) == workers[i].cancelled
      ensures !cancelled ==> workers[i].stage == if old(workers[i].stage).Applying? then Driving else Evaluated
    {
      var w := workers[i];
      cancelled := w.cancelled;
      var next := if cancelled then Abandoned else if w.stage.Applying? then Driving else Evaluated;
      workers := workers[i := w.(stage := next)];
    }

    // Marks the version applied and copies what has been applied so far, under the lock.
    method Record(i: nat) returns (appliedVersions: map<string, Json>)
      requires i < |workers| && workers[i].stage.Evaluated?
      modifies this`latestChannelConfigIds, this`workers
      ensures |workers| == old(|workers|) && View() == Take(old(View()), Work(i))
      ensures workers[i].stage == Reporting(appliedVersions) && workers[i].ch == old(workers[i].ch)
      ensures appliedVersions == latestChannelConfigIds
          == old(latestChannelConfigIds)[IdOf(workers[i].ch) := Get(workers[i].ch, "version")]
    {
      var ch := workers[i].ch;
      latestChannelConfigIds := latestChannelConfigIds[IdOf(ch) := Get(ch, "version")];
      appliedVersions := latestChannelConfigIds;
      workers := workers[i := workers[i].(stage := Reporting(appliedVersions))];
    }

    method ReportActual(i: nat, appliedVersions: map<string, Json>)
      requires i < |workers| && workers[i].stage == Reporting(appliedVersions)
      modifies this`reports, this`workers
      ensures |workers| == old(|workers|) && View() == Take(old(View()), Work(i)) && workers[i].stage.Done?
      ensures reports == old(reports) + [appliedVersions] && workers[i].ch == old(workers[i].ch)
    {
      reports := reports + [appliedVersions];
      workers := workers[i := workers[i].(stage := Done)];
    }

    // The loop has taken the given steps: those of worker i and the first k batches of the others.
    ghost predicate Taken(l: Loop, i: nat, others: seq<seq<Step>>, k: nat, steps: seq<Step>)
      reads this
    {
      && View() == Run(l, steps) && i < |workers|
      && k <= |others| && Without(steps, i) == Batches(others[..k])
    }

    method Yield(i: nat, others: seq<seq<Step>>, k: nat, ghost l: Loop, ghost before: seq<Step>)
      returns (next: nat, ghost steps: seq<Step>)
      requires Taken(l, i, others, k, before) && forall b | b in others :: Work(i) !in b
      modifies this
      ensures Taken(l, i, others, next, steps)
      ensures workers[i].(cancelled := false) == old(workers[i]).(cancelled := false)
    {
      hide Run, Take, Without, Batches;
      next, steps := k, before;
      if k < |others| {
        OthersKeepWorker(View(), others[k], i);
        RunConcat(l, before, others[k]);
        WithoutConcat(before, others[k], i);
        WithoutNothing(others[k], i);
        BatchesNext(others, k);
        Meanwhile(others[k]);
        next, steps := k + 1, before + others[k];
      }
    }

    method TakeTurn(i: nat, c: Callback, others: seq<seq<Step>>, k: nat, ghost l: Loop, ghost before: seq<Step>)
      returns (next: nat, ghost steps: seq<Step>)
      requires Taken(l, i, others, k, before) && forall b | b in others :: Work(i) !in b
      requires workers[i].stage.Applying? && |workers[i].ran| < |ConfigCallbacks(workers[i].ch)|
      requires c == ConfigCallbacks(workers[i].ch)[|workers[i].ran|]
      modifies this
      ensures Taken(l, i, others, next, steps)
      ensures workers[i].stage.Applying? && workers[i].ch == old(workers[i].ch)
          && workers[i].ran == old(workers[i].ran) + [c]
    {
      hide Run, Take, Without, Batches, ConfigCallbacks;
      next, steps := Yield(i, others, k, l, before);
      OwnStep(l, steps, i);
      ApplyOne(i, c);
      steps := steps + [Work(i)];
    }

    // Settings one by one, or the profile; then the connection.
    method ApplyChannelConfigSync(i: nat, others: seq<seq<Step>>, ghost l: Loop, ghost before: seq<Step>)
      returns (k: nat, ghost steps: seq<Step>)
      requires Taken(l, i, others, 0, before) && forall b | b in others :: Work(i) !in b
      requires workers[i].stage.Applying? && workers[i].ran == []
      modifies this
      ensures Taken(l, i, others, k, steps)
      ensures workers[i].stage.Applying? && workers[i].ch == old(workers[i].ch)
      ensures workers[i].ran == ConfigCallbacks(workers[i].ch) && AsAsked(workers[i].ran, workers[i].ch)
    {
      hide Run, Take, Without, Batches, AsAsked;
      var ch := workers[i].ch;
      ConfigAt(ch);
      ConfigIsAsAsked(ch);
      hide ConfigCallbacks;
      k, steps := 0, before;
      ghost var config := ConfigCallbacks(ch);
      match SettingsOf(ch) {
        case Standard(kvs) =>
          var n := 0;
          while n < |kvs|
            invariant n <= |kvs| && Taken(l, i, others, k, steps)
            invariant workers[i].stage.Applying? && workers[i].ch == ch && workers[i].ran == config[..n]
          {
            k, steps := TakeTurn(i, SetSetting(kvs[n].id, kvs[n].value), others, k, l, steps);
            n := n + 1;
          }
        case ByProfile(p) =>
          k, steps := TakeTurn(i, SetProfile(p), others, k, l, steps);
        case NoSettings =>
      }
      if Get(ch, "protocol").Protocol? {
        k, steps := TakeTurn(i, SetConnection(ch["protocol"]), others, k, l, steps);
      }
      assert workers[i].ran == config;
    }

    /** One worker from start to return, with its two looks at the cancellation. Whatever the main loop and the other
        workers do at each point in between, the result is a run of the worker machine: the worker's own steps, and
        the others' in their order. */
    method ChannelWorker(i: nat, others: seq<seq<Step>>) returns (ghost k: nat, ghost steps: seq<Step>)
      requires i < |workers| && workers[i].stage.Applying? && workers[i].ran == []
      requires forall b | b in others :: Work(i) !in b
      modifies this
      ensures Taken(old(View()), i, others, k, steps)
      ensures Returned(workers[i].stage) && workers[i].ch == old(workers[i].ch)
      ensures workers[i].stage.Done? ==>
        && reports != [] && IdOf(workers[i].ch) in reports[|reports| - 1]
        && reports[|reports| - 1][IdOf(workers[i].ch)] == Get(workers[i].ch, "version")
      ensures workers[i].stage.Abandoned? ==> workers[i].cancelled
    {
      hide Run, Take, Without, Batches, ConfigCallbacks;
      ghost var l := View();
      TakenNothing(l, i, others);
      var next;
      next, steps := ApplyChannelConfigSync(i, others, l, []);
      next, steps := Yield(i, others, next, l, steps);
      OwnStep(l, steps, i);
      var cancelled := CheckCancelled(i);
      steps, k := steps + [Work(i)], next;
      if cancelled {
        return;
      }
      next, steps := Yield(i, others, next, l, steps);
      OwnStep(l, steps, i);
      IssueChannelState(i);
      steps := steps + [Work(i)];
      next, steps := Yield(i, others, next, l, steps);
      OwnStep(l, steps, i);
      cancelled := CheckCancelled(i);
      steps, k := steps + [Work(i)], next;
      if cancelled {
        return;
      }
      next, steps := Yield(i, others, next, l, steps);
      OwnStep(l, steps, i);
      var appliedVersions := Record(i);
      steps := steps + [Work(i)];
      next, steps := Yield(i, others, next, l, steps);
      OwnStep(l, steps, i);
      ReportActual(i, appliedVersions);
      steps, k := steps + [Work(i)], next;
    }

    method CancelAllWorkers()
      modifies this`channelWorkers, this`workers
      ensures View() == Take(old(View()), StopAll)
      ensures channelWorkers == map[] && AllCancelled(old(workers), old(channelWorkers), workers)
    {
      var rest := channelWorkers.Values;
      while rest != {}
        invariant rest <= channelWorkers.Values && channelWorkers == old(channelWorkers) && |workers| == |old(workers)|
        invariant forall i | 0 <= i < |workers| ::
          workers[i] ==
            if i in channelWorkers.Values && i !in rest then old(workers)[i].(cancelled := true) else old(workers)[i]
      {
        var i :| i in rest;
        if i < |workers| {
          workers := workers[i := workers[i].(cancelled := true)];
        }
        rest := rest - {i};
      }
      channelWorkers := map[];
    }

    method ResetState()
      modifies this
      ensures View() == Take(old(View()), ForgetAll)
      ensures latestDeviceConfigId == Str("") && latestChannelConfigIds == map[] && lastSeenConfig == None
      ensures channelWorkers == map[] && device == old(device) && reports == old(reports)
      ensures AllCancelled(old(workers), old(channelWorkers), workers)
    {
      CancelAllWorkers();
      latestDeviceConfigId := Str("");
      latestChannelConfigIds := map[];
      lastSeenConfig := None;
    }
  }
}
