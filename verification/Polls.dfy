/** A poll of the worker machine is a gated poll.

  The main loop's steps of one poll and the steps of its workers are interleaved
  in any way; when the workers have returned, the loop has recorded and the device
  shows what Gating says of a poll, for some schedule of the workers' callbacks.
*/
module Polls {
  import opened Option
  import opened Wire
  import opened Device
  import opened Workers
  import opened ApplicationLoop
  import Gating
  import HostConfig

  // What of the worker machine counts for gating.
  function ClientOf(l: Loop): Gating.Client {
    Gating.Client(l.device, l.latest, l.latestDevice)
  }

  // The steps that are not a worker's.
  function Main(steps: seq<Step>): seq<Step> {
    if steps == [] then []
    else Main(steps[..|steps| - 1]) + if steps[|steps| - 1].Work? then [] else [steps[|steps| - 1]]
  }

  // The callback that a step makes, with its channel.
  function MadeBy(k: Loop, s: Step): Schedule {
    if s.Work? && s.worker < |k.workers| then
      var w, v := k.workers[s.worker], Advance(k.workers[s.worker], k.latest);
      if |w.ran| < |v.ran| then [(IdOf(w.ch), v.ran[|v.ran| - 1])] else []
    else []
  }

  function Made(l: Loop, steps: seq<Step>): Schedule {
    if steps == [] then []
    else Made(l, steps[..|steps| - 1]) + MadeBy(Run(l, steps[..|steps| - 1]), steps[|steps| - 1])
  }

  lemma ProjectAppend(s: Schedule, id: string, c: Callback, other: string)
    ensures Project(s + [(id, c)], other) == if id == other then Project(s, other) + [c] else Project(s, other)
  {
    assert (s + [(id, c)])[..|s|] == s;
  }

  // The channels of the device are those that the schedule of callbacks leaves.
  lemma {:induction false} MadeIsExecuted(l: Loop, steps: seq<Step>)
    ensures Execute(l.device, Made(l, steps)).channels == Run(l, steps).device.channels
    ensures Execute(l.device, Made(l, steps)).settings == l.device.settings
  {
    hide Advance;
    if steps == [] {
    } else {
      var n := |steps| - 1;
      var k, s := Run(l, steps[..n]), Made(l, steps[..n]);
      MadeIsExecuted(l, steps[..n]);
      hide Made, Run;
      if MadeBy(k, steps[n]) == [] {
        assert s + [] == s;
        NothingMade(k, steps[n]);
      } else {
        var e := MadeBy(k, steps[n])[0];
        SomethingMade(k, steps[n]);
        assert (s + [e])[..|s|] == s;
      }
      RunAndMade(l, steps);
    }
  }

  lemma RunAndMade(l: Loop, steps: seq<Step>)
    requires steps != []
    ensures
      var n := |steps| - 1;
      var k := Run(l, steps[..n]);
      Run(l, steps) == Take(k, steps[n]) && Made(l, steps) == Made(l, steps[..n]) + MadeBy(k, steps[n])
  {
  }

  lemma NothingMade(k: Loop, s: Step)
    requires MadeBy(k, s) == []
    ensures Take(k, s).device.channels == k.device.channels
  {
    hide Advance;
  }

  lemma SomethingMade(k: Loop, s: Step)
    requires MadeBy(k, s) != []
    ensures
      var (id, c) := MadeBy(k, s)[0];
      && MadeBy(k, s) == [(id, c)]
      && Take(k, s).device.channels == k.device.channels[id := Do(ChannelOf(k.device, id), c)]
  {
    hide Advance;
  }

  // ----- the loop between polls -----

  ghost predicate AllReturned(l: Loop) {
    forall i | 0 <= i < |l.workers| :: Returned(l.workers[i].stage)
  }

  ghost predicate WellRegistered(l: Loop) {
    forall id | id in l.registered ::
      l.registered[id] < |l.workers| && IdOf(l.workers[l.registered[id]].ch) == id
  }

  lemma StepKeepsRegistered(l: Loop, s: Step)
    requires WellRegistered(l)
    ensures WellRegistered(Take(l, s))
  {
    hide Advance;
    if s.Work? && s.worker < |l.workers| {
      AdvanceKeeps(l.workers[s.worker], l.latest);
    }
  }

  // ----- one poll -----

  lemma {:induction false} DueDistinct(latest: map<string, Json>, channels: seq<Channel>)
    requires HostConfig.DistinctIds(channels)
    ensures DistinctDue(Due(latest, channels))
  {
    hide Gating.Skipped;
    if channels == [] {
    } else {
      var n := |channels| - 1;
      DueDistinct(latest, channels[..n]);
      var before := Due(latest, channels[..n]);
      forall i | 0 <= i < |before| ensures IdOf(before[i]) != IdOf(channels[n]) {
        DueMembers(latest, channels[..n], before[i]);
        var j :| 0 <= j < n && channels[..n][j] == before[i];
        assert Get(channels[j], "id") != Get(channels[n], "id");
      }
    }
  }

  lemma DueMeans(latest: map<string, Json>, channels: seq<Channel>)
    requires HostConfig.DistinctIds(channels)
    ensures
      var due := Due(latest, channels);
      DistinctDue(due) && forall ch :: ch in due <==> ch in channels && !Gating.Skipped(latest, ch)
  {
    DueDistinct(latest, channels);
    forall ch ensures ch in Due(latest, channels) <==> ch in channels && !Gating.Skipped(latest, ch) {
      DueMembers(latest, channels, ch);
    }
  }

  ghost predicate SameAt(a: map<string, Json>, b: map<string, Json>, id: string) {
    (id in a <==> id in b) && (id in a ==> a[id] == b[id])
  }

  // A worker of this poll: its callbacks are those of its channel in the schedule, and its version is
  // recorded from the moment it has one to report.
  ghost predicate OnTrack(was: map<string, Json>, latest: map<string, Json>, made: Schedule, w: Worker, ch: Channel) {
    && w.ch == ch && !w.cancelled && !w.stage.Abandoned? && Diligent(w)
    && Project(made, IdOf(ch)) == w.ran
    && if w.stage.Reporting? || w.stage.Done? then IdOf(ch) in latest && latest[IdOf(ch)] == Get(ch, "version")
       else SameAt(was, latest, IdOf(ch))
  }

  // A channel that this poll has not started work for.
  ghost predicate Idle(was: map<string, Json>, latest: map<string, Json>, made: Schedule, id: string) {
    Project(made, id) == [] && SameAt(was, latest, id)
  }

  ghost predicate Names(due: seq<Channel>, started: nat, id: string)
    requires started <= |due|
  {
    exists j :: 0 <= j < started && IdOf(due[j]) == id
  }

  // The j-th worker that this poll started.
  function NewWorker(l: Loop, k: Loop, j: nat): Worker
    requires |l.workers| + j < |k.workers|
  {
    k.workers[|l.workers| + j]
  }

  // The loop k after the poll that began at l has started the first channels due.
  ghost predicate Polling(l: Loop, due: seq<Channel>, k: Loop, made: Schedule, started: nat) {
    && started <= |due| && |k.workers| == |l.workers| + started && WellRegistered(k)
    && (forall i | 0 <= i < |l.workers| :: Returned(k.workers[i].stage))
    && (forall j | 0 <= j < started :: OnTrack(l.latest, k.latest, made, NewWorker(l, k, j), due[j]))
    && (forall id: string | !Names(due, started, id) :: Idle(l.latest, k.latest, made, id))
  }

  ghost predicate DistinctDue(due: seq<Channel>) {
    forall i, j | 0 <= i < j < |due| :: IdOf(due[i]) != IdOf(due[j])
  }

  // One step of a worker of this poll.
  lemma WorkerMoves(was: map<string, Json>, k: Loop, made: Schedule, i: nat, ch: Channel)
    requires i < |k.workers| && OnTrack(was, k.latest, made, k.workers[i], ch)
    ensures
      var m := Take(k, Work(i));
      var after := made + MadeBy(k, Work(i));
      && OnTrack(was, m.latest, after, m.workers[i], ch)
      && (forall id | id != IdOf(ch) :: Project(after, id) == Project(made, id) && SameAt(k.latest, m.latest, id))
  {
    hide ConfigCallbacks, Callbacks, Project;
    var w, v := k.workers[i], Advance(k.workers[i], k.latest);
    AdvanceKeeps(w, k.latest);
    AdvanceStays(w, k.latest);
    hide Advance, Diligent;
    if v.ran != w.ran {
      var c :| v.ran == w.ran + [c];
      assert MadeBy(k, Work(i)) == [(IdOf(ch), c)];
      forall id
        ensures Project(made + [(IdOf(ch), c)], id) ==
          if IdOf(ch) == id then Project(made, id) + [c] else Project(made, id)
      {
        ProjectAppend(made, IdOf(ch), c, id);
      }
    } else {
      assert made + MadeBy(k, Work(i)) == made;
    }
  }

  // A worker that is not cancelled is never given up, and reports after it has evaluated.
  lemma AdvanceStays(w: Worker, latest: map<string, Json>)
    ensures
      var v := Advance(w, latest);
      && (!w.cancelled && !w.stage.Abandoned? ==> !v.stage.Abandoned?)
      && (v.stage.Reporting? || v.stage.Done? <==> w.stage.Evaluated? || w.stage.Reporting? || w.stage.Done?)
  {
  }

  lemma PollingWork(l: Loop, due: seq<Channel>, k: Loop, made: Schedule, started: nat, i: nat)
    requires Polling(l, due, k, made, started) && DistinctDue(due)
    ensures Polling(l, due, Take(k, Work(i)), made + MadeBy(k, Work(i)), started)
  {
    hide OnTrack, Idle, Advance;
    var m := Take(k, Work(i));
    StepKeepsRegistered(k, Work(i));
    if i >= |k.workers| {
      assert made + MadeBy(k, Work(i)) == made;
    } else if i < |l.workers| {
      AdvanceKeeps(k.workers[i], k.latest);
      assert made + MadeBy(k, Work(i)) == made;
    } else {
      var after := made + MadeBy(k, Work(i));
      var n := i - |l.workers|;
      assert NewWorker(l, k, n) == k.workers[i];
      TrackMeans(l.latest, k.latest, made, k.workers[i], due[n]);
      WorkerMoves(l.latest, k, made, i, due[n]);
      forall j | 0 <= j < started ensures OnTrack(l.latest, m.latest, after, NewWorker(l, m, j), due[j]) {
        if j != n {
          assert IdOf(due[j]) != IdOf(due[n]);
          TrackStays(l.latest, k.latest, m.latest, made, after, NewWorker(l, k, j), due[j]);
        }
      }
      forall id: string | !Names(due, started, id) ensures Idle(l.latest, m.latest, after, id) {
        assert IdOf(due[n]) != id;
        IdleStays(l.latest, k.latest, m.latest, made, after, id);
      }
    }
  }

  lemma TrackMeans(was: map<string, Json>, latest: map<string, Json>, made: Schedule, w: Worker, ch: Channel)
    requires OnTrack(was, latest, made, w, ch)
    ensures w.ch == ch
  {
  }

  lemma TrackStays(was: map<string, Json>, latest: map<string, Json>, next: map<string, Json>, made: Schedule,
                   after: Schedule, w: Worker, ch: Channel)
    requires OnTrack(was, latest, made, w, ch)
    requires Project(after, IdOf(ch)) == Project(made, IdOf(ch)) && SameAt(latest, next, IdOf(ch))
    ensures OnTrack(was, next, after, w, ch)
  {
  }

  lemma IdleStays(was: map<string, Json>, latest: map<string, Json>, next: map<string, Json>, made: Schedule,
                  after: Schedule, id: string)
    requires Idle(was, latest, made, id)
    requires Project(after, id) == Project(made, id) && SameAt(latest, next, id)
    ensures Idle(was, next, after, id)
  {
  }

  // The main loop starts work for the next channel due.
  lemma PollingStart(l: Loop, due: seq<Channel>, k: Loop, made: Schedule, started: nat)
    requires Polling(l, due, k, made, started) && DistinctDue(due) && started < |due|
    ensures Polling(l, due, Take(k, StartWork(due[started])), made, started + 1)
  {
    hide OnTrack, Idle;
    var ch := due[started];
    var m := Take(k, StartWork(ch));
    StepKeepsRegistered(k, StartWork(ch));
    assert !Names(due, started, IdOf(ch));
    StartsOnTrack(l.latest, k.latest, made, ch);
    forall j | 0 <= j < started ensures OnTrack(l.latest, m.latest, made, NewWorker(l, m, j), due[j]) {
      TrackMeans(l.latest, k.latest, made, NewWorker(l, k, j), due[j]);
      assert IdOf(due[j]) != IdOf(ch);
      assert NewWorker(l, m, j) == NewWorker(l, k, j);
    }
    assert NewWorker(l, m, started) == Worker(ch, Applying, false, []);
    forall id: string | !Names(due, started + 1, id) ensures Idle(l.latest, m.latest, made, id) {
      assert !Names(due, started, id);
    }
  }

  lemma StartsOnTrack(was: map<string, Json>, latest: map<string, Json>, made: Schedule, ch: Channel)
    requires Idle(was, latest, made, IdOf(ch))
    ensures OnTrack(was, latest, made, Worker(ch, Applying, false, []), ch)
  {
    hide ConfigCallbacks;
  }

  // The other steps of the main loop concern no worker.
  lemma PollingMain(l: Loop, due: seq<Channel>, k: Loop, made: Schedule, started: nat, s: Step)
    requires Polling(l, due, k, made, started) && (s.SeeConfig? || s.ApplySettings? || s.Beat?)
    ensures Polling(l, due, Take(k, s), made, started)
  {
    hide OnTrack, Idle;
  }

  // How many channels are started after the first m steps of the main loop.
  function StartedAfter(due: seq<Channel>, m: nat): nat {
    if m == 0 then 0 else if m - 1 <= |due| then m - 1 else |due|
  }

  // The device settings and their version, before and after they are looked at.
  ghost predicate SettingsAfter(l: Loop, due: seq<Channel>, cfg: Config, k: Loop, m: nat) {
    && k.latestDevice == (if m <= |due| + 1 then l.latestDevice else Gating.VersionOf(cfg))
    && k.device.settings ==
       if m <= |due| + 1 || Gating.VersionOf(cfg) == l.latestDevice then l.device.settings
       else Gating.Settled(l.device.settings, cfg)
  }

  lemma MainAt(latest: map<string, Json>, cfg: Config, reportDue: bool, m: nat)
    requires m < |PollSteps(latest, cfg, reportDue)|
    ensures
      var due := Due(latest, cfg.channels);
      PollSteps(latest, cfg, reportDue)[m] ==
        if m == 0 then SeeConfig(cfg) else if m <= |due| then StartWork(due[m - 1])
        else if m == |due| + 1 then ApplySettings(cfg) else Beat
  {
    hide Due;
  }

  lemma SettingsMove(l: Loop, due: seq<Channel>, cfg: Config, k: Loop, m: nat, s: Step)
    requires SettingsAfter(l, due, cfg, k, m)
    requires s == if m == 0 then SeeConfig(cfg) else if m <= |due| then StartWork(due[m - 1])
                  else if m == |due| + 1 then ApplySettings(cfg) else Beat
    ensures SettingsAfter(l, due, cfg, Take(k, s), m + 1)
  {
    hide Gating.Settled, Gating.VersionOf;
  }

  lemma MainStep(l: Loop, cfg: Config, reportDue: bool, k: Loop, made: Schedule, m: nat)
    requires m < |PollSteps(l.latest, cfg, reportDue)| && DistinctDue(Due(l.latest, cfg.channels))
    requires Polling(l, Due(l.latest, cfg.channels), k, made, StartedAfter(Due(l.latest, cfg.channels), m))
    requires SettingsAfter(l, Due(l.latest, cfg.channels), cfg, k, m)
    ensures
      var due := Due(l.latest, cfg.channels);
      var next := Take(k, PollSteps(l.latest, cfg, reportDue)[m]);
      Polling(l, due, next, made, StartedAfter(due, m + 1)) && SettingsAfter(l, due, cfg, next, m + 1)
  {
    hide Due, Polling, SettingsAfter, Take, DistinctDue;
    MainAt(l.latest, cfg, reportDue, m);
    var due := Due(l.latest, cfg.channels);
    var s := PollSteps(l.latest, cfg, reportDue)[m];
    hide PollSteps;
    SettingsMove(l, due, cfg, k, m, s);
    if 1 <= m <= |due| {
      PollingStart(l, due, k, made, m - 1);
    } else {
      PollingMain(l, due, k, made, StartedAfter(due, m), s);
    }
  }

  lemma WorkKeepsSettings(l: Loop, due: seq<Channel>, cfg: Config, k: Loop, m: nat, i: nat)
    requires SettingsAfter(l, due, cfg, k, m)
    ensures SettingsAfter(l, due, cfg, Take(k, Work(i)), m)
  {
    hide Advance;
  }

  lemma PollingStarts(l: Loop, due: seq<Channel>, cfg: Config)
    requires AllReturned(l) && WellRegistered(l)
    ensures Polling(l, due, l, [], 0) && SettingsAfter(l, due, cfg, l, 0)
  {
  }

  lemma {:induction false} PollingRuns(l: Loop, cfg: Config, reportDue: bool, steps: seq<Step>, m: nat)
    requires AllReturned(l) && WellRegistered(l) && DistinctDue(Due(l.latest, cfg.channels))
    requires m <= |PollSteps(l.latest, cfg, reportDue)| && Main(steps) == PollSteps(l.latest, cfg, reportDue)[..m]
    ensures
      var due := Due(l.latest, cfg.channels);
      && Polling(l, due, Run(l, steps), Made(l, steps), StartedAfter(due, m))
      && SettingsAfter(l, due, cfg, Run(l, steps), m)
  {
    var due := Due(l.latest, cfg.channels);
    var p := PollSteps(l.latest, cfg, reportDue);
    hide PollSteps, Due, Polling, SettingsAfter, Take, MadeBy;
    if steps == [] {
      assert m == 0;
      PollingStarts(l, due, cfg);
    } else {
      var n := |steps| - 1;
      var k, made := Run(l, steps[..n]), Made(l, steps[..n]);
      RunAndMade(l, steps);
      if steps[n].Work? {
        assert Main(steps) == Main(steps[..n]);
        PollingRuns(l, cfg, reportDue, steps[..n], m);
        PollingWork(l, due, k, made, StartedAfter(due, m), steps[n].worker);
        WorkKeepsSettings(l, due, cfg, k, m, steps[n].worker);
      } else {
        assert Main(steps) == Main(steps[..n]) + [steps[n]];
        assert m > 0 && p[..m][m - 1] == p[m - 1] == steps[n] && p[..m][..m - 1] == p[..m - 1];
        assert Main(steps)[..m - 1] == Main(steps[..n]);
        PollingRuns(l, cfg, reportDue, steps[..n], m - 1);
        MainStep(l, cfg, reportDue, k, made, m - 1);
        NoCallback(k, steps[n]);
        assert made + [] == made;
      }
    }
  }

  lemma NoCallback(k: Loop, s: Step)
    requires !s.Work?
    ensures MadeBy(k, s) == []
  {
  }

  // A worker on track that has returned has made all its callbacks and recorded its version.
  lemma ReturnedOnTrack(was: map<string, Json>, latest: map<string, Json>, made: Schedule, w: Worker, ch: Channel)
    requires OnTrack(was, latest, made, w, ch) && Returned(w.stage)
    ensures Project(made, IdOf(ch)) == Callbacks(ch)
    ensures IdOf(ch) in latest && latest[IdOf(ch)] == Get(ch, "version")
  {
    hide ConfigCallbacks, Callbacks;
  }

  // What this poll has started is what was due, by id.
  lemma NamedIsDue(latest: map<string, Json>, channels: seq<Channel>, id: string)
    requires HostConfig.DistinctIds(channels)
    ensures
      var due := Due(latest, channels);
      Names(due, |due|, id) <==> exists ch :: ch in channels && IdOf(ch) == id && !Gating.Skipped(latest, ch)
  {
    DueMeans(latest, channels);
    var due := Due(latest, channels);
    hide Due, Gating.Skipped;
    if Names(due, |due|, id) {
      var j :| 0 <= j < |due| && IdOf(due[j]) == id;
      assert due[j] in due;
    }
    if ch :| ch in channels && IdOf(ch) == id && !Gating.Skipped(latest, ch) {
      assert ch in due;
      var j :| 0 <= j < |due| && due[j] == ch;
    }
  }

  lemma DueEnds(l: Loop, cfg: Config, k: Loop, made: Schedule, ch: Channel)
    requires HostConfig.DistinctIds(cfg.channels) && AllReturned(k) && ch in cfg.channels
        && !Gating.Skipped(l.latest, ch)
    requires Polling(l, Due(l.latest, cfg.channels), k, made, |Due(l.latest, cfg.channels)|)
    ensures Project(made, IdOf(ch)) == Callbacks(ch) && IdOf(ch) in k.latest && k.latest[IdOf(ch)] == Get(ch, "version")
  {
    var due := Due(l.latest, cfg.channels);
    DueMeans(l.latest, cfg.channels);
    hide Due, OnTrack, Callbacks, Gating.Skipped;
    assert ch in due;
    var j :| 0 <= j < |due| && due[j] == ch;
    ReturnedOnTrack(l.latest, k.latest, made, NewWorker(l, k, j), ch);
  }

  lemma OthersIdle(l: Loop, cfg: Config, k: Loop, made: Schedule, id: string)
    requires HostConfig.DistinctIds(cfg.channels)
    requires forall ch | ch in cfg.channels && IdOf(ch) == id :: Gating.Skipped(l.latest, ch)
    requires Polling(l, Due(l.latest, cfg.channels), k, made, |Due(l.latest, cfg.channels)|)
    ensures Project(made, id) == [] && SameAt(l.latest, k.latest, id)
  {
    NamedIsDue(l.latest, cfg.channels, id);
    hide Due, Names, Gating.Skipped;
    assert Idle(l.latest, k.latest, made, id);
  }

  lemma PollEnds(l: Loop, cfg: Config, k: Loop, made: Schedule)
    requires HostConfig.DistinctIds(cfg.channels) && AllReturned(k)
    requires Polling(l, Due(l.latest, cfg.channels), k, made, |Due(l.latest, cfg.channels)|)
    ensures Gating.Runs(made, l.latest, cfg.channels) && k.latest == Gating.Record(l.latest, cfg.channels)
  {
    hide Due, Polling, Callbacks, Gating.Record, Gating.Skipped, AllReturned, HostConfig.DistinctIds;
    forall i | 0 <= i < |cfg.channels|
      ensures Project(made, IdOf(cfg.channels[i])) ==
        if Gating.Skipped(l.latest, cfg.channels[i]) then [] else Callbacks(cfg.channels[i])
    {
      if Gating.Skipped(l.latest, cfg.channels[i]) {
        forall ch | ch in cfg.channels && IdOf(ch) == IdOf(cfg.channels[i]) ensures ch == cfg.channels[i] {
          SameIdSameChannel(cfg.channels, ch, cfg.channels[i]);
        }
        OthersIdle(l, cfg, k, made, IdOf(cfg.channels[i]));
      } else {
        DueEnds(l, cfg, k, made, cfg.channels[i]);
      }
    }
    forall id: string | forall i | 0 <= i < |cfg.channels| :: IdOf(cfg.channels[i]) != id
      ensures Project(made, id) == []
    {
      OthersIdle(l, cfg, k, made, id);
    }
    forall id: string ensures SameAt(k.latest, Gating.Record(l.latest, cfg.channels), id) {
      RecordEnds(l, cfg, k, made, id);
    }
    SameEverywhere(k.latest, Gating.Record(l.latest, cfg.channels));
  }

  lemma SameEverywhere(a: map<string, Json>, b: map<string, Json>)
    requires forall id: string :: SameAt(a, b, id)
    ensures a == b
  {
    forall id: string ensures (id in a <==> id in b) && (id in a ==> a[id] == b[id]) {
      assert SameAt(a, b, id);
    }
  }

  lemma RecordEnds(l: Loop, cfg: Config, k: Loop, made: Schedule, id: string)
    requires HostConfig.DistinctIds(cfg.channels) && AllReturned(k)
    requires Polling(l, Due(l.latest, cfg.channels), k, made, |Due(l.latest, cfg.channels)|)
    ensures SameAt(k.latest, Gating.Record(l.latest, cfg.channels), id)
  {
    hide Due, Polling, Callbacks, Gating.Record, Gating.Skipped, AllReturned;
    Gating.RecordLooksUp(l.latest, cfg.channels, id);
    if ch :| ch in cfg.channels && IdOf(ch) == id && !Gating.Skipped(l.latest, ch) {
      DueEnds(l, cfg, k, made, ch);
    } else {
      OthersIdle(l, cfg, k, made, id);
    }
  }

  lemma SameIdSameChannel(channels: seq<Channel>, a: Channel, b: Channel)
    requires HostConfig.DistinctIds(channels) && a in channels && b in channels && IdOf(a) == IdOf(b)
    ensures a == b
  {
    var i :| 0 <= i < |channels| && channels[i] == a;
    var j :| 0 <= j < |channels| && channels[j] == b;
    var first, second := if i < j then i else j, if i < j then j else i;
    assert first < second ==> Get(channels[first], "id") != Get(channels[second], "id");
  }

  /** Take a loop whose workers have returned, the steps of one poll, interleaved in any way with any steps of workers,
      and let all workers return: the loop has then done a gated poll, with the schedule of callbacks they made. */
  lemma PollIsGated(l: Loop, cfg: Config, reportDue: bool, steps: seq<Step>)
    requires AllReturned(l) && WellRegistered(l) && HostConfig.DistinctIds(cfg.channels)
    requires Main(steps) == PollSteps(l.latest, cfg, reportDue) && AllReturned(Run(l, steps))
    ensures Gating.Runs(Made(l, steps), l.latest, cfg.channels)
    ensures ClientOf(Run(l, steps)) == Gating.GatedPoll(ClientOf(l), cfg, Made(l, steps))
    ensures WellRegistered(Run(l, steps))
  {
    var p := PollSteps(l.latest, cfg, reportDue);
    var due := Due(l.latest, cfg.channels);
    DueMeans(l.latest, cfg.channels);
    assert p[..|p|] == p;
    PollingRuns(l, cfg, reportDue, steps, |p|);
    assert |p| >= |due| + 2;
    MadeIsExecuted(l, steps);
    hide PollSteps, Due, Run, Made, Execute, Gating.Record;
    PollEnds(l, cfg, Run(l, steps), Made(l, steps));
  }

  // ----- whole runs -----

  // One poll of the at-th stored configuration, by the worker machine and by a loop that re-applies everything.
  datatype Event = PollRun(at: nat, reportDue: bool, steps: seq<Step>, full: Schedule) | Reset

  function LoopAfter(hist: seq<Config>, es: seq<Event>, d: Device): Loop {
    if es == [] then Initial(d)
    else
      var l := LoopAfter(hist, es[..|es| - 1], d);
      match es[|es| - 1]
      case PollRun(_, _, steps, _) => Run(l, steps)
      case Reset => Take(l, ForgetAll)
  }

  function ReapplyingAfter(hist: seq<Config>, es: seq<Event>, d: Device): Device {
    if es == [] then d
    else
      var e := ReapplyingAfter(hist, es[..|es| - 1], d);
      match es[|es| - 1]
      case PollRun(at, _, _, full) => if at < |hist| then Gating.FullPoll(e, hist[at], full) else e
      case Reset => e
  }

  function Position(es: seq<Event>): nat {
    if es == [] then 0
    else if es[|es| - 1].PollRun? then es[|es| - 1].at
    else Position(es[..|es| - 1])
  }

  // Every poll sees a configuration at least as late as the one before; its workers return before the next event.
  ghost predicate Happens(hist: seq<Config>, e: Event, l: Loop, from: nat) {
    match e
    case PollRun(at, reportDue, steps, full) =>
      && from <= at < |hist|
      && Main(steps) == PollSteps(l.latest, hist[at], reportDue) && AllReturned(Run(l, steps))
      && Gating.Runs(full, map[], hist[at].channels)
    case Reset => true
  }

  ghost predicate InOrder(hist: seq<Config>, es: seq<Event>, d: Device) {
    es == [] ||
    var n := |es| - 1;
    InOrder(hist, es[..n], d) && Happens(hist, es[n], LoopAfter(hist, es[..n], d), Position(es[..n]))
  }

  function AbstractEvent(l: Loop, e: Event): Gating.Event {
    if e.PollRun? then Gating.Poll(e.at, Made(l, e.steps), e.full) else Gating.Reset
  }

  // The same events, with each poll's callbacks in place of its steps.
  function Abstract(hist: seq<Config>, es: seq<Event>, d: Device): seq<Gating.Event> {
    if es == [] then []
    else
      var n := |es| - 1;
      Abstract(hist, es[..n], d) + [AbstractEvent(LoopAfter(hist, es[..n], d), es[n])]
  }

  lemma ResetKeeps(l: Loop)
    requires AllReturned(l) && WellRegistered(l)
    ensures
      var m := Take(l, ForgetAll);
      AllReturned(m) && WellRegistered(m) && ClientOf(m) == Gating.Forget(ClientOf(l))
  {
    StepKeepsRegistered(l, ForgetAll);
  }

  lemma OneMoreEvent(hist: seq<Config>, gs: seq<Gating.Event>, g: Gating.Event, d: Device)
    ensures Gating.GatedRun(hist, gs + [g], d) == Gating.Gated(hist, g, Gating.GatedRun(hist, gs, d))
    ensures Gating.FullRun(hist, gs + [g], d) == Gating.Full(hist, g, Gating.FullRun(hist, gs, d))
    ensures Gating.Position(gs + [g]) == if g.Poll? then g.at else Gating.Position(gs)
    ensures Gating.InOrder(hist, gs + [g], d) <==>
      Gating.InOrder(hist, gs, d) && Gating.Happens(hist, g, Gating.GatedRun(hist, gs, d), Gating.Position(gs))
  {
    assert (gs + [g])[..|gs|] == gs;
  }

  lemma {:induction false} AbstractionHolds(hist: seq<Config>, es: seq<Event>, d: Device)
    requires InOrder(hist, es, d) && forall i | 0 <= i < |hist| :: HostConfig.DistinctIds(hist[i].channels)
    ensures
      var gs := Abstract(hist, es, d);
      var l := LoopAfter(hist, es, d);
      && AllReturned(l) && WellRegistered(l)
      && Gating.InOrder(hist, gs, d) && Gating.Position(gs) == Position(es)
      && Gating.GatedRun(hist, gs, d) == ClientOf(l)
      && Gating.FullRun(hist, gs, d) == ReapplyingAfter(hist, es, d)
  {
    if es == [] {
    } else {
      var n := |es| - 1;
      var l, gs := LoopAfter(hist, es[..n], d), Abstract(hist, es[..n], d);
      AbstractionHolds(hist, es[..n], d);
      OneEvent(hist, es, d, l, gs);
      hide Gating.InOrder, Gating.GatedRun, Gating.FullRun, AllReturned, WellRegistered, Run, Take, Made, PollSteps,
        Gating.GatedPoll, Gating.FullPoll, Gating.Runs, HostConfig.DistinctIds;
      match es[n] {
        case PollRun(at, reportDue, steps, full) =>
          PollIsGated(l, hist[at], reportDue, steps);
          OneMoreEvent(hist, gs, Gating.Poll(at, Made(l, steps), full), d);
        case Reset =>
          ResetKeeps(l);
          OneMoreEvent(hist, gs, Gating.Reset, d);
      }
    }
  }

  lemma OneEvent(hist: seq<Config>, es: seq<Event>, d: Device, l: Loop, gs: seq<Gating.Event>)
    requires es != [] && l == LoopAfter(hist, es[..|es| - 1], d) && gs == Abstract(hist, es[..|es| - 1], d)
    ensures
      var e := es[|es| - 1];
      && LoopAfter(hist, es, d) == (if e.PollRun? then Run(l, e.steps) else Take(l, ForgetAll))
      && Abstract(hist, es, d) == gs + [if e.PollRun? then Gating.Poll(e.at, Made(l, e.steps), e.full)
          else Gating.Reset]
  {
  }

  /** The loop refines re-applying. Take any run of host updates, any polls of the stored configurations in order, each
      an interleaving of the main loop's steps with those of its workers that ends when they have returned, and any
      resets in between: the device is as a loop leaves it that applies the whole configuration at every poll. */
  lemma LoopRefinesReapplying(updates: seq<HostConfig.Update>, now: nat, es: seq<Event>, d: Device)
    requires HostConfig.AllAdmissible(updates, now)
    requires
      var (hist, _) := HostConfig.Run(updates, now);
      && (forall i, j | 0 <= i < |hist| && 0 <= j < |hist[i].channels| :: "state" in hist[i].channels[j])
      && InOrder(hist, es, d)
    ensures
      var (hist, _) := HostConfig.Run(updates, now);
      Gating.Agree(LoopAfter(hist, es, d).device, ReapplyingAfter(hist, es, d))
  {
    var (hist, clock) := HostConfig.Run(updates, now);
    HostConfig.VersionsIdentifyContent(updates, now);
    forall i | 0 <= i < |hist| ensures HostConfig.DistinctIds(hist[i].channels) {
      assert HostConfig.Stored(hist[i], clock);
    }
    AbstractionHolds(hist, es, d);
    Gating.GatingRefinesReapplying(updates, now, Abstract(hist, es, d), d);
  }
}
