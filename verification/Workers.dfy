/** The main loop and its channel workers as interleaved atomic steps. */
module Workers {
  import opened Option
  import opened Wire
  import opened Device
  import Gating

  // Where a worker is between its atomic steps. It looks at its cancellation only
  // after applying the configuration and after driving the state.
  datatype Stage = Applying | Driving | Driven | Evaluated | Reporting(snapshot: map<string, Json>) | Done | Abandoned

  // `ran` lists the callbacks the worker has made so far.
  datatype Worker = Worker(ch: Channel, stage: Stage, cancelled: bool, ran: seq<Callback>)

  datatype Loop = Loop(
    latest: map<string, Json>,
    latestDevice: Json,
    registered: map<string, nat>,
    workers: seq<Worker>,
    lastSeen: Option<Config>,
    device: Device,
    reports: seq<map<string, Json>>)

  function Initial(d: Device): Loop {
    Loop(map[], Str(""), map[], [], None, d, [])
  }

  // ----- steps of the main loop -----

  function Cancel(ws: seq<Worker>, i: nat): seq<Worker> {
    if i < |ws| then ws[i := ws[i].(cancelled := true)] else ws
  }

  // Cancels the channel's registered worker and starts a fresh one.
  function Dispatch(l: Loop, ch: Channel): Loop {
    var id := IdOf(ch);
    var ws := if id in l.registered then Cancel(l.workers, l.registered[id]) else l.workers;
    l.(workers := ws + [Worker(ch, Applying, false, [])], registered := l.registered[id := |l.workers|])
  }

  function CancelAll(l: Loop): Loop {
    l.(workers := seq(|l.workers|, i requires 0 <= i < |l.workers| =>
         if i in l.registered.Values then l.workers[i].(cancelled := true) else l.workers[i]),
       registered := map[])
  }

  function ResetConfigState(l: Loop): Loop {
    CancelAll(l).(latestDevice := Str(""), latest := map[], lastSeen := None)
  }

  function ApplyDeviceSettings(l: Loop, cfg: Config): Loop {
    if Gating.VersionOf(cfg) == l.latestDevice then l
    else l.(device := l.device.(settings := Gating.Settled(l.device.settings, cfg)),
        latestDevice := Gating.VersionOf(cfg))
  }

  function Heartbeat(l: Loop): Loop {
    l.(reports := l.reports + [l.latest])
  }

  // ----- steps of one worker -----

  // The worker after its next step; it stays as it is once it has returned.
  function Advance(w: Worker, latest: map<string, Json>): Worker {
    var config := ConfigCallbacks(w.ch);
    match w.stage
    case Applying =>
      if |w.ran| < |config| then w.(ran := w.ran + [config[|w.ran|]])
      else w.(stage := if w.cancelled then Abandoned else Driving)
    case Driving => w.(stage := Driven, ran := w.ran + [SetState(Get(w.ch, "state"))])
    case Driven => w.(stage := if w.cancelled then Abandoned else Evaluated)
    case Evaluated => w.(stage := Reporting(latest[IdOf(w.ch) := Get(w.ch, "version")]))
    case Reporting(snapshot) => w.(stage := Done)
    case Done => w
    case Abandoned => w
  }

  // Makes the callback of the step, if it has one, on the worker's channel.
  function Call(d: Device, id: string, before: seq<Callback>, after: seq<Callback>): Device {
    if |before| < |after| then d.(channels := d.channels[id := Do(ChannelOf(d, id), after[|after| - 1])]) else d
  }

  function WorkerStep(l: Loop, i: nat): Loop {
    if i >= |l.workers| then l else
    var w := l.workers[i];
    var next := Advance(w, l.latest);
    l.(workers := l.workers[i := next],
       device := Call(l.device, IdOf(w.ch), w.ran, next.ran),
       latest := if w.stage.Evaluated? then l.latest[IdOf(w.ch) := Get(w.ch, "version")] else l.latest,
       reports := if w.stage.Reporting? then l.reports + [w.stage.snapshot] else l.reports)
  }

  // ----- runs -----

  datatype Step = StartWork(ch: Channel) | Work(worker: nat) | SeeConfig(cfg: Config) | ApplySettings(cfg: Config)
                | Beat | StopAll | ForgetAll

  function Take(l: Loop, s: Step): Loop {
    match s
    case StartWork(ch) => Dispatch(l, ch)
    case Work(i) => WorkerStep(l, i)
    case SeeConfig(cfg) => l.(lastSeen := Some(cfg))
    case ApplySettings(cfg) => ApplyDeviceSettings(l, cfg)
    case Beat => Heartbeat(l)
    case StopAll => CancelAll(l)
    case ForgetAll => ResetConfigState(l)
  }

  function Run(l: Loop, steps: seq<Step>): Loop {
    if steps == [] then l else Take(Run(l, steps[..|steps| - 1]), steps[|steps| - 1])
  }

  lemma RunAppend(l: Loop, a: seq<Step>, s: Step)
    ensures Run(l, a + [s]) == Take(Run(l, a), s)
  {
    assert (a + [s])[..|a|] == a;
  }

  lemma {:induction false} RunConcat(l: Loop, a: seq<Step>, b: seq<Step>)
    ensures Run(l, a + b) == Run(Run(l, a), b)
  {
    hide Take;
    if b == [] {
      assert a + b == a;
    } else {
      var n := |b| - 1;
      RunConcat(l, a, b[..n]);
      assert a + b == (a + b[..n]) + [b[n]];
      RunAppend(l, a + b[..n], b[n]);
    }
  }

  lemma RunOne(l: Loop, s: Step)
    ensures Run(l, [s]) == Take(l, s)
  {
    RunAppend(l, [], s);
    assert [] + [s] == [s];
  }

  // ----- exclusion -----

  ghost predicate Exclusive(l: Loop) {
    forall i | 0 <= i < |l.workers| && !l.workers[i].cancelled ::
      IdOf(l.workers[i].ch) in l.registered && l.registered[IdOf(l.workers[i].ch)] == i
  }

  // What every step of a worker keeps, and what it may add.
  lemma AdvanceKeeps(w: Worker, latest: map<string, Json>)
    ensures
      var v := Advance(w, latest);
      && v.ch == w.ch && v.cancelled == w.cancelled
      && (v.ran == w.ran || exists c :: v.ran == w.ran + [c])
      && (Diligent(w) ==> Diligent(v))
      && (Finished(w.stage) ==> Finished(v.stage) && v.ran == w.ran)
      && (Returned(w.stage) ==> v == w)
      && (v.stage.Reporting? ==> w.stage.Evaluated? && v.stage.snapshot == latest[IdOf(w.ch) := Get(w.ch, "version")])
      && (w.stage.Evaluated? ==> v.stage.Reporting?)
  {
    var config := ConfigCallbacks(w.ch);
    if w.stage.Applying? && |w.ran| < |config| && w.ran <= config {
      assert w.ran + [config[|w.ran|]] <= config;
    }
  }

  lemma StepKeepsExclusion(l: Loop, s: Step)
    requires Exclusive(l)
    ensures Exclusive(Take(l, s))
  {
    hide Advance;
    match s
    case StartWork(ch) => DispatchKeepsExclusion(l, ch);
    case Work(i) =>
      if i < |l.workers| {
        AdvanceKeeps(l.workers[i], l.latest);
      }
    case SeeConfig(_) =>
    case ApplySettings(_) =>
    case Beat =>
    case StopAll => CancelAllCancels(l);
    case ForgetAll => CancelAllCancels(l);
  }

  lemma DispatchKeepsExclusion(l: Loop, ch: Channel)
    requires Exclusive(l)
    ensures Exclusive(Dispatch(l, ch))
  {
  }

  lemma CancelAllCancels(l: Loop)
    requires Exclusive(l)
    ensures forall i | 0 <= i < |CancelAll(l).workers| :: CancelAll(l).workers[i].cancelled
  {
    forall i | 0 <= i < |l.workers| ensures CancelAll(l).workers[i].cancelled {
      if !l.workers[i].cancelled {
        assert l.registered[IdOf(l.workers[i].ch)] == i;
      }
    }
  }

  /** In every interleaving, a channel has at most one worker that is not cancelled,
      and that worker is the registered one. */
  lemma {:induction false} OneLiveWorkerPerChannel(d: Device, steps: seq<Step>, i: nat, j: nat)
    requires
      var ws := Run(Initial(d), steps).workers;
      i < |ws| && j < |ws| && !ws[i].cancelled && !ws[j].cancelled && IdOf(ws[i].ch) == IdOf(ws[j].ch)
    ensures
      var l := Run(Initial(d), steps);
      i == j && IdOf(l.workers[i].ch) in l.registered && l.registered[IdOf(l.workers[i].ch)] == i
  {
    RunIsExclusive(d, steps);
  }

  lemma {:induction false} RunIsExclusive(d: Device, steps: seq<Step>)
    ensures Exclusive(Run(Initial(d), steps))
  {
    if steps != [] {
      RunIsExclusive(d, steps[..|steps| - 1]);
      StepKeepsExclusion(Run(Initial(d), steps[..|steps| - 1]), steps[|steps| - 1]);
    }
  }

  // ----- what a reported version means -----

  predicate Finished(s: Stage) {
    s.Evaluated? || s.Reporting? || s.Done?
  }

  // A worker has made exactly the callbacks its stage says.
  predicate Diligent(w: Worker) {
    && (w.stage.Applying? ==> w.ran <= ConfigCallbacks(w.ch))
    && (w.stage.Driving? ==> w.ran == ConfigCallbacks(w.ch))
    && (w.stage.Driven? || Finished(w.stage) ==> w.ran == Callbacks(w.ch))
  }

  // Some worker completed all callbacks of channel id at this version.
  ghost predicate Completed(ws: seq<Worker>, id: string, version: Json) {
    exists i :: 0 <= i < |ws| && IdOf(ws[i].ch) == id && Get(ws[i].ch, "version") == version
      && Finished(ws[i].stage) && ws[i].ran == Callbacks(ws[i].ch)
  }

  ghost predicate AllCompleted(ws: seq<Worker>, versions: map<string, Json>) {
    forall id | id in versions :: Completed(ws, id, versions[id])
  }

  ghost predicate Honest(l: Loop) {
    && (forall i | 0 <= i < |l.workers| :: Diligent(l.workers[i]))
    && AllCompleted(l.workers, l.latest)
    && (forall i | 0 <= i < |l.workers| && l.workers[i].stage.Reporting? ::
        AllCompleted(l.workers, l.workers[i].stage.snapshot))
    && (forall r | r in l.reports :: AllCompleted(l.workers, r))
  }

  // Workers only move forward, so what was completed stays completed.
  ghost predicate Forward(ws: seq<Worker>, next: seq<Worker>) {
    |ws| <= |next| && forall i | 0 <= i < |ws| ::
      && next[i].ch == ws[i].ch
      && (Finished(ws[i].stage) ==> Finished(next[i].stage) && next[i].ran == ws[i].ran)
  }

  lemma CompletedStays(ws: seq<Worker>, next: seq<Worker>, versions: map<string, Json>)
    requires Forward(ws, next) && AllCompleted(ws, versions)
    ensures AllCompleted(next, versions)
  {
    forall id | id in versions ensures Completed(next, id, versions[id]) {
      assert Completed(ws, id, versions[id]);
      var i :| 0 <= i < |ws| && IdOf(ws[i].ch) == id && Get(ws[i].ch, "version") == versions[id]
        && Finished(ws[i].stage) && ws[i].ran == Callbacks(ws[i].ch);
      assert IdOf(next[i].ch) == id;
    }
  }

  lemma StepForward(l: Loop, s: Step)
    requires forall i | 0 <= i < |l.workers| :: Diligent(l.workers[i])
    ensures Forward(l.workers, Take(l, s).workers)
    ensures forall i | 0 <= i < |Take(l, s).workers| :: Diligent(Take(l, s).workers[i])
  {
    hide Advance, ConfigCallbacks, Callbacks;
    if s.Work? && s.worker < |l.workers| {
      AdvanceKeeps(l.workers[s.worker], l.latest);
    }
  }

  // The versions a step remembers or publishes are those of before, or the one its worker just completed.
  lemma StepVersions(l: Loop, s: Step)
    requires forall i | 0 <= i < |l.workers| :: Diligent(l.workers[i])
    requires AllCompleted(l.workers, l.latest)
    ensures AllCompleted(Take(l, s).workers, Take(l, s).latest)
  {
    hide Advance, ConfigCallbacks;
    var m := Take(l, s);
    StepForward(l, s);
    CompletedStays(l.workers, m.workers, l.latest);
    if s.Work? && s.worker < |l.workers| && l.workers[s.worker].stage.Evaluated? {
      var w := m.workers[s.worker];
      AdvanceKeeps(l.workers[s.worker], l.latest);
      forall id | id in m.latest ensures Completed(m.workers, id, m.latest[id]) {
        if id == IdOf(w.ch) {
          assert IdOf(m.workers[s.worker].ch) == id;
        } else {
          assert Completed(m.workers, id, l.latest[id]);
        }
      }
    }
  }

  lemma StepStaysHonest(l: Loop, s: Step)
    requires Honest(l)
    ensures Honest(Take(l, s))
  {
    hide Advance, Completed, Diligent, Forward, ConfigCallbacks, Callbacks;
    var m := Take(l, s);
    StepForward(l, s);
    StepVersions(l, s);
    forall r | r in l.reports ensures AllCompleted(m.workers, r) {
      CompletedStays(l.workers, m.workers, r);
    }
    CompletedStays(l.workers, m.workers, l.latest);
    forall i | 0 <= i < |m.workers| && m.workers[i].stage.Reporting?
      ensures AllCompleted(m.workers, m.workers[i].stage.snapshot)
    {
      if i < |l.workers| {
        AdvanceKeeps(l.workers[i], l.latest);
        if l.workers[i].stage.Reporting? {
          CompletedStays(l.workers, m.workers, l.workers[i].stage.snapshot);
        }
      }
    }
    if s.Work? && s.worker < |l.workers| && l.workers[s.worker].stage.Reporting? {
      CompletedStays(l.workers, m.workers, l.workers[s.worker].stage.snapshot);
    }
  }

  // The version an actual-configuration report shows for a channel.
  function ReportedVersion(snapshot: map<string, Json>, id: string): Json {
    if id in snapshot && snapshot[id] != Str("") then snapshot[id] else Str("initial")
  }

  /** In every interleaving, each channel version in a report is "initial" or the version
      of a worker that made all its setting, connection and state callbacks. */
  lemma {:induction false} ReportedVersionsAreCompleted(d: Device, steps: seq<Step>, r: map<string, Json>, id: string)
    requires r in Run(Initial(d), steps).reports
    ensures ReportedVersion(r, id) == Str("initial")
        || Completed(Run(Initial(d), steps).workers, id, ReportedVersion(r, id))
  {
    RunIsHonest(d, steps);
  }

  lemma {:induction false} RunIsHonest(d: Device, steps: seq<Step>)
    ensures Honest(Run(Initial(d), steps))
  {
    if steps != [] {
      RunIsHonest(d, steps[..|steps| - 1]);
      StepStaysHonest(Run(Initial(d), steps[..|steps| - 1]), steps[|steps| - 1]);
    }
  }

  // ----- stale workers -----

  predicate Returned(s: Stage) {
    s.Done? || s.Abandoned?
  }

  // No worker of channel id other than number i can still act.
  ghost predicate Quiet(l: Loop, id: string, i: nat) {
    forall j | 0 <= j < |l.workers| && j != i && IdOf(l.workers[j].ch) == id :: Returned(l.workers[j].stage)
  }

  /** When the earlier workers of a channel have returned before its next one starts, and no
      further one starts, the channel shows exactly the callbacks of that one, whatever the
      workers of other channels do in between. */
  lemma {:induction false} UndisturbedWorker(l: Loop, ch: Channel, steps: seq<Step>)
    requires Quiet(l, IdOf(ch), |l.workers|)
    requires forall k | 0 <= k < |steps| && steps[k].StartWork? :: IdOf(steps[k].ch) != IdOf(ch)
    ensures
      var m := Run(Dispatch(l, ch), steps);
      var i := |l.workers|;
      && i < |m.workers| && m.workers[i].ch == ch && Quiet(m, IdOf(ch), i)
      && Diligent(m.workers[i])
      && ChannelOf(m.device, IdOf(ch)) == DoAll(ChannelOf(l.device, IdOf(ch)), m.workers[i].ran)
      && (Finished(m.workers[i].stage) ==> Reflects(ChannelOf(m.device, IdOf(ch)), ch))
  {
    hide Diligent, Advance, ConfigCallbacks, Callbacks, DoAll, Reflects, Take, Quiet;
    var i := |l.workers|;
    if steps == [] {
      UndisturbedStarts(l, ch);
    } else {
      var n := |steps| - 1;
      var k := Run(Dispatch(l, ch), steps[..n]);
      UndisturbedWorker(l, ch, steps[..n]);
      UndisturbedStep(ChannelOf(l.device, IdOf(ch)), ch, k, i, steps[n]);
    }
    var m := Run(Dispatch(l, ch), steps);
    hide Run, Dispatch;
    FinishedRanAll(m.workers[i]);
    ApplyIsIdempotent(ChannelOf(l.device, IdOf(ch)), ch);
  }

  lemma UndisturbedStarts(l: Loop, ch: Channel)
    requires Quiet(l, IdOf(ch), |l.workers|)
    ensures
      var m := Dispatch(l, ch);
      var i := |l.workers|;
      && i < |m.workers| && m.workers[i].ch == ch && Quiet(m, IdOf(ch), i) && Diligent(m.workers[i])
      && ChannelOf(m.device, IdOf(ch)) == DoAll(ChannelOf(l.device, IdOf(ch)), m.workers[i].ran)
  {
    hide ConfigCallbacks, Callbacks;
  }

  lemma FinishedRanAll(w: Worker)
    requires Diligent(w)
    ensures Finished(w.stage) ==> w.ran == Callbacks(w.ch)
  {
  }

  // What a step keeps of the worker at i while the channel is its own.
  ghost predicate Undisturbed(cd: ChannelDevice, ch: Channel, k: Loop, i: nat) {
    && i < |k.workers| && k.workers[i].ch == ch && Quiet(k, IdOf(ch), i) && Diligent(k.workers[i])
    && ChannelOf(k.device, IdOf(ch)) == DoAll(cd, k.workers[i].ran)
  }

  lemma CallElsewhere(d: Device, id: string, other: string, before: seq<Callback>, after: seq<Callback>)
    requires id != other || after == before
    ensures ChannelOf(Call(d, id, before, after), other) == ChannelOf(d, other)
  {
  }

  lemma CallHere(d: Device, id: string, before: seq<Callback>, c: Callback)
    ensures ChannelOf(Call(d, id, before, before + [c]), id) == Do(ChannelOf(d, id), c)
  {
  }

  lemma UndisturbedWork(cd: ChannelDevice, ch: Channel, k: Loop, i: nat, n: nat)
    requires Undisturbed(cd, ch, k, i) && n < |k.workers|
    ensures Undisturbed(cd, ch, WorkerStep(k, n), i)
  {
    var w := k.workers[n];
    var v := Advance(w, k.latest);
    AdvanceKeeps(w, k.latest);
    assert n != i && IdOf(w.ch) == IdOf(ch) ==> Returned(w.stage);
    hide Advance, ConfigCallbacks, Callbacks, DoAll, Do, Call, Diligent, ChannelOf, Returned;
    if v.ran == w.ran || IdOf(w.ch) != IdOf(ch) {
      CallElsewhere(k.device, IdOf(w.ch), IdOf(ch), w.ran, v.ran);
    } else {
      var c :| v.ran == w.ran + [c];
      CallHere(k.device, IdOf(ch), w.ran, c);
      DoAllNext(cd, w.ran, c);
    }
  }

  lemma UndisturbedStep(cd: ChannelDevice, ch: Channel, k: Loop, i: nat, s: Step)
    requires Undisturbed(cd, ch, k, i) && (s.StartWork? ==> IdOf(s.ch) != IdOf(ch))
    ensures Undisturbed(cd, ch, Take(k, s), i)
  {
    hide WorkerStep, ConfigCallbacks, Callbacks, DoAll;
    if s.Work? && s.worker < |k.workers| {
      UndisturbedWork(cd, ch, k, i, s.worker);
    } else if s.Work? {
      NoSuchWorker(k, s.worker);
    }
  }

  lemma NoSuchWorker(k: Loop, n: nat)
    requires n >= |k.workers|
    ensures WorkerStep(k, n) == k
  {
  }

  lemma DoAllNext(cd: ChannelDevice, ran: seq<Callback>, c: Callback)
    ensures DoAll(cd, ran + [c]) == Do(DoAll(cd, ran), c)
  {
    assert (ran + [c])[..|ran|] == ran;
  }

  // Version 2 is recorded and reported, yet the cancelled worker of version 1 writes last.
  lemma StaleWorkerWritesLast(d: Device)
    ensures
      var v1 := map["id" := Str("CH1"), "version" := Stamp(1), "state" := Str("IDLE"),
                    "channelSettings" := Settings(Some([KeyValue("BR", "1000")]), None)];
      var v2 := v1["version" := Stamp(2)]["channelSettings" := Settings(Some([KeyValue("BR", "2000")]), None)];
      var steps := [StartWork(v1), StartWork(v2), Work(1), Work(1), Work(1), Work(1), Work(1), Work(1), Work(0)];
      var l := Run(Initial(d), steps);
      && l.reports == [map["CH1" := Stamp(2)]]
      && !Reflects(ChannelOf(l.device, "CH1"), v2)
  {
    var v1: Channel := map["id" := Str("CH1"), "version" := Stamp(1), "state" := Str("IDLE"),
                  "channelSettings" := Settings(Some([KeyValue("BR", "1000")]), None)];
    var v2 := v1["version" := Stamp(2)]["channelSettings" := Settings(Some([KeyValue("BR", "2000")]), None)];
    assert ConfigCallbacks(v1) == [SetSetting("BR", "1000")];
    assert ConfigCallbacks(v2) == [SetSetting("BR", "2000")];
    StaleWrite(d, v1, v2, "BR", "1000", "2000");
  }

  lemma StaleWrite(d: Device, v1: Channel, v2: Channel, key: string, old_: string, new_: string)
    requires IdOf(v1) == IdOf(v2) && old_ != new_
    requires ConfigCallbacks(v1) == [SetSetting(key, old_)] && ConfigCallbacks(v2) == [SetSetting(key, new_)]
    requires SettingsOf(v2) == Standard([KeyValue(key, new_)])
    ensures
      var steps := [StartWork(v1), StartWork(v2), Work(1), Work(1), Work(1), Work(1), Work(1), Work(1), Work(0)];
      var l := Run(Initial(d), steps);
      && l.reports == [map[IdOf(v2) := Get(v2, "version")]]
      && !Reflects(ChannelOf(l.device, IdOf(v2)), v2)
  {
    StaleRun(d, v1, v2);
    var l2 := Dispatch(Dispatch(Initial(d), v1), v2);
    hide WorkerStep, Run;
    RunsToTheEnd(l2, v2, SetSetting(key, new_));
    var l8 := WorkerStep(WorkerStep(WorkerStep(WorkerStep(WorkerStep(WorkerStep(l2, 1), 1), 1), 1), 1), 1);
    WritesNext(l8, v1, SetSetting(key, old_));
    assert LastValue([KeyValue(key, new_)], key) == Some(new_);
  }

  // An undisturbed worker with one configuration callback takes six steps.
  lemma RunsToTheEnd(l: Loop, ch: Channel, c: Callback)
    requires |l.workers| == 2 && l.workers[1] == Worker(ch, Applying, false, []) && ConfigCallbacks(ch) == [c]
    ensures
      var m := WorkerStep(WorkerStep(WorkerStep(WorkerStep(WorkerStep(WorkerStep(l, 1), 1), 1), 1), 1), 1);
      && m.workers[0] == l.workers[0] && |m.workers| == 2
      && m.reports == l.reports + [l.latest[IdOf(ch) := Get(ch, "version")]]
  {
    hide ConfigCallbacks, Call;
    var l3 := WorkerStep(l, 1);
    assert l3.workers[1] == Worker(ch, Applying, false, [c]);
    var l4 := WorkerStep(l3, 1);
    assert l4.workers[1] == Worker(ch, Driving, false, [c]);
    var l5 := WorkerStep(l4, 1);
    assert l5.workers[1].stage == Driven && !l5.workers[1].cancelled;
    var l6 := WorkerStep(l5, 1);
    assert l6.workers[1].stage == Evaluated;
    var l7 := WorkerStep(l6, 1);
    assert l7.workers[1].stage == Reporting(l.latest[IdOf(ch) := Get(ch, "version")]);
  }

  lemma WritesNext(l: Loop, ch: Channel, c: Callback)
    requires |l.workers| == 2 && l.workers[0] == Worker(ch, Applying, true, []) && ConfigCallbacks(ch) == [c]
    ensures WorkerStep(l, 0).reports == l.reports
    ensures ChannelOf(WorkerStep(l, 0).device, IdOf(ch)) == Do(ChannelOf(l.device, IdOf(ch)), c)
  {
  }

  lemma StaleRun(d: Device, v1: Channel, v2: Channel)
    ensures
      var steps := [StartWork(v1), StartWork(v2), Work(1), Work(1), Work(1), Work(1), Work(1), Work(1), Work(0)];
      var l2 := Dispatch(Dispatch(Initial(d), v1), v2);
      var l5 := WorkerStep(WorkerStep(WorkerStep(l2, 1), 1), 1);
      var l9 := WorkerStep(WorkerStep(WorkerStep(WorkerStep(l5, 1), 1), 1), 0);
      Run(Initial(d), steps) == l9
  {
    hide WorkerStep, Dispatch, Initial, Run;
    var steps := [StartWork(v1), StartWork(v2), Work(1), Work(1), Work(1), Work(1), Work(1), Work(1), Work(0)];
    var l := Initial(d);
    RunNext(l, steps, 0);
    RunNext(l, steps, 1);
    RunNext(l, steps, 2);
    RunNext(l, steps, 3);
    RunNext(l, steps, 4);
    RunNext(l, steps, 5);
    RunNext(l, steps, 6);
    RunNext(l, steps, 7);
    RunNext(l, steps, 8);
    RunNone(l, steps);
    assert steps[..9] == steps;
  }

  lemma RunNone(l: Loop, steps: seq<Step>)
    ensures Run(l, steps[..0]) == l
  {
  }

  lemma RunNext(l: Loop, steps: seq<Step>, k: nat)
    requires k < |steps|
    ensures Run(l, steps[..k + 1]) == Take(Run(l, steps[..k]), steps[k])
  {
    assert steps[..k + 1][..k] == steps[..k];
  }
}
