/** Gating seen from the reference encoder: its processes, which a state callback starts only with a stored address.

  Settings and profiles are stored as in Device. The connection and the process depend on each other:
  a connection other than srtCaller stops the process, and starting needs the address stored before.
*/
module Processes {
  import opened Option
  import opened Wire
  import HostConfig
  import opened Device
  import opened Gating
  import Encoder
  import Polls

  // What the encoder keeps of one channel's process.
  datatype Process = Process(srt: Option<Encoder.Srt>, running: bool)

  const NO_PROCESS := Process(None, false)

  function Connected(p: Process, j: Json): Process {
    if Encoder.SrtOf(j).Some? then p.(srt := Some(Encoder.Stored(Encoder.SrtOf(j).value)))
    else if j.Protocol? then p.(running := false)
    else p
  }

  function Driven(p: Process, j: Json): Process {
    if j == Str("IDLE") then p.(running := false)
    else if j == Str("ACTIVE") && Encoder.Startable(p.srt) then p.(running := true)
    else p
  }

  function Serve(p: Process, c: Callback): Process {
    match c
    case SetConnection(j) => Connected(p, j)
    case SetState(j) => Driven(p, j)
    case _ => p
  }

  function ServeAll(p: Process, cs: seq<Callback>): Process {
    if cs == [] then p else Serve(ServeAll(p, cs[..|cs| - 1]), cs[|cs| - 1])
  }

  lemma {:induction false} ServeAllAppend(p: Process, a: seq<Callback>, b: seq<Callback>)
    ensures ServeAll(p, a + b) == ServeAll(ServeAll(p, a), b)
  {
    if b == [] {
      assert a + b == a;
    } else {
      var n := |b| - 1;
      assert (a + b)[..|a + b| - 1] == a + b[..n];
      ServeAllAppend(p, a, b[..n]);
    }
  }

  lemma {:induction false} OthersServe(p: Process, cs: seq<Callback>)
    requires forall i | 0 <= i < |cs| :: cs[i].SetSetting? || cs[i].SetProfile?
    ensures ServeAll(p, cs) == p
  {
    if cs == [] {
    } else {
      OthersServe(p, cs[..|cs| - 1]);
    }
  }

  lemma ServeOne(p: Process, c: Callback)
    ensures ServeAll(p, [c]) == Serve(p, c)
  {
    assert ServeAll(p, [c]) == Serve(ServeAll(p, []), c);
  }

  lemma ConnectionServes(p: Process, ch: Channel)
    ensures ServeAll(p, ProtocolCallbacks(ch)) == Connected(p, Get(ch, "protocol"))
  {
    if Get(ch, "protocol").Protocol? {
      ServeOne(p, SetConnection(ch["protocol"]));
    }
  }

  // All callbacks of one channel: the connection, then the state.
  lemma CallbacksServe(p: Process, ch: Channel)
    ensures ServeAll(p, Callbacks(ch)) == Driven(Connected(p, Get(ch, "protocol")), Get(ch, "state"))
  {
    hide ServeAll, SettingsOf, ProtocolCallbacks, Connected, Driven;
    var first, second := SettingsCallbacks(SettingsOf(ch)), ProtocolCallbacks(ch);
    ServeAllAppend(p, first + second, [SetState(Get(ch, "state"))]);
    ServeAllAppend(p, first, second);
    OthersServe(p, first);
    ConnectionServes(p, ch);
    ServeOne(Connected(p, Get(ch, "protocol")), SetState(Get(ch, "state")));
  }

  function ProcessIn(s: Encoder.Stores, id: string): Process {
    Process(Encoder.At(s.srt, id), id in s.running)
  }

  /** This is the encoder: applying a channel to its stores serves the channel's callbacks. */
  lemma ServesAsEncoder(s: Encoder.Stores, ch: Channel)
    ensures ProcessIn(Encoder.ApplyChannel(s, ch), IdOf(ch)) == ServeAll(ProcessIn(s, IdOf(ch)), Callbacks(ch))
  {
    var id := IdOf(ch);
    CallbacksServe(ProcessIn(s, id), ch);
    var t := Encoder.ApplySettings(s, id, SettingsOf(ch));
    assert t.srt == s.srt && t.running == s.running;
    hide ServeAll, Callbacks, Encoder.SrtOf, Encoder.Stored, Encoder.Startable, Encoder.ApplySettings;
    ConnectsAsEncoder(t, id, Get(ch, "protocol"));
    DrivesAsEncoder(Encoder.ApplyConnection(t, id, Get(ch, "protocol")), id, Get(ch, "state"));
  }

  lemma ConnectsAsEncoder(s: Encoder.Stores, id: string, j: Json)
    ensures ProcessIn(Encoder.ApplyConnection(s, id, j), id) == Connected(ProcessIn(s, id), j)
  {
    hide Encoder.SrtOf, Encoder.Stored;
  }

  lemma DrivesAsEncoder(s: Encoder.Stores, id: string, j: Json)
    ensures ProcessIn(Encoder.ApplyState(s, id, j), id) == Driven(ProcessIn(s, id), j)
  {
    hide Encoder.Startable;
  }

  // Applying this channel, or one that says less, changes nothing.
  ghost predicate Steady(p: Process, a: Channel) {
    forall b: Channel | HostConfig.Extends(a, b) && "state" in b :: ServeAll(p, Callbacks(b)) == p
  }

  /** Applied once is applied: the same channel again, or with fields dropped, neither starts nor stops anything. */
  lemma ServedIsSteady(p: Process, a: Channel)
    ensures Steady(ServeAll(p, Callbacks(a)), a)
  {
    assert Encoder.SrtOf(Null) == None;
    hide ServeAll, Callbacks, Encoder.SrtOf, Encoder.Stored, Encoder.Startable;
    CallbacksServe(p, a);
    var q := ServeAll(p, Callbacks(a));
    forall b: Channel | HostConfig.Extends(a, b) && "state" in b ensures ServeAll(q, Callbacks(b)) == q {
      CallbacksServe(q, b);
      assert Get(a, "state") == Get(b, "state");
      assert "protocol" in b ==> Get(a, "protocol") == Get(b, "protocol");
    }
  }

  lemma SteadyLess(p: Process, a: Channel, b: Channel)
    requires Steady(p, a) && HostConfig.Extends(a, b) && "state" in b
    ensures Steady(p, b) && ServeAll(p, Callbacks(b)) == p
  {
    hide ServeAll, Callbacks;
    forall c: Channel | HostConfig.Extends(b, c) && "state" in c ensures ServeAll(p, Callbacks(c)) == p {
      assert HostConfig.Extends(a, c);
    }
  }

  // ----- all channels, and whole runs -----

  type Fleet = map<string, Process>

  function ProcessOf(m: Fleet, id: string): Process {
    if id in m then m[id] else NO_PROCESS
  }

  function ServeSchedule(m: Fleet, s: Schedule): Fleet {
    if s == [] then m
    else
      var n := ServeSchedule(m, s[..|s| - 1]);
      var (id, c) := s[|s| - 1];
      n[id := Serve(ProcessOf(n, id), c)]
  }

  lemma {:induction false} ServedPerChannel(m: Fleet, s: Schedule, id: string)
    ensures ProcessOf(ServeSchedule(m, s), id) == ServeAll(ProcessOf(m, id), Project(s, id))
  {
    hide Serve;
    if s == [] {
    } else {
      var n := |s| - 1;
      ServedPerChannel(m, s[..n], id);
      var p := Project(s, id);
      if s[n].0 == id {
        assert p[..|p| - 1] == Project(s[..n], id);
      } else {
        assert p == Project(s[..n], id);
      }
    }
  }

  // The processes under the loop that skips recorded versions, and under the one that re-applies everything.
  function GatedFleet(hist: seq<Config>, es: seq<Event>, m: Fleet): Fleet {
    if es == [] then m
    else
      var g := GatedFleet(hist, es[..|es| - 1], m);
      if es[|es| - 1].Poll? then ServeSchedule(g, es[|es| - 1].gated) else g
  }

  function FullFleet(hist: seq<Config>, es: seq<Event>, m: Fleet): Fleet {
    if es == [] then m
    else
      var f := FullFleet(hist, es[..|es| - 1], m);
      if es[|es| - 1].Poll? then ServeSchedule(f, es[|es| - 1].full) else f
  }

  // Every recorded version was given to a channel that the process is steady under.
  ghost predicate EarnedSteady(hist: seq<Config>, latest: map<string, Json>, g: Fleet, upTo: nat, id: string) {
    id in latest ==>
      exists i, j :: 0 <= i <= upTo && i < |hist| && 0 <= j < |hist[i].channels|
        && IdOf(hist[i].channels[j]) == id
        && Get(hist[i].channels[j], "version") == latest[id]
        && Steady(ProcessOf(g, id), hist[i].channels[j])
  }

  lemma EarnedSteadyNow(hist: seq<Config>, latest: map<string, Json>, g: Fleet, at: nat, n: nat)
    requires at < |hist| && n < |hist[at].channels|
    requires
      var ch := hist[at].channels[n];
      Steady(ProcessOf(g, IdOf(ch)), ch) && IdOf(ch) in latest && latest[IdOf(ch)] == Get(ch, "version")
    ensures EarnedSteady(hist, latest, g, at, IdOf(hist[at].channels[n]))
  {
    hide Steady;
  }

  lemma SkippedIsSteady(hist: seq<Config>, now: nat, latest: map<string, Json>, g: Fleet, upTo: nat, at: nat, n: nat)
    requires Meaningful(hist, now) && upTo <= at < |hist| && n < |hist[at].channels|
    requires Skipped(latest, hist[at].channels[n])
    requires EarnedSteady(hist, latest, g, upTo, IdOf(hist[at].channels[n]))
    ensures
      var ch := hist[at].channels[n];
      var p := ProcessOf(g, IdOf(ch));
      IdOf(ch) in latest && Steady(p, ch) && ServeAll(p, Callbacks(ch)) == p
  {
    var ch := hist[at].channels[n];
    assert HostConfig.Stored(hist[at], now) && HostConfig.StampedBelow(Get(ch, "version"), now);
    var id := IdOf(ch);
    var p := ProcessOf(g, id);
    hide Steady, ServeAll, Callbacks, ProcessOf;
    var i, j :| 0 <= i <= upTo && i < |hist| && 0 <= j < |hist[i].channels|
      && IdOf(hist[i].channels[j]) == id && Get(hist[i].channels[j], "version") == latest[id]
      && Steady(p, hist[i].channels[j]);
    assert HostConfig.Identifies(hist[i], hist[at]) && HostConfig.Stored(hist[i], now);
    SteadyLess(p, hist[i].channels[j], ch);
  }

  // One channel that a poll names.
  lemma PollOneProcess(hist: seq<Config>, now: nat, c: Client, g: Fleet, f: Fleet, upTo: nat, e: Event, n: nat)
    requires Meaningful(hist, now) && e.Poll? && Happens(hist, e, c, upTo) && n < |hist[e.at].channels|
    requires
      var id := IdOf(hist[e.at].channels[n]);
      EarnedSteady(hist, c.latest, g, upTo, id) && ProcessOf(g, id) == ProcessOf(f, id)
    ensures
      var id := IdOf(hist[e.at].channels[n]);
      && ProcessOf(ServeSchedule(g, e.gated), id) == ProcessOf(ServeSchedule(f, e.full), id)
      && EarnedSteady(hist, Gated(hist, e, c).latest, ServeSchedule(g, e.gated), e.at, id)
  {
    var cfg := hist[e.at];
    var ch := cfg.channels[n];
    var id := IdOf(ch);
    var p := ProcessOf(g, id);
    ServedPerChannel(g, e.gated, id);
    ServedPerChannel(f, e.full, id);
    NothingSkippedAtFirst(hist, now, e.at, n);
    hide ServeSchedule, Project, ProcessOf, Steady, EarnedSteady, Callbacks, Skipped, Record, Meaningful, Execute;
    ServedIsSteady(p, ch);
    if Skipped(c.latest, ch) {
      SkippedIsSteady(hist, now, c.latest, g, upTo, e.at, n);
      assert ServeAll(p, []) == p;
    }
    hide ServeAll;
    RecordedAfter(c.latest, cfg.channels, n);
    EarnedSteadyNow(hist, Gated(hist, e, c).latest, ServeSchedule(g, e.gated), e.at, n);
  }

  // One that it does not name.
  lemma PollOtherProcess(hist: seq<Config>, now: nat, c: Client, g: Fleet, f: Fleet, upTo: nat, e: Event, id: string)
    requires Meaningful(hist, now) && e.Poll? && Happens(hist, e, c, upTo)
    requires EarnedSteady(hist, c.latest, g, upTo, id) && ProcessOf(g, id) == ProcessOf(f, id)
    requires forall n | 0 <= n < |hist[e.at].channels| :: IdOf(hist[e.at].channels[n]) != id
    ensures ProcessOf(ServeSchedule(g, e.gated), id) == ProcessOf(ServeSchedule(f, e.full), id)
    ensures EarnedSteady(hist, Gated(hist, e, c).latest, ServeSchedule(g, e.gated), e.at, id)
  {
    var cfg := hist[e.at];
    assert HostConfig.Stored(cfg, now);
    ServedPerChannel(g, e.gated, id);
    ServedPerChannel(f, e.full, id);
    RecordLooksUp(c.latest, cfg.channels, id);
    assert ServeAll(ProcessOf(g, id), []) == ProcessOf(g, id);
    hide ServeSchedule, Project, ProcessOf, Steady, Record, Meaningful, Execute, ServeAll, Skipped;
  }

  ghost predicate FleetInv(hist: seq<Config>, latest: map<string, Json>, g: Fleet, f: Fleet, upTo: nat) {
    forall id: string :: ProcessOf(g, id) == ProcessOf(f, id) && EarnedSteady(hist, latest, g, upTo, id)
  }

  lemma {:induction false} RunKeepsFleet(hist: seq<Config>, now: nat, es: seq<Event>, d: Device, m: Fleet)
    requires Meaningful(hist, now) && InOrder(hist, es, d)
    ensures FleetInv(hist, GatedRun(hist, es, d).latest, GatedFleet(hist, es, m), FullFleet(hist, es, m), Position(es))
  {
    hide Happens, ProcessOf, EarnedSteady, Meaningful, ServeSchedule, Gated;
    if es == [] {
      forall id: string ensures EarnedSteady(hist, map[], m, 0, id) {
        NothingEarned(hist, m, 0, id);
      }
    } else {
      var n := |es| - 1;
      var e, before := es[n], es[..n];
      RunKeepsFleet(hist, now, before, d, m);
      var c := GatedRun(hist, before, d);
      var g, f := GatedFleet(hist, before, m), FullFleet(hist, before, m);
      StepKeepsFleet(hist, now, c, g, f, Position(before), e);
    }
  }

  lemma NothingEarned(hist: seq<Config>, m: Fleet, upTo: nat, id: string)
    ensures EarnedSteady(hist, map[], m, upTo, id)
  {
  }

  lemma StepKeepsFleet(hist: seq<Config>, now: nat, c: Client, g: Fleet, f: Fleet, upTo: nat, e: Event)
    requires Meaningful(hist, now) && Happens(hist, e, c, upTo) && FleetInv(hist, c.latest, g, f, upTo)
    ensures
      var h := if e.Poll? then ServeSchedule(g, e.gated) else g;
      var k := if e.Poll? then ServeSchedule(f, e.full) else f;
      FleetInv(hist, Gated(hist, e, c).latest, h, k, if e.Poll? then e.at else upTo)
  {
    hide ProcessOf, EarnedSteady, Meaningful, ServeSchedule;
    if e.Poll? {
      hide Gated;
      forall id: string
        ensures ProcessOf(ServeSchedule(g, e.gated), id) == ProcessOf(ServeSchedule(f, e.full), id)
        ensures EarnedSteady(hist, Gated(hist, e, c).latest, ServeSchedule(g, e.gated), e.at, id)
      {
        if k: nat :| k < |hist[e.at].channels| && IdOf(hist[e.at].channels[k]) == id {
          PollOneProcess(hist, now, c, g, f, upTo, e, k);
        } else {
          PollOtherProcess(hist, now, c, g, f, upTo, e, id);
        }
      }
    } else {
      forall id: string ensures EarnedSteady(hist, map[], g, upTo, id) {
        NothingEarned(hist, g, upTo, id);
      }
    }
  }

  /** Gating refines re-applying for the encoder's processes too: over the same runs, every channel has the same
      connection and runs or rests alike under the loop that skips and the one that applies everything. */
  lemma GatingRefinesProcesses(updates: seq<HostConfig.Update>, now: nat, es: seq<Event>, d: Device, m: Fleet,
                               id: string)
    requires HostConfig.AllAdmissible(updates, now)
    requires
      var (hist, _) := HostConfig.Run(updates, now);
      && (forall i, j | 0 <= i < |hist| && 0 <= j < |hist[i].channels| :: "state" in hist[i].channels[j])
      && InOrder(hist, es, d)
    ensures
      var (hist, _) := HostConfig.Run(updates, now);
      ProcessOf(GatedFleet(hist, es, m), id) == ProcessOf(FullFleet(hist, es, m), id)
  {
    var (hist, clock) := HostConfig.Run(updates, now);
    HostConfig.VersionsIdentifyContent(updates, now);
    RunKeepsFleet(hist, clock, es, d, m);
    hide ProcessOf, GatedFleet, FullFleet, EarnedSteady;
    assert FleetInv(hist, GatedRun(hist, es, d).latest, GatedFleet(hist, es, m), FullFleet(hist, es, m), Position(es));
  }

  /** And so for the loop itself: the processes that its workers drive, in any interleaving that ends each poll with
      all of them returned, are as re-applying everything leaves them. */
  lemma LoopRefinesProcesses(updates: seq<HostConfig.Update>, now: nat, es: seq<Polls.Event>, d: Device, m: Fleet,
                             id: string)
    requires HostConfig.AllAdmissible(updates, now)
    requires
      var (hist, _) := HostConfig.Run(updates, now);
      && (forall i, j | 0 <= i < |hist| && 0 <= j < |hist[i].channels| :: "state" in hist[i].channels[j])
      && Polls.InOrder(hist, es, d)
    ensures
      var (hist, _) := HostConfig.Run(updates, now);
      ProcessOf(LoopFleet(hist, es, d, m), id) == ProcessOf(ReapplyingFleet(es, m), id)
  {
    var (hist, clock) := HostConfig.Run(updates, now);
    HostConfig.VersionsIdentifyContent(updates, now);
    forall i | 0 <= i < |hist| ensures HostConfig.DistinctIds(hist[i].channels) {
      assert HostConfig.Stored(hist[i], clock);
    }
    Polls.AbstractionHolds(hist, es, d);
    FleetsAreThose(hist, es, d, m);
    hide Polls.Abstract, GatedFleet, FullFleet, ProcessOf;
    GatingRefinesProcesses(updates, now, Polls.Abstract(hist, es, d), d, m, id);
  }

  // The processes after the callbacks that the workers of each poll made.
  function LoopFleet(hist: seq<Config>, es: seq<Polls.Event>, d: Device, m: Fleet): Fleet {
    if es == [] then m
    else
      var before := es[..|es| - 1];
      var g := LoopFleet(hist, before, d, m);
      match es[|es| - 1]
      case PollRun(_, _, steps, _) => ServeSchedule(g, Polls.Made(Polls.LoopAfter(hist, before, d), steps))
      case Reset => g
  }

  function ReapplyingFleet(es: seq<Polls.Event>, m: Fleet): Fleet {
    if es == [] then m
    else
      var f := ReapplyingFleet(es[..|es| - 1], m);
      match es[|es| - 1]
      case PollRun(_, _, _, full) => ServeSchedule(f, full)
      case Reset => f
  }

  lemma {:induction false} FleetsAreThose(hist: seq<Config>, es: seq<Polls.Event>, d: Device, m: Fleet)
    ensures
      var gs := Polls.Abstract(hist, es, d);
      LoopFleet(hist, es, d, m) == GatedFleet(hist, gs, m) && ReapplyingFleet(es, m) == FullFleet(hist, gs, m)
  {
    if es == [] {
    } else {
      var before := es[..|es| - 1];
      FleetsAreThose(hist, before, d, m);
      var gs := Polls.Abstract(hist, es, d);
      assert gs[..|gs| - 1] == Polls.Abstract(hist, before, d);
      hide ServeSchedule, Polls.Made, Polls.LoopAfter;
    }
  }
}
