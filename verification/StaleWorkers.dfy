/** What a cancelled worker may still do to its channel, and exactly when that does harm. */
module StaleWorkers {
  import opened Option
  import opened Wire
  import opened Device
  import opened Workers

  // ----- callbacks and the places they write to -----

  predicate SameSlot(a: Callback, b: Callback) {
    match a
    case SetSetting(k, _) => b.SetSetting? && b.key == k
    case SetProfile(_) => b.SetProfile?
    case SetConnection(_) => b.SetConnection?
    case SetState(_) => b.SetState?
  }

  // The device holds what the callback writes.
  predicate Holds(cd: ChannelDevice, c: Callback) {
    match c
    case SetSetting(k, v) => k in cd.settings && cd.settings[k] == v
    case SetProfile(p) => cd.profile == Some(p)
    case SetConnection(p) => cd.connection == p
    case SetState(s) => cd.state == s
  }

  // The p-th callback is the last one to its place.
  ghost predicate IsLast(cs: seq<Callback>, p: int) {
    0 <= p < |cs| && forall q | p < q < |cs| :: !SameSlot(cs[q], cs[p])
  }

  // Whatever the channel configuration finally writes where c writes, it writes the same.
  ghost predicate Harmless(c: Callback, ch: Channel) {
    forall p | IsLast(Callbacks(ch), p) && SameSlot(Callbacks(ch)[p], c) :: Callbacks(ch)[p] == c
  }

  lemma DoHolds(cd: ChannelDevice, c: Callback, other: Callback)
    ensures Holds(Do(cd, c), c)
    ensures !SameSlot(c, other) ==> (Holds(Do(cd, c), other) <==> Holds(cd, other))
    ensures SameSlot(c, other) && Holds(Do(cd, c), other) ==> c == other
  {
  }

  lemma OneValue(cd: ChannelDevice, a: Callback, b: Callback)
    requires SameSlot(a, b) && Holds(cd, a) && Holds(cd, b)
    ensures a == b
  {
  }

  lemma SlotsAreClasses(a: Callback, b: Callback, c: Callback)
    ensures SameSlot(a, a)
    ensures SameSlot(a, b) ==> SameSlot(b, a)
    ensures SameSlot(a, b) && SameSlot(b, c) ==> SameSlot(a, c)
  {
  }

  lemma {:induction false} SomeLast(cs: seq<Callback>, p: nat) returns (l: nat)
    requires p < |cs|
    ensures IsLast(cs, l) && SameSlot(cs[l], cs[p])
    decreases |cs| - p
  {
    SlotsAreClasses(cs[p], cs[p], cs[p]);
    if q: nat :| p < q < |cs| && SameSlot(cs[q], cs[p]) {
      l := SomeLast(cs, q);
      SlotsAreClasses(cs[l], cs[q], cs[p]);
    } else {
      l := p;
    }
  }

  lemma OneLast(cs: seq<Callback>, p: int, q: int)
    requires IsLast(cs, p) && IsLast(cs, q) && SameSlot(cs[p], cs[q])
    ensures p == q
  {
    SlotsAreClasses(cs[p], cs[q], cs[p]);
  }

  // ----- reflecting a channel, callback by callback -----

  // The entry that gives a key its value is the last one for the key.
  lemma {:induction false} LastEntryOf(kvs: seq<KeyValue>, k: string) returns (p: nat)
    requires LastValue(kvs, k).Some? || exists i :: 0 <= i < |kvs| && kvs[i].id == k
    ensures p < |kvs| && LastValue(kvs, k) == Some(kvs[p].value) && kvs[p].id == k
    ensures forall q | p < q < |kvs| :: kvs[q].id != k
  {
    var n := |kvs| - 1;
    if kvs[n].id == k {
      p := n;
    } else {
      if i :| 0 <= i < |kvs| && kvs[i].id == k {
        assert kvs[..n][i].id == k;
      }
      p := LastEntryOf(kvs[..n], k);
      forall q | p < q < |kvs| ensures kvs[q].id != k {
        if q < n {
          assert kvs[..n][q] == kvs[q];
        }
      }
    }
  }

  // Where the callbacks of a channel stand.
  lemma CallbacksAt(ch: Channel)
    ensures
      var (s, cs) := (SettingsOf(ch), Callbacks(ch));
      var first := if s.Standard? then |s.kvs| else if s.ByProfile? then 1 else 0;
      var n := |cs| - 1;
      && cs[n] == SetState(Get(ch, "state"))
      && n == first + (if Get(ch, "protocol").Protocol? then 1 else 0)
      && (Get(ch, "protocol").Protocol? ==> cs[first] == SetConnection(ch["protocol"]))
      && (s.ByProfile? ==> cs[0] == SetProfile(s.profile))
      && (s.Standard? ==> forall i | 0 <= i < |s.kvs| :: cs[i] == SetSetting(s.kvs[i].id, s.kvs[i].value))
  {
  }

  ghost predicate HoldsLasts(cd: ChannelDevice, cs: seq<Callback>) {
    forall p | IsLast(cs, p) :: Holds(cd, cs[p])
  }

  // The last entry of a list of settings for a key is its last callback for it.
  lemma LastSetting(ch: Channel, p: nat)
    requires SettingsOf(ch).Standard? && p < |SettingsOf(ch).kvs|
    ensures
      var kvs := SettingsOf(ch).kvs;
      IsLast(Callbacks(ch), p) <==> forall q | p < q < |kvs| :: kvs[q].id != kvs[p].id
  {
    CallbacksAt(ch);
    var kvs, cs := SettingsOf(ch).kvs, Callbacks(ch);
    hide Callbacks;
    if forall q | p < q < |kvs| :: kvs[q].id != kvs[p].id {
      assert forall q | p < q < |cs| :: !SameSlot(cs[q], cs[p]);
    }
    if IsLast(cs, p) {
      forall q | p < q < |kvs| ensures kvs[q].id != kvs[p].id {
        assert !SameSlot(cs[q], cs[p]);
      }
    }
  }

  lemma HoldsLastsReflects(cd: ChannelDevice, ch: Channel)
    requires HoldsLasts(cd, Callbacks(ch))
    ensures Reflects(cd, ch)
  {
    var s, cs := SettingsOf(ch), Callbacks(ch);
    CallbacksAt(ch);
    assert IsLast(cs, |cs| - 1);
    if Get(ch, "protocol").Protocol? {
      assert IsLast(cs, |cs| - 2);
    }
    if s.ByProfile? {
      assert IsLast(cs, 0);
    }
    if s.Standard? {
      forall k: string | LastValue(s.kvs, k).Some?
        ensures k in cd.settings && cd.settings[k] == LastValue(s.kvs, k).value
      {
        var p := LastEntryOf(s.kvs, k);
        LastSetting(ch, p);
        assert cs[p] == SetSetting(k, s.kvs[p].value);
      }
    }
  }

  lemma ReflectsHoldsLasts(cd: ChannelDevice, ch: Channel)
    requires Reflects(cd, ch)
    ensures HoldsLasts(cd, Callbacks(ch))
  {
    var s, cs := SettingsOf(ch), Callbacks(ch);
    CallbacksAt(ch);
    hide Callbacks;
    forall p: nat | IsLast(cs, p) ensures Holds(cd, cs[p]) {
      if s.Standard? && p < |s.kvs| {
        var k := s.kvs[p].id;
        var l := LastEntryOf(s.kvs, k);
        LastSetting(ch, p);
        assert l == p;
      }
    }
  }

  // ----- the new worker among stale ones -----

  // What a cancelled worker can still make.
  function Owes(w: Worker): seq<Callback> {
    if w.stage.Applying? && |w.ran| <= |ConfigCallbacks(w.ch)| then ConfigCallbacks(w.ch)[|w.ran|..]
    else if w.stage.Driving? then [SetState(Get(w.ch, "state"))]
    else []
  }

  lemma OwesLess(w: Worker, latest: map<string, Json>)
    requires Diligent(w) && w.cancelled
    ensures
      var v := Advance(w, latest);
      && (forall c | c in Owes(v) :: c in Owes(w))
      && (v.ran != w.ran ==> |v.ran| == |w.ran| + 1 && v.ran[|w.ran|] in Owes(w))
      && (v.ran == w.ran || |w.ran| < |v.ran|)
  {
    hide ConfigCallbacks;
    var config := ConfigCallbacks(w.ch);
    if w.stage.Applying? && |w.ran| < |config| {
      assert config[|w.ran|..][0] == config[|w.ran|];
      assert config[|w.ran|..][1..] == config[|w.ran| + 1..];
    }
  }

  // After n of its callbacks, each place written so far holds what was last written there, or what will be.
  ghost predicate Underway(cd: ChannelDevice, cs: seq<Callback>, n: nat)
    requires n <= |cs|
  {
    forall p | 0 <= p < n && IsLast(cs[..n], p) :: HoldsOrWill(cd, cs, p)
  }

  ghost predicate HoldsOrWill(cd: ChannelDevice, cs: seq<Callback>, p: nat)
    requires p < |cs|
  {
    Holds(cd, cs[p]) || exists l :: IsLast(cs, l) && SameSlot(cs[l], cs[p]) && Holds(cd, cs[l])
  }

  lemma LastInPrefix(cs: seq<Callback>, n: nat, p: int)
    requires n < |cs| && IsLast(cs[..n + 1], p) && p < n
    ensures IsLast(cs[..n], p) && !SameSlot(cs[n], cs[p])
  {
    assert !SameSlot(cs[..n + 1][n], cs[..n + 1][p]);
    forall q | p < q < n ensures !SameSlot(cs[..n][q], cs[..n][p]) {
      assert cs[..n][q] == cs[..n + 1][q];
    }
  }

  // Writing elsewhere leaves what p holds, or will hold, in place.
  lemma ElsewhereKeeps(cd: ChannelDevice, cs: seq<Callback>, c: Callback, p: nat)
    requires p < |cs| && !SameSlot(c, cs[p]) && HoldsOrWill(cd, cs, p)
    ensures HoldsOrWill(Do(cd, c), cs, p)
  {
    DoHolds(cd, c, cs[p]);
    if !Holds(cd, cs[p]) {
      var l :| IsLast(cs, l) && SameSlot(cs[l], cs[p]) && Holds(cd, cs[l]);
      SlotsAreClasses(c, cs[l], cs[p]);
      DoHolds(cd, c, cs[l]);
    }
  }

  lemma OwnCallback(cd: ChannelDevice, cs: seq<Callback>, n: nat)
    requires n < |cs| && Underway(cd, cs, n)
    ensures Underway(Do(cd, cs[n]), cs, n + 1)
  {
    hide IsLast, SameSlot, Holds, Do;
    var e := Do(cd, cs[n]);
    DoHolds(cd, cs[n], cs[n]);
    forall p | 0 <= p < n + 1 && IsLast(cs[..n + 1], p)
      ensures HoldsOrWill(e, cs, p)
    {
      if p < n {
        LastInPrefix(cs, n, p);
        ElsewhereKeeps(cd, cs, cs[n], p);
      }
    }
  }

  lemma StaleCallback(cd: ChannelDevice, ch: Channel, n: nat, c: Callback)
    requires n <= |Callbacks(ch)| && Underway(cd, Callbacks(ch), n) && Harmless(c, ch)
    ensures Underway(Do(cd, c), Callbacks(ch), n)
  {
    var cs := Callbacks(ch);
    hide Callbacks;
    var e := Do(cd, c);
    forall p | 0 <= p < n && IsLast(cs[..n], p)
      ensures HoldsOrWill(e, cs, p)
    {
      DoHolds(cd, c, cs[p]);
      var l := SomeLast(cs, p);
      SlotsAreClasses(c, cs[p], cs[l]);
      SlotsAreClasses(cs[l], cs[p], c);
      DoHolds(cd, c, cs[l]);
      if !SameSlot(c, cs[p]) && !Holds(cd, cs[p]) {
        var k :| IsLast(cs, k) && SameSlot(cs[k], cs[p]) && Holds(cd, cs[k]);
        SlotsAreClasses(cs[k], cs[p], cs[l]);
        SlotsAreClasses(cs[l], cs[p], cs[k]);
        OneLast(cs, k, l);
      }
    }
  }

  lemma UnderwayEnds(cd: ChannelDevice, cs: seq<Callback>)
    requires Underway(cd, cs, |cs|)
    ensures HoldsLasts(cd, cs)
  {
    assert cs[..|cs|] == cs;
    forall p | IsLast(cs, p) ensures Holds(cd, cs[p]) {
      if l :| IsLast(cs, l) && SameSlot(cs[l], cs[p]) && Holds(cd, cs[l]) {
        OneLast(cs, l, p);
      }
    }
  }

  // The n-th callback of a worker that was not given up is the n-th of its channel.
  lemma OwnAdvance(w: Worker, latest: map<string, Json>)
    requires Diligent(w) && !w.stage.Abandoned?
    ensures w.ran <= Callbacks(w.ch)
    ensures
      var v := Advance(w, latest);
      v.ran == w.ran || (|w.ran| < |Callbacks(w.ch)| && v.ran == w.ran + [Callbacks(w.ch)[|w.ran|]])
  {
    hide ConfigCallbacks;
  }

  // No worker of the channel but number i can write anything the channel configuration would not.
  ghost predicate RivalsHarmless(k: Loop, ch: Channel, i: nat) {
    forall j | 0 <= j < |k.workers| && j != i && IdOf(k.workers[j].ch) == IdOf(ch) ::
      k.workers[j].cancelled && Diligent(k.workers[j]) && forall c | c in Owes(k.workers[j]) :: Harmless(c, ch)
  }

  ghost predicate Going(k: Loop, ch: Channel, i: nat) {
    && i < |k.workers| && k.workers[i].ch == ch && Diligent(k.workers[i]) && RivalsHarmless(k, ch, i)
    && (k.workers[i].stage.Abandoned?
        || (k.workers[i].ran <= Callbacks(ch)
            && Underway(ChannelOf(k.device, IdOf(ch)), Callbacks(ch), |k.workers[i].ran|)))
  }

  lemma GoingWorks(k: Loop, ch: Channel, i: nat, j: nat)
    requires Going(k, ch, i) && j < |k.workers|
    ensures Going(WorkerStep(k, j), ch, i)
  {
    hide Advance, ConfigCallbacks, Callbacks, Underway, Harmless, Owes, Diligent;
    var w := k.workers[j];
    var v := Advance(w, k.latest);
    var cd := ChannelOf(k.device, IdOf(ch));
    AdvanceKeeps(w, k.latest);
    if j == i {
      if !w.stage.Abandoned? {
        OwnAdvance(w, k.latest);
        if v.ran != w.ran {
          OwnCallback(cd, Callbacks(ch), |w.ran|);
        }
      } else {
        AbandonedStays(w, k.latest);
      }
    } else if IdOf(w.ch) == IdOf(ch) {
      OwesLess(w, k.latest);
      if v.ran != w.ran && !k.workers[i].stage.Abandoned? {
        StaleCallback(cd, ch, |k.workers[i].ran|, v.ran[|w.ran|]);
      }
    }
  }

  lemma AbandonedStays(w: Worker, latest: map<string, Json>)
    requires w.stage.Abandoned?
    ensures Advance(w, latest) == w
  {
  }

  lemma GoingStep(k: Loop, ch: Channel, i: nat, s: Step)
    requires Going(k, ch, i) && (s.StartWork? ==> IdOf(s.ch) != IdOf(ch))
    ensures Going(Take(k, s), ch, i)
  {
    hide Advance, ConfigCallbacks, Callbacks, Underway, Harmless, WorkerStep;
    match s
    case StartWork(_) =>
    case Work(j) =>
      if j < |k.workers| {
        GoingWorks(k, ch, i, j);
      } else {
        NoWorker(k, j);
      }
    case SeeConfig(_) =>
    case ApplySettings(_) =>
    case Beat =>
    case StopAll =>
    case ForgetAll =>
  }

  lemma NoWorker(k: Loop, j: nat)
    requires j >= |k.workers|
    ensures WorkerStep(k, j) == k
  {
  }

  // ----- exactly when the channel is served -----

  ghost predicate StartsNone(steps: seq<Step>, id: string) {
    forall k | 0 <= k < |steps| && steps[k].StartWork? :: IdOf(steps[k].ch) != id
  }

  // If the worker started for ch has finished, the channel reflects ch.
  ghost predicate Served(l: Loop, ch: Channel, steps: seq<Step>) {
    var m := Run(Dispatch(l, ch), steps);
    && |l.workers| < |m.workers|
    && (Finished(m.workers[|l.workers|].stage) ==> Reflects(ChannelOf(m.device, IdOf(ch)), ch))
  }

  // What the older workers of the channel may still do once ch is dispatched is harmless.
  ghost predicate OwedHarmless(l: Loop, ch: Channel) {
    forall j | 0 <= j < |l.workers| && IdOf(l.workers[j].ch) == IdOf(ch) ::
      forall c | c in Owes(Dispatch(l, ch).workers[j]) :: Harmless(c, ch)
  }

  lemma GoingStarts(l: Loop, ch: Channel)
    requires Exclusive(l) && (forall j | 0 <= j < |l.workers| :: Diligent(l.workers[j])) && OwedHarmless(l, ch)
    ensures Going(Dispatch(l, ch), ch, |l.workers|)
  {
    hide Harmless, Callbacks, ConfigCallbacks, Owes;
    var k := Dispatch(l, ch);
    DispatchKeepsExclusion(l, ch);
    forall j | 0 <= j < |k.workers| && j != |l.workers| && IdOf(k.workers[j].ch) == IdOf(ch)
      ensures k.workers[j].cancelled && Diligent(k.workers[j]) && forall c | c in Owes(k.workers[j]) :: Harmless(c, ch)
    {
      assert IdOf(l.workers[j].ch) == IdOf(ch);
    }
  }

  lemma {:induction false} GoingRuns(l: Loop, ch: Channel, steps: seq<Step>)
    requires Going(Dispatch(l, ch), ch, |l.workers|) && StartsNone(steps, IdOf(ch))
    ensures Going(Run(Dispatch(l, ch), steps), ch, |l.workers|)
  {
    hide Going, Dispatch, Take;
    if steps == [] {
    } else {
      var n := |steps| - 1;
      GoingRuns(l, ch, steps[..n]);
      GoingStep(Run(Dispatch(l, ch), steps[..n]), ch, |l.workers|, steps[n]);
    }
  }

  lemma GoingServes(k: Loop, ch: Channel, i: nat)
    requires Going(k, ch, i) && Finished(k.workers[i].stage)
    ensures Reflects(ChannelOf(k.device, IdOf(ch)), ch)
  {
    UnderwayEnds(ChannelOf(k.device, IdOf(ch)), Callbacks(ch));
    HoldsLastsReflects(ChannelOf(k.device, IdOf(ch)), ch);
  }

  // ----- the harm done -----

  function Works(i: nat, n: nat): seq<Step> {
    seq(n, _ => Work(i))
  }

  lemma WorksNext(k: Loop, i: nat, n: nat)
    ensures Run(k, Works(i, n + 1)) == WorkerStep(Run(k, Works(i, n)), i)
  {
    assert Works(i, n + 1)[..n] == Works(i, n);
  }

  lemma RunNothing(k: Loop, i: nat)
    ensures Run(k, Works(i, 0)) == k
  {
    assert Works(i, 0) == [];
  }

  // The others are untouched by the steps of one worker.
  ghost predicate OnlyMoved(k: Loop, m: Loop, i: nat) {
    |m.workers| == |k.workers| && forall j | 0 <= j < |k.workers| && j != i :: m.workers[j] == k.workers[j]
  }

  lemma OneApplies(k: Loop, i: nat)
    requires i < |k.workers| && k.workers[i].stage.Applying?
    requires |k.workers[i].ran| < |ConfigCallbacks(k.workers[i].ch)|
    ensures
      var w := k.workers[i];
      var c := ConfigCallbacks(w.ch)[|w.ran|];
      var m := WorkerStep(k, i);
      && OnlyMoved(k, m, i) && m.workers[i] == w.(ran := w.ran + [c])
      && ChannelOf(m.device, IdOf(w.ch)) == Do(ChannelOf(k.device, IdOf(w.ch)), c)
  {
    hide ConfigCallbacks;
  }

  lemma {:induction false} WorksApply(k: Loop, i: nat, n: nat)
    requires i < |k.workers| && k.workers[i].stage.Applying? && k.workers[i].ran <= ConfigCallbacks(k.workers[i].ch)
    requires |k.workers[i].ran| + n <= |ConfigCallbacks(k.workers[i].ch)|
    ensures
      var m := Run(k, Works(i, n));
      var w := k.workers[i];
      && OnlyMoved(k, m, i) && m.workers[i] == w.(ran := ConfigCallbacks(w.ch)[..|w.ran| + n])
      && (n > 0 ==> Holds(ChannelOf(m.device, IdOf(w.ch)), ConfigCallbacks(w.ch)[|w.ran| + n - 1]))
  {
    hide ConfigCallbacks, WorkerStep, Do, Holds, SameSlot;
    var w := k.workers[i];
    var config := ConfigCallbacks(w.ch);
    if n == 0 {
      assert Works(i, 0) == [] && config[..|w.ran|] == w.ran;
    } else {
      WorksApply(k, i, n - 1);
      WorksNext(k, i, n - 1);
      var m := Run(k, Works(i, n - 1));
      hide Run;
      OneApplies(m, i);
      DoHolds(ChannelOf(m.device, IdOf(w.ch)), config[|w.ran| + n - 1], config[|w.ran| + n - 1]);
      assert config[..|w.ran| + n - 1] + [config[|w.ran| + n - 1]] == config[..|w.ran| + n];
    }
  }

  // Left alone, a new worker finishes.
  lemma NewWorkerFinishes(k: Loop, i: nat)
    requires i < |k.workers| && k.workers[i] == Worker(k.workers[i].ch, Applying, false, [])
    ensures
      var m := Run(k, Works(i, |ConfigCallbacks(k.workers[i].ch)| + 3));
      OnlyMoved(k, m, i) && m.workers[i].ch == k.workers[i].ch && Finished(m.workers[i].stage)
  {
    hide ConfigCallbacks, Run, WorkerStep;
    var config := ConfigCallbacks(k.workers[i].ch);
    var n := |config|;
    WorksApply(k, i, n);
    WorksNext(k, i, n);
    WorksNext(k, i, n + 1);
    WorksNext(k, i, n + 2);
    var m := Run(k, Works(i, n));
    assert config[..n] == config && m.workers[i].stage == Applying && !m.workers[i].cancelled;
    OneStage(k, m, i);
    var m1 := WorkerStep(m, i);
    OneStage(k, m1, i);
    OneStage(k, WorkerStep(m1, i), i);
  }

  // A worker that is not cancelled goes from stage to stage.
  lemma OneStage(k: Loop, m: Loop, i: nat)
    requires OnlyMoved(k, m, i) && i < |m.workers| && !m.workers[i].cancelled
    requires m.workers[i].stage.Applying? ==> |m.workers[i].ran| == |ConfigCallbacks(m.workers[i].ch)|
    ensures
      var w, v := m.workers[i], WorkerStep(m, i).workers[i];
      && OnlyMoved(k, WorkerStep(m, i), i) && v.ch == w.ch && !v.cancelled
      && (w.stage == Applying ==> v.stage == Driving) && (w.stage == Driving ==> v.stage == Driven)
      && (w.stage == Driven ==> v.stage == Evaluated)
  {
    hide ConfigCallbacks, Call;
  }

  // A stale worker can be let run up to any callback it owes.
  lemma OwedIsMade(k: Loop, j: nat, c: Callback) returns (n: nat)
    requires j < |k.workers| && Diligent(k.workers[j]) && c in Owes(k.workers[j])
    ensures
      var m := Run(k, Works(j, n));
      OnlyMoved(k, m, j) && Holds(ChannelOf(m.device, IdOf(k.workers[j].ch)), c)
  {
    hide ConfigCallbacks, Callbacks, Do, Holds, SameSlot, Run;
    var w := k.workers[j];
    var config := ConfigCallbacks(w.ch);
    if w.stage.Applying? {
      var q :| 0 <= q < |config[|w.ran|..]| && config[|w.ran|..][q] == c;
      n := q + 1;
      WorksApply(k, j, n);
    } else {
      n := 1;
      WorksNext(k, j, 0);
      RunNothing(k, j);
      DoHolds(ChannelOf(k.device, IdOf(w.ch)), c, c);
    }
  }

  // Let the new worker finish and then a stale one make a callback that is not harmless.
  lemma HarmIsDone(l: Loop, ch: Channel, j: nat, c: Callback) returns (steps: seq<Step>)
    requires j < |l.workers| && IdOf(l.workers[j].ch) == IdOf(ch) && Diligent(Dispatch(l, ch).workers[j])
    requires c in Owes(Dispatch(l, ch).workers[j]) && !Harmless(c, ch)
    ensures StartsNone(steps, IdOf(ch)) && !Served(l, ch, steps)
  {
    hide Callbacks, Owes, ConfigCallbacks, Diligent, Run, Reflects, Holds, SameSlot;
    var k, i := Dispatch(l, ch), |l.workers|;
    var a := Works(i, |ConfigCallbacks(ch)| + 3);
    NewWorkerFinishes(k, i);
    var done := Run(k, a);
    assert done.workers[j] == k.workers[j];
    var n := OwedIsMade(done, j, c);
    steps := a + Works(j, n);
    RunConcat(k, a, Works(j, n));
    var m := Run(k, steps);
    assert m.workers[i] == done.workers[i];
    var p :| IsLast(Callbacks(ch), p) && SameSlot(Callbacks(ch)[p], c) && Callbacks(ch)[p] != c;
    if Reflects(ChannelOf(m.device, IdOf(ch)), ch) {
      ReflectsHoldsLasts(ChannelOf(m.device, IdOf(ch)), ch);
      OneValue(ChannelOf(m.device, IdOf(ch)), Callbacks(ch)[p], c);
    }
  }

  /** A newly dispatched channel is served in every interleaving that starts no further worker for it, exactly when
      everything the cancelled workers of the channel may still write is what the new configuration writes there. */
  lemma StaleWritesDecide(l: Loop, ch: Channel)
    requires Exclusive(l) && forall j | 0 <= j < |l.workers| :: Diligent(l.workers[j])
    ensures (forall steps | StartsNone(steps, IdOf(ch)) :: Served(l, ch, steps)) <==> OwedHarmless(l, ch)
  {
    hide Run, Harmless, Owes, Diligent, Callbacks, ConfigCallbacks, Reflects;
    if OwedHarmless(l, ch) {
      GoingStarts(l, ch);
      forall steps | StartsNone(steps, IdOf(ch)) ensures Served(l, ch, steps) {
        GoingRuns(l, ch, steps);
        var m := Run(Dispatch(l, ch), steps);
        if Finished(m.workers[|l.workers|].stage) {
          GoingServes(m, ch, |l.workers|);
        }
      }
    } else {
      var j :| 0 <= j < |l.workers| && IdOf(l.workers[j].ch) == IdOf(ch)
        && exists c :: c in Owes(Dispatch(l, ch).workers[j]) && !Harmless(c, ch);
      var c :| c in Owes(Dispatch(l, ch).workers[j]) && !Harmless(c, ch);
      CancelKeepsDiligent(l, ch, j);
      var steps := HarmIsDone(l, ch, j, c);
    }
  }

  // In every reachable state of the loop.
  lemma StaleWritesDecideAlways(d: Device, before: seq<Step>, ch: Channel)
    ensures
      var l := Run(Initial(d), before);
      (forall steps | StartsNone(steps, IdOf(ch)) :: Served(l, ch, steps)) <==> OwedHarmless(l, ch)
  {
    hide Served, OwedHarmless, StartsNone;
    RunIsExclusive(d, before);
    RunIsHonest(d, before);
    StaleWritesDecide(Run(Initial(d), before), ch);
  }

  lemma CancelKeepsDiligent(l: Loop, ch: Channel, j: nat)
    requires j < |l.workers| && Diligent(l.workers[j])
    ensures Diligent(Dispatch(l, ch).workers[j])
  {
  }
}
