/** The publish throttle: at most a fixed number of publishes in any ten seconds. */
module Throttling {

  const WINDOW_SECONDS := 10

  // Go divides positive integers by truncation.
  function MaxPublish(interval: int): int {
    var perWindow := WINDOW_SECONDS / (if interval > 1 then interval else 1);
    if perWindow < 5 then 5 else perWindow
  }

  // The lower bound swallows every interval above one second: there are only two limits.
  lemma OnlyTwoLimits(interval: int)
    ensures MaxPublish(interval) == if interval <= 1 then 10 else 5
  {
    if interval > 1 {
      assert WINDOW_SECONDS / interval <= WINDOW_SECONDS / 2;
    }
  }

  predicate Ordered(times: seq<int>) {
    forall i, j | 0 <= i < j < |times| :: times[i] <= times[j]
  }

  // The publishes in the half-open window of ten seconds that ends at, and includes, `now`.
  function InWindow(history: seq<int>, now: int): seq<int> {
    if history == [] then []
    else if history[0] <= now - WINDOW_SECONDS || history[0] > now then InWindow(history[1..], now)
    else [history[0]] + InWindow(history[1..], now)
  }

  // The window keeps every publish of the last ten seconds, as often as it happened, and nothing else.
  lemma {:induction false} InWindowCounts(history: seq<int>, now: int, t: int)
    ensures multiset(InWindow(history, now))[t] == if now - 10 < t <= now then multiset(history)[t] else 0
  {
    if history == [] {
    } else {
      InWindowCounts(history[1..], now, t);
      assert history == [history[0]] + history[1..];
    }
  }

  // What a throttle with a perfect memory answers.
  predicate Allowed(history: seq<int>, limit: int, now: int) {
    |InWindow(history, now)| < limit
  }

  // All of these have left the window that ends at `now`.
  predicate Stale(gone: seq<int>, now: int) {
    forall i | 0 <= i < |gone| :: gone[i] <= now - WINDOW_SECONDS
  }

  predicate Recent(rest: seq<int>, now: int) {
    forall i | 0 <= i < |rest| :: now - WINDOW_SECONDS < rest[i] <= now
  }

  // The history after a request for each of the given clock readings.
  function Publishes(clock: seq<int>, limit: int): seq<int> {
    if clock == [] then []
    else
      var before := Publishes(clock[..|clock| - 1], limit);
      var now := clock[|clock| - 1];
      if Allowed(before, limit, now) then before + [now] else before
  }

  lemma {:induction false} WindowOfSum(a: seq<int>, b: seq<int>, now: int)
    ensures InWindow(a + b, now) == InWindow(a, now) + InWindow(b, now)
  {
    if a == [] {
      assert a + b == b;
    } else {
      assert (a + b)[1..] == a[1..] + b;
      WindowOfSum(a[1..], b, now);
    }
  }

  lemma {:induction false} NothingInWindow(a: seq<int>, now: int)
    requires forall i | 0 <= i < |a| :: a[i] <= now - WINDOW_SECONDS || a[i] > now
    ensures InWindow(a, now) == []
  {
    if a == [] {
    } else {
      NothingInWindow(a[1..], now);
    }
  }

  lemma {:induction false} AllInWindow(a: seq<int>, now: int)
    requires forall i | 0 <= i < |a| :: now - WINDOW_SECONDS < a[i] <= now
    ensures InWindow(a, now) == a
  {
    if a == [] {
    } else {
      AllInWindow(a[1..], now);
    }
  }

  // A window that ends after the last publish holds no more than the one that ends with it.
  lemma {:induction false} LaterWindowHoldsLess(a: seq<int>, now: int, later: int)
    requires now <= later && forall i | 0 <= i < |a| :: a[i] <= now
    ensures |InWindow(a, later)| <= |InWindow(a, now)|
  {
    if a == [] {
    } else {
      LaterWindowHoldsLess(a[1..], now, later);
    }
  }

  lemma {:induction false} PublishesAreReadings(clock: seq<int>, limit: int)
    requires Ordered(clock)
    ensures Ordered(Publishes(clock, limit))
    ensures forall i | 0 <= i < |Publishes(clock, limit)| ::
        clock != [] && Publishes(clock, limit)[i] <= clock[|clock| - 1]
  {
    if clock == [] {
    } else {
      var shorter := clock[..|clock| - 1];
      PublishesAreReadings(shorter, limit);
      assert shorter != [] ==> shorter[|shorter| - 1] <= clock[|clock| - 1];
    }
  }

  lemma OneMoreReading(clock: seq<int>, limit: int, now: int)
    requires Ordered(clock) && (clock != [] ==> clock[|clock| - 1] <= now)
    ensures Ordered(clock + [now])
    ensures
      var before := Publishes(clock, limit);
      Publishes(clock + [now], limit) == if Allowed(before, limit, now) then before + [now] else before
  {
    assert (clock + [now])[..|clock|] == clock;
  }

  lemma OnePublishMore(clock: seq<int>, limit: int, now: int)
    requires Ordered(clock) && (clock != [] ==> clock[|clock| - 1] <= now)
    ensures
      var before := Publishes(clock, limit);
      Ordered(before) && (before != [] ==> before[|before| - 1] <= now) && Ordered(before + [now])
  {
    PublishesAreReadings(clock, limit);
  }

  /** No half-open window of ten seconds, wherever it ends, ever holds more than the limit. */
  lemma {:induction false} WindowsAreBounded(clock: seq<int>, limit: nat, end: int)
    requires Ordered(clock)
    ensures |InWindow(Publishes(clock, limit), end)| <= limit
  {
    if clock == [] {
    } else {
      var shorter := clock[..|clock| - 1];
      var before := Publishes(shorter, limit);
      var now := clock[|clock| - 1];
      WindowsAreBounded(shorter, limit, end);
      PublishesAreReadings(shorter, limit);
      if Allowed(before, limit, now) {
        WindowOfSum(before, [now], end);
        if end - WINDOW_SECONDS < now <= end {
          LaterWindowHoldsLess(before, now, end);
        }
      }
    }
  }

  // In order, nothing after the first recent publish has left the window.
  lemma RestIsRecent(gone: seq<int>, rest: seq<int>, now: int)
    requires Ordered(gone + rest)
    requires rest != [] ==> now - WINDOW_SECONDS < rest[0] && rest[|rest| - 1] <= now
    ensures Recent(rest, now)
  {
    var all := gone + rest;
    forall i | 0 <= i < |rest| ensures now - WINDOW_SECONDS < rest[i] <= now {
      assert rest[0] == all[|gone|] && rest[i] == all[|gone| + i] && rest[|rest| - 1] == all[|all| - 1];
    }
  }

  lemma Pruned(gone: seq<int>, rest: seq<int>, now: int)
    requires Stale(gone, now) && Recent(rest, now)
    ensures InWindow(gone + rest, now) == rest
  {
    NothingInWindow(gone, now);
    AllInWindow(rest, now);
    WindowOfSum(gone, rest, now);
  }

  lemma OneMoreRecent(rest: seq<int>, now: int)
    requires Recent(rest, now)
    ensures Recent(rest + [now], now)
  {
  }

  // The list kept is the history without its first publishes, which had left the window by the last request.
  ghost predicate Represents(times: seq<int>, gone: seq<int>, clock: seq<int>, limit: int) {
    && Ordered(clock) && Publishes(clock, limit) == gone + times
    && (gone != [] ==> clock != [] && Stale(gone, clock[|clock| - 1]))
  }

  lemma RepresentsMeans(times: seq<int>, gone: seq<int>, clock: seq<int>, limit: int, now: int)
    requires Represents(times, gone, clock, limit) && (clock != [] ==> clock[|clock| - 1] <= now)
    ensures Ordered(clock) && Publishes(clock, limit) == gone + times && Stale(gone, now)
  {
  }

  lemma StaleTogether(a: seq<int>, b: seq<int>, now: int)
    requires Stale(a, now) && Stale(b, now)
    ensures Stale(a + b, now)
  {
  }

  lemma Regroup(a: seq<int>, b: seq<int>, c: seq<int>)
    ensures (a + b) + c == a + (b + c)
  {
  }

  lemma RepresentsNext(times: seq<int>, gone: seq<int>, clock: seq<int>, limit: int, now: int)
    requires Ordered(clock + [now]) && Publishes(clock + [now], limit) == gone + times && Stale(gone, now)
    ensures Represents(times, gone, clock + [now], limit)
  {
    hide Publishes, Ordered, Stale;
  }

  // Dropping stale entries leaves exactly the window.
  lemma DroppingLeavesWindow(old_: seq<int>, rest: seq<int>, gone: seq<int>, clock: seq<int>, limit: int, now: int)
    requires Represents(old_ + rest, gone, clock, limit) && (clock != [] ==> clock[|clock| - 1] <= now)
    requires Stale(old_, now) && (rest != [] ==> now - WINDOW_SECONDS < rest[0])
    ensures
      var before := Publishes(clock, limit);
      && before == (gone + old_) + rest && Stale(gone + old_, now) && Recent(rest, now) && InWindow(before, now) == rest
  {
    hide Publishes, InWindow, Stale, Ordered, Recent;
    var before := Publishes(clock, limit);
    RepresentsMeans(old_ + rest, gone, clock, limit, now);
    Regroup(gone, old_, rest);
    StaleTogether(gone, old_, now);
    OnePublishMore(clock, limit, now);
    assert rest != [] ==> rest[|rest| - 1] == before[|before| - 1];
    RestIsRecent(gone + old_, rest, now);
    Pruned(gone + old_, rest, now);
  }

  // The request then adds its own time, or nothing.
  lemma RequestKeepsList(old_: seq<int>, rest: seq<int>, gone: seq<int>, clock: seq<int>, limit: int, now: int)
    requires Represents(old_ + rest, gone, clock, limit) && (clock != [] ==> clock[|clock| - 1] <= now)
    requires Stale(old_, now) && (rest != [] ==> now - WINDOW_SECONDS < rest[0])
    ensures InWindow(Publishes(clock, limit), now) == rest
    ensures
      var after := if |rest| < limit then Publishes(clock, limit) + [now] else Publishes(clock, limit);
      var kept := if |rest| < limit then rest + [now] else rest;
      && Publishes(clock + [now], limit) == after && InWindow(after, now) == kept
      && Represents(kept, gone + old_, clock + [now], limit)
  {
    var before, out := Publishes(clock, limit), gone + old_;
    RepresentsMeans(old_ + rest, gone, clock, limit, now);
    DroppingLeavesWindow(old_, rest, gone, clock, limit, now);
    OneMoreReading(clock, limit, now);
    hide Publishes, InWindow, Stale, Ordered, Recent, Represents;
    if |rest| < limit {
      OneMoreRecent(rest, now);
      Regroup(out, rest, [now]);
      Pruned(out, rest + [now], now);
      RepresentsNext(rest + [now], out, clock, limit, now);
    } else {
      RepresentsNext(rest, out, clock, limit, now);
    }
  }

  // ----- the throttle as it is, whatever the clock does -----

  // What the loop keeps: everything from the first recent publish on.
  function Kept(times: seq<int>, now: int): (k: seq<int>)
    ensures |k| <= |times|
  {
    if times == [] then [] else if times[0] <= now - WINDOW_SECONDS then Kept(times[1..], now) else times
  }

  function Dropped(times: seq<int>, now: int): seq<int> {
    times[..|times| - |Kept(times, now)|]
  }

  lemma {:induction false} KeptAfter(times: seq<int>, now: int, i: nat)
    requires i <= |times| && Stale(times[..i], now) && (i < |times| ==> now - WINDOW_SECONDS < times[i])
    ensures Kept(times, now) == times[i..] && Dropped(times, now) == times[..i]
  {
    if i == 0 {
    } else {
      assert times[..i][0] == times[0];
      var rest := times[1..][..i - 1];
      forall j | 0 <= j < |rest| ensures rest[j] <= now - WINDOW_SECONDS {
        assert rest[j] == times[..i][j + 1];
      }
      KeptAfter(times[1..], now, i - 1);
    }
  }

  lemma {:induction false} DroppedAreStale(times: seq<int>, now: int)
    ensures
      var i := |Dropped(times, now)|;
      && times == Dropped(times, now) + Kept(times, now) && Stale(Dropped(times, now), now)
      && (i < |times| ==> now - WINDOW_SECONDS < times[i])
  {
    if times == [] || times[0] > now - WINDOW_SECONDS {
    } else {
      DroppedAreStale(times[1..], now);
      assert Dropped(times, now) == [times[0]] + Dropped(times[1..], now);
    }
  }

  // The window holds no more than everything, and everything only if all of it is recent.
  lemma {:induction false} FullWindow(times: seq<int>, now: int)
    ensures |InWindow(times, now)| <= |times|
    ensures |InWindow(times, now)| == |times| ==> Recent(times, now)
  {
    if times == [] {
    } else {
      FullWindow(times[1..], now);
      if |InWindow(times, now)| == |times| {
        forall i | 0 <= i < |times| ensures now - WINDOW_SECONDS < times[i] <= now {
          assert i > 0 ==> times[i] == times[1..][i - 1];
        }
      }
    }
  }

  // No publish lies in the future, and none that has left the window stands behind one that has not.
  predicate Prunable(times: seq<int>, now: int) {
    forall i | 0 <= i < |times| ::
      && times[i] <= now
      && (times[i] <= now - WINDOW_SECONDS ==> Stale(times[..i], now))
  }

  lemma PrunableRecent(times: seq<int>, now: int)
    requires times != [] && times[0] > now - WINDOW_SECONDS
    ensures Prunable(times, now) <==> Recent(times, now)
  {
    forall i | 0 < i < |times| ensures !Stale(times[..i], now) {
      assert times[..i][0] == times[0];
    }
  }

  lemma PrunableTail(times: seq<int>, now: int)
    requires times != [] && times[0] <= now - WINDOW_SECONDS
    ensures Prunable(times, now) <==> Prunable(times[1..], now)
  {
    var rest := times[1..];
    forall i | 0 <= i < |rest| ensures Stale(times[..i + 1], now) <==> Stale(rest[..i], now) {
      assert times[..i + 1] == [times[0]] + rest[..i];
      assert forall j | 0 <= j < i :: times[..i + 1][j + 1] == rest[..i][j];
    }
    hide Stale;
    StaleNothing(times, now);
    if Prunable(rest, now) {
      forall i | 0 <= i < |times|
        ensures times[i] <= now && (times[i] <= now - WINDOW_SECONDS ==> Stale(times[..i], now))
      {
        assert i > 0 ==> times[i] == rest[i - 1];
      }
    }
    if Prunable(times, now) {
      forall i | 0 <= i < |rest|
        ensures rest[i] <= now && (rest[i] <= now - WINDOW_SECONDS ==> Stale(rest[..i], now))
      {
        assert rest[i] == times[i + 1];
      }
    }
  }

  lemma StaleNothing(times: seq<int>, now: int)
    ensures Stale(times[..0], now)
  {
  }

  lemma {:induction false} PrunableMeans(times: seq<int>, now: int)
    ensures Prunable(times, now) <==> Recent(Kept(times, now), now)
  {
    if times == [] {
    } else if times[0] > now - WINDOW_SECONDS {
      PrunableRecent(times, now);
    } else {
      PrunableTail(times, now);
      PrunableMeans(times[1..], now);
    }
  }

  /** Whatever the clock does: pruning leaves exactly the window that ends now, if and only if no publish lies in
      the future and none that has left the window stands behind one that has not. */
  lemma KeptIsWindow(times: seq<int>, now: int)
    ensures Kept(times, now) == InWindow(times, now) <==> Prunable(times, now)
  {
    var gone, rest := Dropped(times, now), Kept(times, now);
    DroppedAreStale(times, now);
    PrunableMeans(times, now);
    NothingInWindow(gone, now);
    WindowOfSum(gone, rest, now);
    FullWindow(rest, now);
    if Recent(rest, now) {
      AllInWindow(rest, now);
    }
  }

  /** The publishes accepted so far are `gone + times`: those dropped from the list and those on it. `turn` counts
      the publishes before the clock was last set back, `turns` how often it was. */
  datatype Tape = Tape(gone: seq<int>, times: seq<int>, turn: nat, turns: nat)

  function Accepted(t: Tape): seq<int> {
    t.gone + t.times
  }

  // One request at a clock reading, after one at the reading before.
  function Request(t: Tape, limit: int, back: bool, now: int): Tape {
    var kept := Kept(t.times, now);
    Tape(t.gone + Dropped(t.times, now), if |kept| < limit then kept + [now] else kept,
         if back then |Accepted(t)| else t.turn, if back then t.turns + 1 else t.turns)
  }

  predicate SetBack(clock: seq<int>, now: int) {
    clock != [] && now < clock[|clock| - 1]
  }

  // How often the clock was set back.
  function SetBacks(clock: seq<int>): nat {
    if clock == [] then 0
    else
      var n := |clock| - 1;
      SetBacks(clock[..n]) + if SetBack(clock[..n], clock[n]) then 1 else 0
  }

  // The throttle after a request for each of the given clock readings.
  function Asked(clock: seq<int>, limit: int): Tape {
    if clock == [] then Tape([], [], 0, 0)
    else
      var n := |clock| - 1;
      Request(Asked(clock[..n], limit), limit, SetBack(clock[..n], clock[n]), clock[n])
  }

  lemma AskedNext(clock: seq<int>, limit: int, now: int)
    ensures Asked(clock + [now], limit) == Request(Asked(clock, limit), limit, SetBack(clock, now), now)
  {
    assert (clock + [now])[..|clock|] == clock;
  }

  // A request appends its own time to what was accepted, or nothing.
  lemma RequestAppends(t: Tape, limit: int, back: bool, now: int)
    ensures
      var u := Request(t, limit, back, now);
      && Accepted(u) == (if |Kept(t.times, now)| < limit then Accepted(t) + [now] else Accepted(t))
      && (limit >= 0 && |t.times| <= limit ==> |u.times| <= limit)
  {
    DroppedAreStale(t.times, now);
    Regroup(t.gone, Dropped(t.times, now), Kept(t.times, now));
  }

  // No publish since the last turn is later than the last reading, and those dropped were stale by then.
  ghost predicate Turned(t: Tape, last: int) {
    && t.turn <= |Accepted(t)|
    && (forall i | t.turn <= i < |Accepted(t)| :: Accepted(t)[i] <= last)
    && (forall i | t.turn <= i < |t.gone| :: t.gone[i] <= last - WINDOW_SECONDS)
  }

  lemma RequestKeepsTurned(t: Tape, limit: int, last: int, now: int)
    requires Turned(t, last)
    ensures Turned(Request(t, limit, now < last, now), now)
  {
    RequestAppends(t, limit, now < last, now);
    StaleAt(t.times, now);
    hide Stale, Kept, Dropped;
  }

  lemma StaleAt(times: seq<int>, now: int)
    ensures forall i | 0 <= i < |Dropped(times, now)| :: Dropped(times, now)[i] <= now - WINDOW_SECONDS
  {
    DroppedAreStale(times, now);
  }

  // Whatever lies in a window that holds `now` was not dropped: less than the limit of it came since the last turn.
  lemma RoomForOneMore(t: Tape, limit: int, last: int, now: int, end: int)
    requires Turned(t, last) && last <= now && |Kept(t.times, now)| < limit && end - WINDOW_SECONDS < now <= end
    ensures |InWindow(Accepted(t)[t.turn..], end)| < limit
  {
    DroppedAreStale(t.times, now);
    var gone, kept := t.gone + Dropped(t.times, now), Kept(t.times, now);
    Regroup(t.gone, Dropped(t.times, now), kept);
    StaleAt(t.times, now);
    hide Stale, Kept, Dropped;
    if t.turn <= |gone| {
      assert Accepted(t)[t.turn..] == gone[t.turn..] + kept;
      forall i | 0 <= i < |gone[t.turn..]| ensures gone[t.turn..][i] <= end - WINDOW_SECONDS {
        assert gone[t.turn..][i] == gone[t.turn + i];
      }
      NothingInWindow(gone[t.turn..], end);
      WindowOfSum(gone[t.turn..], kept, end);
      FullWindow(kept, end);
    } else {
      assert |Accepted(t)[t.turn..]| < |kept|;
      FullWindow(Accepted(t)[t.turn..], end);
    }
  }

  ghost predicate Bounded(t: Tape, limit: nat, end: int) {
    && t.turn <= |Accepted(t)|
    && |InWindow(Accepted(t)[..t.turn], end)| <= t.turns * limit
    && |InWindow(Accepted(t)[t.turn..], end)| <= limit
  }

  lemma OneTurnMore(turns: nat, limit: nat)
    ensures (turns + 1) * limit == turns * limit + limit
  {
  }

  lemma SplitWindow(h: seq<int>, i: nat, end: int)
    requires i <= |h|
    ensures |InWindow(h, end)| == |InWindow(h[..i], end)| + |InWindow(h[i..], end)|
  {
    assert h == h[..i] + h[i..];
    WindowOfSum(h[..i], h[i..], end);
  }

  lemma BoundedMeans(t: Tape, limit: nat, end: int)
    requires Bounded(t, limit, end)
    ensures |InWindow(Accepted(t), end)| <= (t.turns + 1) * limit
  {
    hide InWindow, Accepted;
    SplitWindow(Accepted(t), t.turn, end);
    OneTurnMore(t.turns, limit);
  }

  // A request that sets the clock back closes what came since the last turn.
  lemma TurnKeepsBounded(t: Tape, u: Tape, more: seq<int>, limit: nat, end: int)
    requires Bounded(t, limit, end) && Accepted(u) == Accepted(t) + more && |more| <= limit
    requires u.turn == |Accepted(t)| && u.turns == t.turns + 1
    ensures Bounded(u, limit, end)
  {
    BoundedMeans(t, limit, end);
    FullWindow(more, end);
    hide InWindow, Accepted;
    assert Accepted(u)[..u.turn] == Accepted(t) && Accepted(u)[u.turn..] == more;
  }

  // Any other adds to what came since.
  lemma MoreKeepsBounded(t: Tape, u: Tape, more: seq<int>, limit: nat, end: int)
    requires Bounded(t, limit, end) && Accepted(u) == Accepted(t) + more
    requires u.turn == t.turn && u.turns == t.turns
    requires |InWindow(Accepted(t)[t.turn..], end)| + |InWindow(more, end)| <= limit
    ensures Bounded(u, limit, end)
  {
    hide InWindow, Accepted;
    assert Accepted(u)[..u.turn] == Accepted(t)[..t.turn];
    assert Accepted(u)[u.turn..] == Accepted(t)[t.turn..] + more;
    WindowOfSum(Accepted(t)[t.turn..], more, end);
  }

  lemma BoundedSince(t: Tape, limit: nat, end: int)
    requires Bounded(t, limit, end)
    ensures t.turn <= |Accepted(t)| && |InWindow(Accepted(t)[t.turn..], end)| <= limit
  {
  }

  lemma RequestKeepsBounded(t: Tape, limit: nat, last: int, now: int, end: int)
    requires Turned(t, last) && Bounded(t, limit, end)
    ensures Bounded(Request(t, limit, now < last, now), limit, end)
  {
    var u := Request(t, limit, now < last, now);
    var more: seq<int> := if |Kept(t.times, now)| < limit then [now] else [];
    RequestAppends(t, limit, now < last, now);
    assert Accepted(t) + [] == Accepted(t);
    assert Accepted(u) == Accepted(t) + more;
    BoundedSince(t, limit, end);
    hide Bounded, Accepted, Kept;
    if now < last {
      TurnKeepsBounded(t, u, more, limit, end);
    } else {
      if more == [now] && end - WINDOW_SECONDS < now <= end {
        RoomForOneMore(t, limit, last, now, end);
      }
      hide Turned;
      MoreKeepsBounded(t, u, more, limit, end);
    }
  }

  lemma {:induction false} AskedIsBounded(clock: seq<int>, limit: nat, end: int)
    ensures Bounded(Asked(clock, limit), limit, end) && Asked(clock, limit).turns == SetBacks(clock)
    ensures clock != [] ==> Turned(Asked(clock, limit), clock[|clock| - 1])
  {
    if clock == [] {
    } else {
      var n := |clock| - 1;
      var shorter := clock[..n];
      AskedIsBounded(shorter, limit, end);
      var t := Asked(shorter, limit);
      assert Asked(clock, limit).turns == SetBacks(clock);
      hide Turned, Bounded, Request;
      if shorter == [] {
        FirstRequest(clock[n]);
        RequestKeepsTurned(t, limit, clock[n], clock[n]);
        RequestKeepsBounded(t, limit, clock[n], clock[n], end);
      } else {
        RequestKeepsTurned(t, limit, shorter[n - 1], clock[n]);
        RequestKeepsBounded(t, limit, shorter[n - 1], clock[n], end);
      }
    }
  }

  lemma FirstRequest(last: int)
    ensures Turned(Tape([], [], 0, 0), last)
  {
  }

  /** Whatever the clock does: if it was set back k times, no window of ten seconds, wherever it ends, holds more
      accepted publishes than k + 1 times the limit. */
  lemma SetBacksAreBounded(clock: seq<int>, limit: nat, end: int)
    ensures |InWindow(Accepted(Asked(clock, limit)), end)| <= (SetBacks(clock) + 1) * limit
  {
    AskedIsBounded(clock, limit, end);
    BoundedMeans(Asked(clock, limit), limit, end);
  }

  // A request is granted when the first publish on a short list is recent.
  lemma Granted(t: Tape, limit: int, back: bool, now: int)
    requires |t.times| < limit && (t.times != [] ==> now - WINDOW_SECONDS < t.times[0])
    ensures Request(t, limit, back, now)
        == Tape(t.gone, t.times + [now], if back then |Accepted(t)| else t.turn, if back then t.turns + 1 else t.turns)
  {
    assert t.times[..0] == [] && t.gone + [] == t.gone;
  }

  function Times(now: int, n: nat): (r: seq<int>)
    ensures |r| == n && forall i | 0 <= i < n :: r[i] == now
  {
    if n == 0 then [] else Times(now, n - 1) + [now]
  }

  // Several requests at one reading, the first of which may set the clock back.
  lemma {:induction false} AskedAgain(clock: seq<int>, limit: int, now: int, n: nat)
    requires
      var t := Asked(clock, limit);
      |t.times| + n <= limit && (t.times + [now])[0] > now - WINDOW_SECONDS
    ensures
      var t := Asked(clock, limit);
      var back := n > 0 && SetBack(clock, now);
      Asked(clock + Times(now, n), limit) == Tape(t.gone, t.times + Times(now, n),
          if back then |Accepted(t)| else t.turn, if back then t.turns + 1 else t.turns)
  {
    var t := Asked(clock, limit);
    hide Asked, Accepted, Request;
    if n == 0 {
      assert clock + Times(now, n) == clock && t.times + Times(now, n) == t.times;
    } else {
      var before, m := clock + Times(now, n - 1), n - 1;
      AskedAgain(clock, limit, now, n - 1);
      assert clock + Times(now, n) == before + [now];
      assert t.times + Times(now, n) == t.times + Times(now, m) + [now];
      if n == 1 {
        assert before == clock && t.times + Times(now, m) == t.times;
      } else {
        assert before[|before| - 1] == now;
      }
      AskedNext(before, limit, now);
      Granted(Asked(before, limit), limit, SetBack(before, now), now);
    }
  }

  // A clock that was set back hides an old publish behind a future one.
  lemma ClockSetBack(limit: nat)
    requires limit >= 2
    ensures
      var t := Asked([100, 50], limit);
      t.times == [100, 50] && Kept(t.times, 61) == [100, 50] && InWindow(t.times, 61) == []
  {
    AskedNext([], limit, 100);
    Granted(Tape([], [], 0, 0), limit, false, 100);
    assert [] + [100] == [100] && [100] + [50] == [100, 50];
    AskedNext([100], limit, 50);
    Granted(Tape([], [100], 0, 0), limit, true, 50);
    NothingInWindow([100, 50], 61);
  }

  lemma FiveThenOne()
    ensures Asked(Times(50, 5) + [100], 5) == Tape(Times(50, 5), [100], 0, 0)
  {
    var five := Times(50, 5);
    assert Asked(five, 5) == Tape([], five, 0, 0) by {
      AskedAgain([], 5, 50, 5);
      assert [] + five == five;
    }
    assert !SetBack(five, 100);
    hide Asked, SetBack, Times;
    AskedNext(five, 5, 100);
    KeptAfter(five, 100, 5);
    hide Kept, Dropped;
    assert five[..5] == five && five[5..] == [] && [] + five == five;
  }

  // One turn is enough to break the bound of a clock that never goes back.
  lemma NinePublishes()
    ensures
      var clock := Times(50, 5) + [100] + Times(50, 4);
      var t := Asked(clock, 5);
      t.turns == 1 && Accepted(t) == clock && |InWindow(Accepted(t), 50)| == 9
  {
    hide Asked, Times, Kept, Dropped;
    var five, four := Times(50, 5), Times(50, 4);
    FiveThenOne();
    AskedAgain(five + [100], 5, 50, 4);
    var t := Asked(five + [100] + four, 5);
    assert Accepted(t) == five + ([100] + four) == five + [100] + four;
    hide Accepted;
    AllInWindow(five, 50);
    AllInWindow(four, 50);
    NothingInWindow([100], 50);
    hide InWindow;
    WindowOfSum([100], four, 50);
    WindowOfSum(five, [100] + four, 50);
  }

  // The publishes that lie outside the window.
  function Outside(history: seq<int>, now: int): seq<int> {
    if history == [] then []
    else if history[0] <= now - WINDOW_SECONDS || history[0] > now then [history[0]] + Outside(history[1..], now)
    else Outside(history[1..], now)
  }

  lemma {:induction false} InsideAndOutside(history: seq<int>, now: int)
    ensures |InWindow(history, now)| + |Outside(history, now)| == |history|
  {
    if history == [] {
    } else {
      InsideAndOutside(history[1..], now);
    }
  }

  /** When the answer is that of a throttle with a perfect memory, whatever the clock did: publishes that stay on
      the list though they lie outside the window can make it refuse, and those that it dropped though they lie in
      the window can make it allow. It errs exactly when the limit falls between the two counts. */
  lemma AnswerAgrees(t: Tape, limit: int, now: int)
    ensures
      var listed := |InWindow(t.times, now)|;
      var hidden := |Outside(Kept(t.times, now), now)|;
      var forgotten := |InWindow(t.gone, now)|;
      var allowed := |Kept(t.times, now)| < limit;
      && (!allowed && Allowed(Accepted(t), limit, now) <==> listed + forgotten < limit <= listed + hidden)
      && (allowed && !Allowed(Accepted(t), limit, now) <==> listed + hidden < limit <= listed + forgotten)
      && (hidden == 0 <==> Prunable(t.times, now))
  {
    var gone, rest := Dropped(t.times, now), Kept(t.times, now);
    DroppedAreStale(t.times, now);
    NothingInWindow(gone, now);
    WindowOfSum(gone, rest, now);
    WindowOfSum(t.gone, t.times, now);
    InsideAndOutside(rest, now);
    KeptIsWindow(t.times, now);
    FullWindow(rest, now);
    PrunableMeans(t.times, now);
  }

  // In order, the list represents the history.
  lemma {:induction false} AskedInOrder(clock: seq<int>, limit: int)
    requires Ordered(clock)
    ensures Represents(Asked(clock, limit).times, Asked(clock, limit).gone, clock, limit)
    ensures Asked(clock, limit).turns == 0
  {
    if clock == [] {
    } else {
      var shorter, now := clock[..|clock| - 1], clock[|clock| - 1];
      assert clock == shorter + [now];
      OrderedLess(shorter, now);
      AskedInOrder(shorter, limit);
      var t := Asked(shorter, limit);
      DroppedAreStale(t.times, now);
      AskedNext(shorter, limit, now);
      hide Represents, Publishes, Kept, Dropped, Stale;
      RequestKeepsList(Dropped(t.times, now), Kept(t.times, now), t.gone, shorter, limit, now);
    }
  }

  class Throttle {
    const maxPublishInWindow: int
    var publishTimes: seq<int>
    // Every clock reading at which a publish was asked for.
    ghost var clock: seq<int>

    ghost function History(): seq<int>
      reads this
    {
      Accepted(Asked(clock, maxPublishInWindow))
    }

    ghost predicate Valid()
      reads this
    {
      && maxPublishInWindow >= 5 && |publishTimes| <= maxPublishInWindow
      && publishTimes == Asked(clock, maxPublishInWindow).times
    }

    constructor (pubMinInterval: int)
      ensures Valid() && clock == [] && maxPublishInWindow == MaxPublish(pubMinInterval)
    {
      maxPublishInWindow := MaxPublish(pubMinInterval);
      publishTimes, clock := [], [];
    }

    /** Answers and keeps what Asked says, whatever the clock does. While the clock does not go back, it answers as a
        throttle with a perfect memory would, and keeps exactly the publishes in the window. */
    method CanPublish(now: int) returns (allowed: bool)
      requires Valid()
      modifies this
      ensures Valid() && clock == old(clock) + [now]
      ensures
        var kept := Kept(old(publishTimes), now);
        && (allowed <==> |kept| < maxPublishInWindow)
        && publishTimes == if allowed then kept + [now] else kept
      ensures History() == if allowed then old(History()) + [now] else old(History())
      ensures Ordered(clock) ==>
        && allowed == Allowed(old(History()), maxPublishInWindow, now)
        && publishTimes == InWindow(History(), now)
    {
      hide InWindow, Publishes, Represents, Ordered, Asked, Kept;
      ghost var t := Asked(clock, maxPublishInWindow);
      var i := 0;
      while i < |publishTimes| && publishTimes[i] <= now - WINDOW_SECONDS
        modifies {}
        invariant i <= |publishTimes| && Stale(publishTimes[..i], now)
      {
        i := i + 1;
      }
      KeptAfter(publishTimes, now, i);
      AskedNext(clock, maxPublishInWindow, now);
      RequestAppends(t, maxPublishInWindow, SetBack(clock, now), now);
      if Ordered(clock + [now]) {
        InOrder(clock, maxPublishInWindow, now);
      }
      clock := clock + [now];
      publishTimes := publishTimes[i..];
      if |publishTimes| >= maxPublishInWindow {
        return false;
      }
      publishTimes := publishTimes + [now];
      allowed := true;
    }
  }

  lemma InOrder(clock: seq<int>, limit: int, now: int)
    requires Ordered(clock + [now])
    ensures
      var t := Asked(clock, limit);
      var u := Asked(clock + [now], limit);
      && (|Kept(t.times, now)| < limit <==> Allowed(Accepted(t), limit, now))
      && u.times == InWindow(Accepted(u), now)
  {
    hide InWindow, Publishes, Represents, Ordered, Asked, Kept;
    var t := Asked(clock, limit);
    OrderedLess(clock, now);
    AskedInOrder(clock, limit);
    AskedNext(clock, limit, now);
    DroppedAreStale(t.times, now);
    RepresentsMeans(t.times, t.gone, clock, limit, now);
    RequestAppends(t, limit, SetBack(clock, now), now);
    RequestKeepsList(Dropped(t.times, now), Kept(t.times, now), t.gone, clock, limit, now);
  }

  lemma OrderedLess(clock: seq<int>, now: int)
    requires Ordered(clock + [now])
    ensures Ordered(clock) && (clock != [] ==> clock[|clock| - 1] <= now)
  {
    var c := clock + [now];
    forall i, j | 0 <= i < j < |clock| ensures clock[i] <= clock[j] {
      assert c[i] <= c[j];
    }
    assert clock != [] ==> c[|clock| - 1] <= c[|clock|];
  }
}
