/** The device's rotating log: one current file and four older ones, ".1" the youngest. */
module Logger {
  // One line of the log, a byte per element.
  type Line = seq<bv8>
  type Segment = seq<Line>

  // File 0 is the current file, file k is the one with the suffix ".k".
  type Directory = map<nat, Segment>

  const LOG_FILE_MAX_BYTES := 500_000
  const LOG_FILE_ROTATE_COUNT: nat := 3
  // The loop that renames ".3" keeps one file more than the count.
  const OLDEST: nat := LOG_FILE_ROTATE_COUNT + 1

  function Size(s: Segment): nat {
    if s == [] then 0 else Size(s[..|s| - 1]) + |s[|s| - 1]|
  }

  // The size counts every byte of every line.
  lemma {:induction false} SizeAdds(a: Segment, b: Segment)
    ensures Size(a + b) == Size(a) + Size(b)
    ensures |a| == 1 ==> Size(a) == |a[0]|
  {
    if b == [] {
      assert a + b == a;
    } else {
      assert (a + b)[..|a + b| - 1] == a + b[..|b| - 1];
      SizeAdds(a, b[..|b| - 1]);
    }
    if |a| == 1 {
      assert a[..0] == [] && Size([]) == 0;
    }
  }

  function Joined(segments: seq<Segment>): (lines: Segment) {
    if segments == [] then [] else Joined(segments[..|segments| - 1]) + segments[|segments| - 1]
  }

  function Rename(dir: Directory, from: nat, to: nat): Directory {
    if from in dir then (dir - {from})[to := dir[from]] else dir
  }

  function Content(dir: Directory, k: nat): Segment {
    if k in dir then dir[k] else []
  }

  // The files in the order of their lines, the oldest first.
  function AllLines(dir: Directory, k: nat): Segment {
    Content(dir, k) + if k == 0 then [] else AllLines(dir, k - 1)
  }

  // The directory after the given closed segments, with the last one still open.
  ghost predicate Retains(dir: Directory, closed: seq<Segment>, open: Segment) {
    && (forall k: nat :: k in dir <==> k <= OLDEST && k <= |closed|)
    && dir[0] == open
    && forall k: nat | 1 <= k <= OLDEST && k <= |closed| :: dir[k] == closed[|closed| - k]
  }

  // A segment is closed by the record that takes it to the limit.
  predicate ClosedAtLimit(s: Segment) {
    s != [] && Size(s) >= LOG_FILE_MAX_BYTES && Size(s[..|s| - 1]) < LOG_FILE_MAX_BYTES
  }

  lemma {:induction false} JoinedOfSum(a: seq<Segment>, b: seq<Segment>)
    ensures Joined(a + b) == Joined(a) + Joined(b)
  {
    if b == [] {
      assert a + b == a;
    } else {
      assert (a + b)[..|a + b| - 1] == a + b[..|b| - 1];
      JoinedOfSum(a, b[..|b| - 1]);
    }
  }

  function Youngest(closed: seq<Segment>, k: nat): seq<Segment> {
    if k <= |closed| then closed[|closed| - k..] else closed
  }

  lemma JoinedOne(segment: Segment)
    ensures Joined([segment]) == segment
  {
    assert [segment][..0] == [] && Joined([]) == [];
  }

  lemma YoungestSplits(closed: seq<Segment>, k: nat)
    ensures Youngest(closed, k + 1) ==
      (if k < |closed| then [closed[|closed| - (k + 1)]] else []) + Youngest(closed, k)
  {
  }

  lemma OneOlder(closed: seq<Segment>, k: nat)
    ensures Joined(Youngest(closed, k + 1)) ==
      (if k < |closed| then closed[|closed| - (k + 1)] else []) + Joined(Youngest(closed, k))
  {
    YoungestSplits(closed, k);
    hide Joined, Youngest;
    if k < |closed| {
      JoinedOfSum([closed[|closed| - (k + 1)]], Youngest(closed, k));
      JoinedOne(closed[|closed| - (k + 1)]);
    } else {
      assert Youngest(closed, k + 1) == Youngest(closed, k);
    }
  }

  lemma NoneYoungest(closed: seq<Segment>)
    ensures Joined(Youngest(closed, 0)) == []
  {
    assert Youngest(closed, 0) == [];
  }

  lemma RetainedContent(dir: Directory, closed: seq<Segment>, open: Segment, k: nat)
    requires Retains(dir, closed, open) && k <= OLDEST
    ensures Content(dir, k) == if k == 0 then open else if k <= |closed| then closed[|closed| - k] else []
  {
  }

  // The last k closed segments are the files ".k" down to ".1".
  lemma {:induction false} YoungestFiles(dir: Directory, closed: seq<Segment>, open: Segment, k: nat)
    requires Retains(dir, closed, open) && k <= OLDEST
    ensures AllLines(dir, k) == Joined(Youngest(closed, k)) + open
  {
    hide Retains, Joined, Youngest, Content;
    RetainedContent(dir, closed, open, k);
    if k == 0 {
      NoneYoungest(closed);
    } else {
      YoungestFiles(dir, closed, open, k - 1);
      OneOlder(closed, k - 1);
    }
  }

  // The closed segments that no file holds any more.
  function Lost(closed: seq<Segment>): seq<Segment> {
    if |closed| <= OLDEST then [] else closed[..|closed| - OLDEST]
  }

  lemma LostAndYoungest(closed: seq<Segment>)
    ensures closed == Lost(closed) + Youngest(closed, OLDEST)
  {
    if |closed| <= OLDEST {
      assert Youngest(closed, OLDEST) == closed;
    } else {
      var n := |closed| - OLDEST;
      assert closed == closed[..n] + closed[n..];
    }
  }

  lemma Regroup(a: Segment, b: Segment, c: Segment)
    ensures (a + b) + c == a + (b + c)
  {
  }

  /** The files, oldest first, hold a suffix of everything ever written, and what
      is missing is whole segments: all but the four youngest closed ones. */
  lemma FilesHoldSuffix(dir: Directory, closed: seq<Segment>, open: Segment)
    requires Retains(dir, closed, open)
    ensures Joined(closed) + open == Joined(Lost(closed)) + AllLines(dir, OLDEST)
    ensures Lost(closed) <= closed && |closed| - |Lost(closed)| == if |closed| <= OLDEST then |closed| else OLDEST
  {
    LostAndYoungest(closed);
    YoungestFiles(dir, closed, open, OLDEST);
    assert Lost(closed) <= closed;
    hide Retains, Youngest, Joined, AllLines;
    JoinedOfSum(Lost(closed), Youngest(closed, OLDEST));
    Regroup(Joined(Lost(closed)), Joined(Youngest(closed, OLDEST)), open);
  }

  // The directory when the renames from ".3" down to the one above ".i" are done.
  function Renamed(was: Directory, i: nat): Directory
    requires i <= LOG_FILE_ROTATE_COUNT
    decreases LOG_FILE_ROTATE_COUNT - i
  {
    if i == LOG_FILE_ROTATE_COUNT then was else Rename(Renamed(was, i + 1), i + 1, i + 2)
  }

  // Every file has moved up by one, and ".4" is lost.
  lemma RotationRetains(was: Directory, closed: seq<Segment>, open: Segment)
    requires Retains(was, closed, open)
    ensures Retains(Rename(Renamed(was, 0), 0, 1)[0 := []], closed + [open], [])
  {
    var r2 := Rename(was, 3, 4);
    var r1 := Rename(r2, 2, 3);
    var r0 := Rename(r1, 1, 2);
    assert Renamed(was, 3) == was && Renamed(was, 2) == r2 && Renamed(was, 1) == r1 && Renamed(was, 0) == r0;
    hide Renamed;
    var end := Rename(r0, 0, 1)[0 := []];
    forall k: nat ensures k in end <==> k <= OLDEST && k <= |closed| + 1 {
      assert k != 0 && k <= OLDEST ==> (k in end <==> k - 1 in was);
    }
    forall k: nat | 1 <= k <= OLDEST && k <= |closed| + 1 ensures end[k] == (closed + [open])[|closed| + 1 - k] {
      assert end[k] == was[k - 1];
    }
  }

  lemma OneMoreSegment(closed: seq<Segment>, segment: Segment)
    ensures Joined(closed + [segment]) == Joined(closed) + segment
  {
    assert (closed + [segment])[..|closed|] == closed;
  }

  lemma NothingWritten()
    ensures Size([]) == 0
  {
  }

  lemma SegmentsRegroup(closed: seq<Segment>, open: Segment, line: Line)
    ensures Joined(closed) + (open + [line]) == (Joined(closed) + open) + [line]
    ensures Joined(closed) + (open + [line]) + [] == (Joined(closed) + open) + [line]
  {
  }

  lemma OneMoreLine(segment: Segment, line: Line)
    ensures Size(segment + [line]) == Size(segment) + |line|
    ensures Size(segment) < LOG_FILE_MAX_BYTES <= Size(segment + [line]) ==> ClosedAtLimit(segment + [line])
  {
    assert (segment + [line])[..|segment|] == segment;
  }

  class Logger {
    var dir: Directory
    var currentSize: nat
    // The segments closed so far, the oldest first.
    ghost var closed: seq<Segment>

    ghost predicate Valid()
      reads this
    {
      && 0 in dir && Retains(dir, closed, dir[0])
      && currentSize == Size(dir[0]) && currentSize < LOG_FILE_MAX_BYTES
      && forall i | 0 <= i < |closed| :: ClosedAtLimit(closed[i])
    }

    // Everything ever written.
    ghost function Written(): Segment
      reads this
      requires 0 in dir
    {
      Joined(closed) + dir[0]
    }

    constructor ()
      ensures Valid() && closed == [] && Written() == []
    {
      dir, currentSize, closed := map[0 := []], 0, [];
    }

    /** Appends one record; a full file is closed and becomes ".1". */
    method WriteRecord(line: Line)
      requires Valid()
      modifies this
      ensures Valid() && Written() == old(Written()) + [line]
      ensures
        var segment := old(dir[0]) + [line];
        if Size(segment) >= LOG_FILE_MAX_BYTES then closed == old(closed) + [segment] && dir[0] == []
        else closed == old(closed) && dir[0] == segment
    {
      hide Joined, Size, ClosedAtLimit;
      ghost var segment := dir[0] + [line];
      OneMoreLine(dir[0], line);
      OneMoreSegment(closed, segment);
      SegmentsRegroup(closed, dir[0], line);
      NothingWritten();
      dir := dir[0 := dir[0] + [line]];
      currentSize := currentSize + |line|;
      if currentSize >= LOG_FILE_MAX_BYTES {
        DoRotation();
      }
    }

    // Renames ".3" to ".4", ".2" to ".3", ".1" to ".2" and the current file to ".1", then starts a new one.
    method DoRotation()
      requires 0 in dir && Retains(dir, closed, dir[0])
      modifies this
      ensures 0 in dir && closed == old(closed) + [old(dir[0])]
      ensures dir[0] == [] && Retains(dir, closed, []) && currentSize == 0
    {
      hide Retains;
      ghost var was := dir;
      var i := LOG_FILE_ROTATE_COUNT;
      while i > 0
        modifies `dir
        invariant 0 <= i <= LOG_FILE_ROTATE_COUNT && dir == Renamed(was, i)
      {
        dir := Rename(dir, i, i + 1);
        i := i - 1;
      }
      RotationRetains(was, closed, was[0]);
      dir := Rename(dir, 0, 1);
      dir := dir[0 := []];
      currentSize := 0;
      closed := closed + [was[0]];
    }
  }
}
