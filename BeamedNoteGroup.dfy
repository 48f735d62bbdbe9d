/** The geometry of a beamed group of notes: which way its stems point, where
    the main beam sits, where each stem is drawn, and which stretches of
    sixteenth notes get a second beam. */
module BeamedNoteGroup {
  import opened Types
  import opened Sequences

  /** A note together with the position of its notehead on the page. */
  datatype NotePosition = NotePosition(note: Note, x: real, y: real)

  /** A straight stroke from (x1, y1) to (x2, y2). */
  datatype Segment = Segment(x1: real, y1: real, x2: real, y2: real)

  /** Everything a beamed group draws besides its noteheads. */
  datatype BeamGeometry = BeamGeometry(
    direction: int,
    anchorY: real,
    stems: seq<Segment>,
    mainBeam: Segment,
    secondaryBeams: seq<Segment>)

  const StemHeight: real := 35.0
  const NoteRadius: real := 6.0
  const BeamThickness: real := 4.0

  /** -1 (stems up, drawn towards smaller y) when the note's stem points up, +1 otherwise. */
  function StemDirectionOf(first: Note): (dir: int)
    ensures dir == -1 || dir == 1
    ensures dir == -1 <==> first.stemDirection == Up
  {
    if first.stemDirection == Up then -1 else 1
  }

  /** The smallest notehead y of a non-empty group (`Math.min` over the group). */
  function MinY(ps: seq<NotePosition>): (m: real)
    requires |ps| > 0
    ensures forall i :: 0 <= i < |ps| ==> m <= ps[i].y
    ensures exists i :: 0 <= i < |ps| && ps[i].y == m
  {
    if |ps| == 1 then ps[0].y
    else
      var rest := MinY(ps[1..]);
      assert forall i :: 1 <= i < |ps| ==> ps[i] == ps[1..][i - 1];
      if ps[0].y <= rest then ps[0].y else rest
  }

  /** The largest notehead y of a non-empty group (`Math.max` over the group). */
  function MaxY(ps: seq<NotePosition>): (m: real)
    requires |ps| > 0
    ensures forall i :: 0 <= i < |ps| ==> ps[i].y <= m
    ensures exists i :: 0 <= i < |ps| && ps[i].y == m
  {
    if |ps| == 1 then ps[0].y
    else
      var rest := MaxY(ps[1..]);
      assert forall i :: 1 <= i < |ps| ==> ps[i] == ps[1..][i - 1];
      if ps[0].y >= rest then ps[0].y else rest
  }

  /** The height of the main beam: a stem's length beyond the outermost notehead,
      above the group when stems point up and below it otherwise. The first two
      clauses of each direction pin the value: a full stem from the outermost
      notehead and at least a full stem from every other one. */
  function BeamAnchorY(ps: seq<NotePosition>, dir: int): (a: real)
    requires |ps| > 0
    ensures dir == -1 ==> forall i :: 0 <= i < |ps| ==> a <= ps[i].y - StemHeight
    ensures dir == -1 ==> exists i :: 0 <= i < |ps| && a == ps[i].y - StemHeight
    ensures dir == -1 ==> forall i :: 0 <= i < |ps| ==> a < ps[i].y
    ensures dir != -1 ==> forall i :: 0 <= i < |ps| ==> a >= ps[i].y + StemHeight
    ensures dir != -1 ==> exists i :: 0 <= i < |ps| && a == ps[i].y + StemHeight
    ensures dir != -1 ==> forall i :: 0 <= i < |ps| ==> a > ps[i].y
  {
    if dir == -1 then MinY(ps) - StemHeight else MaxY(ps) + StemHeight
  }

  /** Where a note's stem is drawn: on the notehead's right for stems down and
      on its left for stems up, one notehead radius from its centre. */
  function StemX(x: real, dir: int): (sx: real)
    ensures dir == 1 || dir == -1 ==> sx == x + dir as real * NoteRadius
  {
    x + (if dir == 1 then NoteRadius else -NoteRadius)
  }

  /** The height of a secondary beam: one beam thickness plus a gap further from
      the noteheads than the main beam. */
  function SecondaryBeamY(anchorY: real, dir: int): real {
    anchorY + dir as real * (BeamThickness + 2.0)
  }

  function Distance(a: real, b: real): real {
    if a <= b then b - a else a - b
  }

  /** A secondary beam lies 6 units further from every notehead than the main beam. */
  lemma SecondaryBeamOutsideMainBeam(ps: seq<NotePosition>, dir: int)
    requires |ps| > 0 && (dir == 1 || dir == -1)
    ensures forall i :: 0 <= i < |ps| ==>
      Distance(SecondaryBeamY(BeamAnchorY(ps, dir), dir), ps[i].y)
        == Distance(BeamAnchorY(ps, dir), ps[i].y) + BeamThickness + 2.0
  {
  }

  predicate IsSixteenth(p: NotePosition) {
    p.note.duration == Sixteenth
  }

  /** The sixteenth notes of a group, in order. */
  function Sixteenths(ps: seq<NotePosition>): (r: seq<NotePosition>)
    ensures forall k :: 0 <= k < |r| ==> IsSixteenth(r[k])
  {
    if ps == [] then []
    else Sixteenths(ps[..|ps| - 1]) + (if IsSixteenth(ps[|ps| - 1]) then [ps[|ps| - 1]] else [])
  }

  lemma SixteenthsStep(ps: seq<NotePosition>, i: int)
    requires 0 <= i < |ps|
    ensures Sixteenths(ps[..i + 1]) == Sixteenths(ps[..i]) + (if IsSixteenth(ps[i]) then [ps[i]] else [])
  {
    assert ps[..i + 1][..i] == ps[..i];
  }

  /** Each run is a non-empty stretch of `ps`, starting at `starts[r]`, made of
      sixteenths only. */
  ghost predicate RunsAreStretches(ps: seq<NotePosition>, runs: seq<seq<NotePosition>>, starts: seq<nat>)
  {
    && |starts| == |runs|
    && (forall r :: 0 <= r < |runs| ==> |runs[r]| > 0 && starts[r] + |runs[r]| <= |ps|)
    && (forall r, k {:trigger runs[r][k]} :: 0 <= r < |runs| && 0 <= k < |runs[r]| ==>
          runs[r][k] == ps[starts[r] + k] && IsSixteenth(runs[r][k]))
  }

  /** Each run ends before the next one starts, with at least one note between. */
  ghost predicate RunsAreSeparated(runs: seq<seq<NotePosition>>, starts: seq<nat>)
    requires |starts| == |runs|
  {
    forall q, r :: 0 <= q < r < |runs| ==> starts[q] + |runs[q]| < starts[r]
  }

  /** No run can be extended: each is bounded on both sides by a non-sixteenth or
      by the end of the group. */
  ghost predicate RunsAreMaximal(ps: seq<NotePosition>, runs: seq<seq<NotePosition>>, starts: seq<nat>)
    requires RunsAreStretches(ps, runs, starts)
  {
    && (forall r :: 0 <= r < |runs| ==> starts[r] == 0 || !IsSixteenth(ps[starts[r] - 1]))
    && (forall r :: 0 <= r < |runs| ==>
          starts[r] + |runs[r]| == |ps| || !IsSixteenth(ps[starts[r] + |runs[r]|]))
  }

  ghost predicate RunsAreMaximalSlices(ps: seq<NotePosition>, runs: seq<seq<NotePosition>>, starts: seq<nat>)
  {
    RunsAreStretches(ps, runs, starts) && RunsAreSeparated(runs, starts) && RunsAreMaximal(ps, runs, starts)
  }

  /** The maximal runs of consecutive sixteenth notes, in order: every sixteenth
      of the group is in exactly one run, and nothing else is. */
  ghost predicate IsSixteenthRunPartition(ps: seq<NotePosition>, runs: seq<seq<NotePosition>>, starts: seq<nat>)
  {
    RunsAreMaximalSlices(ps, runs, starts) && Flatten(runs) == Sixteenths(ps)
  }

  /** Adding one more maximal run after the last one keeps the runs maximal slices. */
  lemma AppendRun(ps: seq<NotePosition>, runs: seq<seq<NotePosition>>, starts: seq<nat>,
                  run: seq<NotePosition>, start: nat)
    requires RunsAreMaximalSlices(ps, runs, starts)
    requires |run| > 0 && start + |run| <= |ps|
    requires forall k :: 0 <= k < |run| ==> run[k] == ps[start + k] && IsSixteenth(run[k])
    requires start == 0 || !IsSixteenth(ps[start - 1])
    requires start + |run| == |ps| || !IsSixteenth(ps[start + |run|])
    requires runs != [] ==> starts[|runs| - 1] + |runs[|runs| - 1]| < start
    requires |starts| == |runs|
    ensures RunsAreMaximalSlices(ps, runs + [run], starts + [start])
  {
    AppendStretch(ps, runs, starts, run, start);
    AppendSeparated(runs, starts, run, start);
    AppendMaximal(ps, runs, starts, run, start);
  }

  lemma AppendStretch(ps: seq<NotePosition>, runs: seq<seq<NotePosition>>, starts: seq<nat>,
                      run: seq<NotePosition>, start: nat)
    requires RunsAreStretches(ps, runs, starts)
    requires |run| > 0 && start + |run| <= |ps|
    requires forall k :: 0 <= k < |run| ==> run[k] == ps[start + k] && IsSixteenth(run[k])
    ensures RunsAreStretches(ps, runs + [run], starts + [start])
  {
    var rs, ss := runs + [run], starts + [start];
    forall r, k | 0 <= r < |rs| && 0 <= k < |rs[r]|
      ensures rs[r][k] == ps[ss[r] + k] && IsSixteenth(rs[r][k])
    {
      if r < |runs| {
        assert rs[r] == runs[r] && ss[r] == starts[r];
      }
    }
  }

  lemma AppendSeparated(runs: seq<seq<NotePosition>>, starts: seq<nat>, run: seq<NotePosition>, start: nat)
    requires |starts| == |runs| && RunsAreSeparated(runs, starts)
    requires runs != [] ==> starts[|runs| - 1] + |runs[|runs| - 1]| < start
    ensures RunsAreSeparated(runs + [run], starts + [start])
  {
    var rs, ss := runs + [run], starts + [start];
    forall q, r | 0 <= q < r < |rs|
      ensures ss[q] + |rs[q]| < ss[r]
    {
      if r == |runs| && q < |runs| - 1 {
        assert starts[q] + |runs[q]| < starts[|runs| - 1];
      }
    }
  }

  lemma AppendMaximal(ps: seq<NotePosition>, runs: seq<seq<NotePosition>>, starts: seq<nat>,
                      run: seq<NotePosition>, start: nat)
    requires RunsAreStretches(ps, runs, starts) && RunsAreMaximal(ps, runs, starts)
    requires RunsAreStretches(ps, runs + [run], starts + [start])
    requires |run| > 0 && start + |run| <= |ps|
    requires start == 0 || !IsSixteenth(ps[start - 1])
    requires start + |run| == |ps| || !IsSixteenth(ps[start + |run|])
    ensures RunsAreMaximal(ps, runs + [run], starts + [start])
  {
    var rs, ss := runs + [run], starts + [start];
    forall r | 0 <= r < |rs|
      ensures ss[r] == 0 || !IsSixteenth(ps[ss[r] - 1])
      ensures ss[r] + |rs[r]| == |ps| || !IsSixteenth(ps[ss[r] + |rs[r]|])
    {
      if r < |runs| {
        assert rs[r] == runs[r] && ss[r] == starts[r];
      }
    }
  }

  /** The open run: a stretch of sixteenths of `ps` starting at `currentStart`,
      not preceded by a sixteenth. */
  ghost predicate OpenRun(ps: seq<NotePosition>, current: seq<NotePosition>, currentStart: nat)
  {
    && currentStart + |current| <= |ps|
    && (forall k :: 0 <= k < |current| ==> current[k] == ps[currentStart + k] && IsSixteenth(current[k]))
    && (currentStart == 0 || !IsSixteenth(ps[currentStart - 1]))
  }

  /** Every finished run ends before the open run starts, with a note between. */
  ghost predicate ClosedBehind(runs: seq<seq<NotePosition>>, starts: seq<nat>, currentStart: nat)
  {
    |starts| == |runs| && (runs != [] ==> starts[|runs| - 1] + |runs[|runs| - 1]| < currentStart)
  }

  /** The state of the run scan after the first `i` notes: `runs` are the finished
      runs, and `current`, starting at `currentStart`, is the run still open. */
  ghost predicate Scanned(ps: seq<NotePosition>, i: nat, runs: seq<seq<NotePosition>>, starts: seq<nat>,
                          current: seq<NotePosition>, currentStart: nat)
  {
    && i <= |ps|
    && currentStart + |current| == i
    && RunsAreMaximalSlices(ps, runs, starts)
    && OpenRun(ps, current, currentStart)
    && ClosedBehind(runs, starts, currentStart)
    && Flatten(runs) + current == Sixteenths(ps[..i])
  }

  /** The scan's state after the first `i` notes: the finished runs with their
      start indices, and the run still open with its start index. */
  datatype ScanState = ScanState(runs: seq<seq<NotePosition>>, starts: seq<nat>,
                                 current: seq<NotePosition>, currentStart: nat)

  /** One step of the scan, over the note at index `next - 1`: a sixteenth
      extends the open run; any other note closes the open run, if there is
      one, and opens an empty one at `next`. */
  ghost function ScanStep(s: ScanState, p: NotePosition, next: nat): ScanState
  {
    if IsSixteenth(p) then ScanState(s.runs, s.starts, s.current + [p], s.currentStart)
    else if |s.current| > 0 then ScanState(s.runs + [s.current], s.starts + [s.currentStart], [], next)
    else ScanState(s.runs, s.starts, [], next)
  }

  /** The scan over the first `i` notes. */
  ghost function ScanPrefix(ps: seq<NotePosition>, i: nat): ScanState
    requires i <= |ps|
  {
    if i == 0 then ScanState([], [], [], 0) else ScanStep(ScanPrefix(ps, i - 1), ps[i - 1], i)
  }

  /** The runs found by the whole scan: the finished ones, then the open one if any. */
  ghost function ScanResult(ps: seq<NotePosition>): (seq<seq<NotePosition>>, seq<nat>)
  {
    var s := ScanPrefix(ps, |ps|);
    if |s.current| > 0 then (s.runs + [s.current], s.starts + [s.currentStart]) else (s.runs, s.starts)
  }

  lemma StepOpen(ps: seq<NotePosition>, s: ScanState, i: nat)
    requires i < |ps| && s.currentStart + |s.current| == i && OpenRun(ps, s.current, s.currentStart)
    ensures var t := ScanStep(s, ps[i], i + 1); t.currentStart + |t.current| == i + 1 && OpenRun(ps, t.current, t.currentStart)
  {
    if IsSixteenth(ps[i]) {
      var c := s.current + [ps[i]];
      forall k | 0 <= k < |c|
        ensures c[k] == ps[s.currentStart + k] && IsSixteenth(c[k])
      {
        if k < |s.current| {
          assert c[k] == s.current[k];
        }
      }
    }
  }

  lemma StepBehind(ps: seq<NotePosition>, s: ScanState, i: nat)
    requires i < |ps| && s.currentStart + |s.current| == i && ClosedBehind(s.runs, s.starts, s.currentStart)
    ensures var t := ScanStep(s, ps[i], i + 1); ClosedBehind(t.runs, t.starts, t.currentStart)
  {
  }

  lemma StepStretches(ps: seq<NotePosition>, s: ScanState, i: nat)
    requires i < |ps| && s.currentStart + |s.current| == i && OpenRun(ps, s.current, s.currentStart)
    requires RunsAreStretches(ps, s.runs, s.starts)
    ensures var t := ScanStep(s, ps[i], i + 1); RunsAreStretches(ps, t.runs, t.starts)
  {
    if !IsSixteenth(ps[i]) && |s.current| > 0 {
      AppendStretch(ps, s.runs, s.starts, s.current, s.currentStart);
    }
  }

  lemma StepSeparated(ps: seq<NotePosition>, s: ScanState, i: nat)
    requires i < |ps| && s.currentStart + |s.current| == i && ClosedBehind(s.runs, s.starts, s.currentStart)
    requires RunsAreSeparated(s.runs, s.starts)
    ensures var t := ScanStep(s, ps[i], i + 1);
      ClosedBehind(t.runs, t.starts, t.currentStart) && RunsAreSeparated(t.runs, t.starts)
  {
    StepBehind(ps, s, i);
    if !IsSixteenth(ps[i]) && |s.current| > 0 {
      AppendSeparated(s.runs, s.starts, s.current, s.currentStart);
    }
  }

  lemma StepMaximal(ps: seq<NotePosition>, s: ScanState, i: nat)
    requires i < |ps| && s.currentStart + |s.current| == i && OpenRun(ps, s.current, s.currentStart)
    requires RunsAreStretches(ps, s.runs, s.starts) && RunsAreMaximal(ps, s.runs, s.starts)
    ensures var t := ScanStep(s, ps[i], i + 1);
      RunsAreStretches(ps, t.runs, t.starts) && RunsAreMaximal(ps, t.runs, t.starts)
  {
    StepStretches(ps, s, i);
    if !IsSixteenth(ps[i]) && |s.current| > 0 {
      AppendMaximal(ps, s.runs, s.starts, s.current, s.currentStart);
    }
  }

  lemma StepFlatten(ps: seq<NotePosition>, s: ScanState, i: nat)
    requires i < |ps| && Flatten(s.runs) + s.current == Sixteenths(ps[..i])
    ensures var t := ScanStep(s, ps[i], i + 1); Flatten(t.runs) + t.current == Sixteenths(ps[..i + 1])
  {
    SixteenthsStep(ps, i);
    if IsSixteenth(ps[i]) {
      assert Flatten(s.runs) + (s.current + [ps[i]]) == (Flatten(s.runs) + s.current) + [ps[i]];
    } else if |s.current| > 0 {
      FlattenAppend(s.runs, s.current);
      assert Flatten(s.runs + [s.current]) + [] == Flatten(s.runs + [s.current]);
      assert Sixteenths(ps[..i]) + [] == Sixteenths(ps[..i]);
    } else {
      assert Flatten(s.runs) + [] == Flatten(s.runs);
      assert Sixteenths(ps[..i]) + [] == Sixteenths(ps[..i]);
    }
  }

  lemma {:induction false} ScanPrefixOpen(ps: seq<NotePosition>, i: nat)
    requires i <= |ps|
    ensures var s := ScanPrefix(ps, i); s.currentStart + |s.current| == i && OpenRun(ps, s.current, s.currentStart)
  {
    if i > 0 {
      ScanPrefixOpen(ps, i - 1);
      StepOpen(ps, ScanPrefix(ps, i - 1), i - 1);
    }
  }

  lemma {:induction false} ScanPrefixLength(ps: seq<NotePosition>, i: nat)
    requires i <= |ps|
    ensures var s := ScanPrefix(ps, i); s.currentStart + |s.current| == i
  {
    if i > 0 {
      ScanPrefixLength(ps, i - 1);
    }
  }

  lemma {:induction false} ScanPrefixSeparated(ps: seq<NotePosition>, i: nat)
    requires i <= |ps|
    ensures var s := ScanPrefix(ps, i);
      ClosedBehind(s.runs, s.starts, s.currentStart) && RunsAreSeparated(s.runs, s.starts)
  {
    if i > 0 {
      ScanPrefixSeparated(ps, i - 1);
      ScanPrefixLength(ps, i - 1);
      StepSeparated(ps, ScanPrefix(ps, i - 1), i - 1);
    }
  }

  lemma {:induction false} ScanPrefixMaximal(ps: seq<NotePosition>, i: nat)
    requires i <= |ps|
    ensures var s := ScanPrefix(ps, i); RunsAreStretches(ps, s.runs, s.starts) && RunsAreMaximal(ps, s.runs, s.starts)
  {
    if i > 0 {
      ScanPrefixMaximal(ps, i - 1);
      ScanPrefixOpen(ps, i - 1);
      StepMaximal(ps, ScanPrefix(ps, i - 1), i - 1);
    }
  }

  lemma {:induction false} ScanPrefixFlatten(ps: seq<NotePosition>, i: nat)
    requires i <= |ps|
    ensures var s := ScanPrefix(ps, i); Flatten(s.runs) + s.current == Sixteenths(ps[..i])
  {
    if i == 0 {
      assert ps[..0] == [];
    } else {
      ScanPrefixFlatten(ps, i - 1);
      StepFlatten(ps, ScanPrefix(ps, i - 1), i - 1);
    }
  }

  /** Every prefix of the scan is in the state `Scanned` describes. */
  lemma ScanPrefixScanned(ps: seq<NotePosition>, i: nat)
    requires i <= |ps|
    ensures var s := ScanPrefix(ps, i); Scanned(ps, i, s.runs, s.starts, s.current, s.currentStart)
  {
    ScanPrefixOpen(ps, i);
    ScanPrefixSeparated(ps, i);
    ScanPrefixMaximal(ps, i);
    ScanPrefixFlatten(ps, i);
  }

  /** At the end of the group the open run, if any, is the last run. */
  lemma ScanFinish(ps: seq<NotePosition>, runs: seq<seq<NotePosition>>, starts: seq<nat>,
                   current: seq<NotePosition>, currentStart: nat)
    requires Scanned(ps, |ps|, runs, starts, current, currentStart) && |current| > 0
    ensures IsSixteenthRunPartition(ps, runs + [current], starts + [currentStart])
  {
    assert ps[..|ps|] == ps;
    AppendRun(ps, runs, starts, current, currentStart);
    FlattenAppend(runs, current);
  }

  /** At the end of the group with no run open, the finished runs are all of them. */
  lemma ScanFinishClosed(ps: seq<NotePosition>, runs: seq<seq<NotePosition>>, starts: seq<nat>,
                         currentStart: nat)
    requires Scanned(ps, |ps|, runs, starts, [], currentStart)
    ensures IsSixteenthRunPartition(ps, runs, starts)
  {
    assert ps[..|ps|] == ps;
    assert Flatten(runs) + [] == Flatten(runs);
  }

  /** The scan finds exactly the maximal runs of sixteenths. */
  lemma ScanResultIsPartition(ps: seq<NotePosition>)
    ensures IsSixteenthRunPartition(ps, ScanResult(ps).0, ScanResult(ps).1)
  {
    ScanPrefixScanned(ps, |ps|);
    var s := ScanPrefix(ps, |ps|);
    if |s.current| > 0 {
      ScanFinish(ps, s.runs, s.starts, s.current, s.currentStart);
    } else {
      ScanFinishClosed(ps, s.runs, s.starts, s.currentStart);
    }
  }

  /** Splits a group into its runs of sixteenth notes, which carry secondary beams. */
  method SixteenthRuns(ps: seq<NotePosition>) returns (runs: seq<seq<NotePosition>>, ghost starts: seq<nat>)
    ensures (runs, starts) == ScanResult(ps)
    ensures IsSixteenthRunPartition(ps, runs, starts)
  {
    runs, starts := [], [];
    var current: seq<NotePosition> := [];
    ghost var currentStart: nat := 0;
    for i := 0 to |ps|
      invariant ScanState(runs, starts, current, currentStart) == ScanPrefix(ps, i)
    {
      if IsSixteenth(ps[i]) {
        current := current + [ps[i]];
      } else if |current| > 0 {
        runs, starts := runs + [current], starts + [currentStart];
        current := [];
        currentStart := i + 1;
      } else {
        currentStart := i + 1;
      }
    }
    if |current| > 0 {
      runs, starts := runs + [current], starts + [currentStart];
    }
    ScanResultIsPartition(ps);
  }

  /** The stems, main beam and secondary beams of a group; nothing for fewer
      than two notes. */
  /** One secondary beam per run, at height `beamY`, from the stem of the run's
      first note to the stem of its last. */
  predicate SecondaryBeamsFollowRuns(beams: seq<Segment>, runs: seq<seq<NotePosition>>, dir: int, beamY: real)
  {
    && |beams| == |runs|
    && forall r :: 0 <= r < |runs| ==>
         |runs[r]| > 0
         && beams[r] == Segment(StemX(runs[r][0].x, dir), beamY, StemX(runs[r][|runs[r]| - 1].x, dir), beamY)
  }

  method Render(ps: seq<NotePosition>) returns (g: Option<BeamGeometry>)
    ensures g.None? <==> |ps| < 2
    ensures g.Some? ==>
      var dir := StemDirectionOf(ps[0].note);
      var anchor := BeamAnchorY(ps, dir);
      && g.value.direction == dir
      && g.value.anchorY == anchor
      && |g.value.stems| == |ps|
      && (forall i :: 0 <= i < |ps| ==>
            g.value.stems[i] == Segment(StemX(ps[i].x, dir), ps[i].y, StemX(ps[i].x, dir), anchor))
      && g.value.mainBeam == Segment(StemX(ps[0].x, dir), anchor, StemX(ps[|ps| - 1].x, dir), anchor)
    ensures g.Some? ==>
      var dir := StemDirectionOf(ps[0].note);
      var beamY := SecondaryBeamY(BeamAnchorY(ps, dir), dir);
      exists runs: seq<seq<NotePosition>>, starts: seq<nat> ::
        && (runs, starts) == ScanResult(ps)
        && IsSixteenthRunPartition(ps, runs, starts)
        && SecondaryBeamsFollowRuns(g.value.secondaryBeams, runs, dir, beamY)
  {
    if |ps| < 2 {
      return None;
    }
    var dir := StemDirectionOf(ps[0].note);
    var anchor := BeamAnchorY(ps, dir);
    var runs: seq<seq<NotePosition>>;
    ghost var starts: seq<nat>;
    runs, starts := SixteenthRuns(ps);
    var beamY := SecondaryBeamY(anchor, dir);
    var secondary: seq<Segment> := seq(|runs|, r requires 0 <= r < |runs| =>
      Segment(StemX(runs[r][0].x, dir), beamY, StemX(runs[r][|runs[r]| - 1].x, dir), beamY));
    var stems := seq(|ps|, i requires 0 <= i < |ps| =>
      Segment(StemX(ps[i].x, dir), ps[i].y, StemX(ps[i].x, dir), anchor));
    var main := Segment(StemX(ps[0].x, dir), anchor, StemX(ps[|ps| - 1].x, dir), anchor);
    g := Some(BeamGeometry(dir, anchor, stems, main, secondary));
    assert SecondaryBeamsFollowRuns(secondary, runs, dir, beamY);
  }
}
