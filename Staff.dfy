/** The staff: the order in which notes are drawn, their split into beamed groups,
    where each note is drawn, and which measure and beat a pointer position on
    the staff stands for. */
module Staff {
  import opened Types
  import opened Constants
  import opened JsMath
  import opened Sequences
  import opened BeamedNoteGroup

  // ---------------------------------------------------------------------------
  // Sorting notes into playing order

  /** The sort key of the grouping code: measures weigh 100 beats. */
  function SortKey(n: Note): real {
    n.measure as real * 100.0 + n.beat
  }

  predicate SortedByKey(s: seq<Note>) {
    forall i, j :: 0 <= i < j < |s| ==> SortKey(s[i]) <= SortKey(s[j])
  }

  /** The notes of `s` with sort key `k`, in their order in `s`. */
  function WithKey(s: seq<Note>, k: real): (r: seq<Note>)
    ensures forall i :: 0 <= i < |r| ==> SortKey(r[i]) == k
  {
    if s == [] then []
    else WithKey(s[..|s| - 1], k) + (if SortKey(s[|s| - 1]) == k then [s[|s| - 1]] else [])
  }

  lemma {:induction false} WithKeyConcat(a: seq<Note>, b: seq<Note>, k: real)
    ensures WithKey(a + b, k) == WithKey(a, k) + WithKey(b, k)
    decreases |b|
  {
    if b == [] {
      assert a + b == a;
    } else {
      var b' := b[..|b| - 1];
      assert (a + b)[..|a + b| - 1] == a + b';
      WithKeyConcat(a, b', k);
    }
  }

  /** Inserts `n` into the sorted `s` after every note whose key is not above its own. */
  function Insert(s: seq<Note>, n: Note): (r: seq<Note>)
    requires SortedByKey(s)
    ensures SortedByKey(r)
    ensures multiset(r) == multiset(s) + multiset{n}
    ensures forall x :: x in r ==> x in s || x == n
  {
    if s == [] || SortKey(s[|s| - 1]) <= SortKey(n) then
      AppendSorted(s, n);
      s + [n]
    else
      var init, last := s[..|s| - 1], s[|s| - 1];
      SplitLast(s);
      var ins := Insert(init, n);
      InsertBelowLast(init, ins, n, last);
      ins + [last]
  }

  /** A note whose key is not below any key of a sorted sequence can go at its end. */
  lemma AppendSorted(s: seq<Note>, n: Note)
    requires SortedByKey(s)
    requires s != [] ==> SortKey(s[|s| - 1]) <= SortKey(n)
    ensures SortedByKey(s + [n])
  {
  }

  lemma InsertBelowLast(init: seq<Note>, ins: seq<Note>, n: Note, last: Note)
    requires SortedByKey(init + [last]) && SortedByKey(ins)
    requires SortKey(n) < SortKey(last)
    requires forall x :: x in ins ==> x in init || x == n
    ensures SortedByKey(ins + [last])
  {
    forall i | 0 <= i < |ins|
      ensures SortKey(ins[i]) <= SortKey(last)
    {
      assert ins[i] in ins;
      if ins[i] != n {
        var j :| 0 <= j < |init| && init[j] == ins[i];
        assert (init + [last])[j] == init[j] && (init + [last])[|init|] == last;
      }
    }
  }

  /** The notes of `s` ordered by `SortKey`, notes with equal keys in their order
      in `s` (JavaScript's `sort` is stable). */
  function SortByKey(s: seq<Note>): (r: seq<Note>)
    ensures SortedByKey(r)
    ensures multiset(r) == multiset(s)
  {
    if s == [] then []
    else
      SplitLast(s);
      Insert(SortByKey(s[..|s| - 1]), s[|s| - 1])
  }

  lemma {:induction false} InsertKeepsKeyOrder(s: seq<Note>, n: Note, k: real)
    requires SortedByKey(s)
    ensures WithKey(Insert(s, n), k) == WithKey(s, k) + WithKey([n], k)
    decreases |s|
  {
    if s == [] || SortKey(s[|s| - 1]) <= SortKey(n) {
      WithKeyConcat(s, [n], k);
    } else {
      var init, last := s[..|s| - 1], s[|s| - 1];
      SplitLast(s);
      InsertKeepsKeyOrder(init, n, k);
      KeyOrderBehindLast(Insert(init, n), init, n, last, k);
    }
  }

  /** Putting `last` behind both sides keeps the per-key order, because `n`, whose key
      is below that of `last`, never shares a key with it. */
  lemma KeyOrderBehindLast(ins: seq<Note>, init: seq<Note>, n: Note, last: Note, k: real)
    requires WithKey(ins, k) == WithKey(init, k) + WithKey([n], k)
    requires SortKey(n) < SortKey(last)
    ensures WithKey(ins + [last], k) == WithKey(init + [last], k) + WithKey([n], k)
  {
    WithKeyConcat(ins, [last], k);
    WithKeyConcat(init, [last], k);
    WithKeySingle(n, k);
    WithKeySingle(last, k);
    SwapPastEmpty(WithKey(ins, k), WithKey(init, k), WithKey([n], k), WithKey([last], k));
  }

  lemma WithKeySingle(n: Note, k: real)
    ensures WithKey([n], k) == if SortKey(n) == k then [n] else []
  {
    assert [n][..0] == [];
  }

  /** Sorting is stable: the notes that share a key keep their relative order. */
  lemma {:induction false} SortByKeyIsStable(s: seq<Note>, k: real)
    ensures WithKey(SortByKey(s), k) == WithKey(s, k)
    decreases |s|
  {
    if s != [] {
      var init, last := s[..|s| - 1], s[|s| - 1];
      var sortedInit := SortByKey(init);
      assert SortByKey(s) == Insert(sortedInit, last);
      SortByKeyIsStable(init, k);
      InsertKeepsKeyOrder(sortedInit, last, k);
      assert WithKey(s, k) == WithKey(init, k) + WithKey([last], k) by {
        WithKeySingle(last, k);
      }
    }
  }

  // ---------------------------------------------------------------------------
  // Beaming

  /** Only eighth and sixteenth notes are beamed. */
  predicate IsBeamable(n: Note) {
    n.duration == Eighth || n.duration == Sixteenth
  }

  /** A note joins the beam of the note before it when both are in the same voice,
      the same measure and the same beat. */
  predicate CanBeBeamed(last: Note, note: Note) {
    note.voice == last.voice && note.measure == last.measure && note.beat.Floor == last.beat.Floor
  }

  /** A non-empty run of beamable notes, each joining the beam of the one before. */
  predicate BeamRun(g: seq<Note>) {
    && |g| > 0
    && (forall i :: 0 <= i < |g| ==> IsBeamable(g[i]))
    && (forall i :: 0 < i < |g| ==> CanBeBeamed(g[i - 1], g[i]))
  }

  /** A group is either one unbeamable note on its own or a beam run. */
  predicate ValidGroup(g: seq<Note>) {
    (|g| == 1 && !IsBeamable(g[0])) || BeamRun(g)
  }

  /** No two neighbouring beam runs could have been one run. */
  predicate Maximal(groups: seq<seq<Note>>)
    requires forall i :: 0 <= i < |groups| ==> |groups[i]| > 0
  {
    forall i :: 0 < i < |groups| && BeamRun(groups[i - 1]) && BeamRun(groups[i]) ==>
      !CanBeBeamed(groups[i - 1][|groups[i - 1]| - 1], groups[i][0])
  }

  predicate AllValid(groups: seq<seq<Note>>) {
    forall i :: 0 <= i < |groups| ==> ValidGroup(groups[i])
  }

  /** The state of the grouping loop after the first `i` sorted notes: `groups` are
      closed, and `current` is the beam run still open. */
  ghost predicate Grouped(sorted: seq<Note>, i: nat, groups: seq<seq<Note>>, current: seq<Note>)
  {
    && i <= |sorted|
    && Flatten(groups) + current == sorted[..i]
    && AllValid(groups)
    && Maximal(groups)
    && (current == [] || BeamRun(current))
    && (current == [] ==> groups == [] || !BeamRun(groups[|groups| - 1]))
    && (current != [] && groups != [] && BeamRun(groups[|groups| - 1]) ==>
          !CanBeBeamed(groups[|groups| - 1][|groups[|groups| - 1]| - 1], current[0]))
  }

  lemma GroupStart(sorted: seq<Note>)
    ensures Grouped(sorted, 0, [], [])
  {
    assert sorted[..0] == [];
  }

  /** Closing a non-empty open run keeps the closed groups valid and maximal. */
  lemma CloseRun(groups: seq<seq<Note>>, current: seq<Note>)
    requires AllValid(groups) && Maximal(groups) && BeamRun(current)
    requires groups != [] && BeamRun(groups[|groups| - 1]) ==>
      !CanBeBeamed(groups[|groups| - 1][|groups[|groups| - 1]| - 1], current[0])
    ensures AllValid(groups + [current]) && Maximal(groups + [current])
  {
    var gs := groups + [current];
    forall i | 0 < i < |gs| && BeamRun(gs[i - 1]) && BeamRun(gs[i])
      ensures !CanBeBeamed(gs[i - 1][|gs[i - 1]| - 1], gs[i][0])
    {
      if i < |groups| {
        assert gs[i - 1] == groups[i - 1] && gs[i] == groups[i];
      }
    }
  }

  /** An unbeamable note closes the open run and stands alone. */
  lemma GroupAlone(sorted: seq<Note>, i: nat, groups: seq<seq<Note>>, current: seq<Note>)
    requires Grouped(sorted, i, groups, current)
    requires i < |sorted| && !IsBeamable(sorted[i])
    ensures current != [] ==> Grouped(sorted, i + 1, groups + [current] + [[sorted[i]]], [])
    ensures current == [] ==> Grouped(sorted, i + 1, groups + [[sorted[i]]], [])
  {
    if current != [] {
      CloseRun(groups, current);
      FlattenAppend(groups, current);
      AloneAfterClosed(sorted, i, groups + [current]);
    } else {
      assert Flatten(groups) + [] == Flatten(groups);
      AloneAfterClosed(sorted, i, groups);
    }
  }

  /** With every group closed, an unbeamable note is a group of its own. */
  lemma AloneAfterClosed(sorted: seq<Note>, i: nat, closed: seq<seq<Note>>)
    requires i < |sorted| && !IsBeamable(sorted[i])
    requires Flatten(closed) == sorted[..i] && AllValid(closed) && Maximal(closed)
    ensures Grouped(sorted, i + 1, closed + [[sorted[i]]], [])
  {
    var gs := closed + [[sorted[i]]];
    CloseAlone(closed, sorted[i]);
    FlattenAppend(closed, [sorted[i]]);
    assert sorted[..i + 1] == sorted[..i] + [sorted[i]];
    assert Flatten(gs) + [] == Flatten(gs);
    assert gs[|gs| - 1] == [sorted[i]];
  }

  lemma CloseAlone(groups: seq<seq<Note>>, n: Note)
    requires AllValid(groups) && Maximal(groups) && !IsBeamable(n)
    ensures AllValid(groups + [[n]]) && Maximal(groups + [[n]])
  {
    var gs := groups + [[n]];
    assert !BeamRun(gs[|groups|]) by {
      assert gs[|groups|] == [n] && [n][0] == n;
    }
    forall i | 0 < i < |gs| && BeamRun(gs[i - 1]) && BeamRun(gs[i])
      ensures !CanBeBeamed(gs[i - 1][|gs[i - 1]| - 1], gs[i][0])
    {
      if i < |groups| {
        assert gs[i - 1] == groups[i - 1] && gs[i] == groups[i];
      } else {
        assert false;
      }
    }
  }

  /** A beamable note opens a run when none is open. */
  lemma GroupOpen(sorted: seq<Note>, i: nat, groups: seq<seq<Note>>)
    requires Grouped(sorted, i, groups, [])
    requires i < |sorted| && IsBeamable(sorted[i])
    ensures Grouped(sorted, i + 1, groups, [sorted[i]])
  {
    assert sorted[..i + 1] == sorted[..i] + [sorted[i]];
  }

  /** A beamable note that can join the open run extends it. */
  lemma GroupExtend(sorted: seq<Note>, i: nat, groups: seq<seq<Note>>, current: seq<Note>)
    requires Grouped(sorted, i, groups, current) && current != []
    requires i < |sorted| && IsBeamable(sorted[i]) && CanBeBeamed(current[|current| - 1], sorted[i])
    ensures Grouped(sorted, i + 1, groups, current + [sorted[i]])
  {
    assert sorted[..i + 1] == sorted[..i] + [sorted[i]];
  }

  /** A beamable note that cannot join the open run closes it and opens its own. */
  lemma GroupSplit(sorted: seq<Note>, i: nat, groups: seq<seq<Note>>, current: seq<Note>)
    requires Grouped(sorted, i, groups, current) && current != []
    requires i < |sorted| && IsBeamable(sorted[i]) && !CanBeBeamed(current[|current| - 1], sorted[i])
    ensures Grouped(sorted, i + 1, groups + [current], [sorted[i]])
  {
    CloseRun(groups, current);
    FlattenAppend(groups, current);
    assert sorted[..i + 1] == sorted[..i] + [sorted[i]];
  }

  lemma GroupFinish(sorted: seq<Note>, groups: seq<seq<Note>>, current: seq<Note>)
    requires Grouped(sorted, |sorted|, groups, current)
    ensures current != [] ==>
      Flatten(groups + [current]) == sorted && AllValid(groups + [current]) && Maximal(groups + [current])
    ensures current == [] ==> Flatten(groups) == sorted
  {
    assert sorted[..|sorted|] == sorted;
    if current != [] {
      CloseRun(groups, current);
      FlattenAppend(groups, current);
    }
  }

  /** Splits the notes, in playing order, into groups: each unbeamable note on its
      own, and each longest run of beamable notes that share voice, measure and
      beat into one beamed group. */
  method GroupNotesForBeaming(notes: seq<Note>) returns (groups: seq<seq<Note>>)
    ensures notes == [] ==> groups == []
    ensures Flatten(groups) == SortByKey(notes)
    ensures AllValid(groups)
    ensures Maximal(groups)
  {
    if notes == [] {
      return [];
    }
    var sorted := SortByKey(notes);
    groups := [];
    var current: seq<Note> := [];
    GroupStart(sorted);
    for i := 0 to |sorted|
      invariant Grouped(sorted, i, groups, current)
    {
      var note := sorted[i];
      if !IsBeamable(note) {
        GroupAlone(sorted, i, groups, current);
        if |current| > 0 {
          groups := groups + [current];
        }
        groups := groups + [[note]];
        current := [];
      } else if |current| == 0 {
        GroupOpen(sorted, i, groups);
        current := [note];
      } else if CanBeBeamed(current[|current| - 1], note) {
        GroupExtend(sorted, i, groups, current);
        current := current + [note];
      } else {
        GroupSplit(sorted, i, groups, current);
        groups := groups + [current];
        current := [note];
      }
    }
    GroupFinish(sorted, groups, current);
    if |current| > 0 {
      groups := groups + [current];
    }
  }

  /** Every note of a group shares the first note's voice, measure and beat. */
  lemma {:induction false} GroupShares(g: seq<Note>, k: int)
    requires ValidGroup(g) && 0 <= k < |g|
    ensures g[k].voice == g[0].voice && g[k].measure == g[0].measure && g[k].beat.Floor == g[0].beat.Floor
    decreases k
  {
    if k > 0 {
      GroupShares(g, k - 1);
    }
  }

  /** The notes of voice `v`, in store order (`notes.filter(n => n.voice === v)`). */
  function NotesOfVoice(notes: seq<Note>, v: Voice): (r: seq<Note>)
    ensures forall i :: 0 <= i < |r| ==> r[i].voice == v
    ensures forall x :: x in r ==> x in notes
    ensures forall x :: x in notes && x.voice == v ==> x in r
  {
    if notes == [] then []
    else
      var init, last := notes[..|notes| - 1], notes[|notes| - 1];
      SplitLast(notes);
      NotesOfVoice(init, v) + (if last.voice == v then [last] else [])
  }

  /** The filter keeps store order: filtering a concatenation filters each part. */
  lemma {:induction false} NotesOfVoiceConcat(a: seq<Note>, b: seq<Note>, v: Voice)
    ensures NotesOfVoice(a + b, v) == NotesOfVoice(a, v) + NotesOfVoice(b, v)
    decreases |b|
  {
    if b == [] {
      assert a + b == a;
    } else {
      var b' := b[..|b| - 1];
      assert (a + b)[..|a + b| - 1] == a + b';
      NotesOfVoiceConcat(a, b', v);
    }
  }

  /** Every note is in exactly one of the two voices. */
  lemma {:induction false} VoicesPartitionNotes(notes: seq<Note>)
    ensures multiset(NotesOfVoice(notes, 1)) + multiset(NotesOfVoice(notes, 2)) == multiset(notes)
    decreases |notes|
  {
    if notes != [] {
      var init := notes[..|notes| - 1];
      VoicesPartitionNotes(init);
      SplitLast(notes);
    }
  }

  predicate OfVoice(groups: seq<seq<Note>>, v: Voice) {
    forall i, k :: 0 <= i < |groups| && 0 <= k < |groups[i]| ==> groups[i][k].voice == v
  }

  /** Grouping the notes of one voice gives groups of that voice only. */
  lemma GroupsOfVoice(notes: seq<Note>, groups: seq<seq<Note>>, v: Voice)
    requires Flatten(groups) == SortByKey(NotesOfVoice(notes, v))
    ensures OfVoice(groups, v)
  {
    forall i, k | 0 <= i < |groups| && 0 <= k < |groups[i]|
      ensures groups[i][k].voice == v
    {
      var x := groups[i][k];
      FlattenContains(groups, i, x);
      assert x in multiset(SortByKey(NotesOfVoice(notes, v)));
      assert x in NotesOfVoice(notes, v);
    }
  }

  /** Voice-1 groups followed by voice-2 groups stay valid and maximal: no beam
      crosses from one voice into the other. */
  lemma ConcatVoiceGroups(groups1: seq<seq<Note>>, groups2: seq<seq<Note>>)
    requires AllValid(groups1) && Maximal(groups1) && OfVoice(groups1, 1)
    requires AllValid(groups2) && Maximal(groups2) && OfVoice(groups2, 2)
    ensures AllValid(groups1 + groups2) && Maximal(groups1 + groups2)
    ensures forall i, j :: 0 <= i < j < |groups1 + groups2| ==>
      (groups1 + groups2)[i][0].voice <= (groups1 + groups2)[j][0].voice
  {
    var gs := groups1 + groups2;
    forall i | 0 < i < |gs| && BeamRun(gs[i - 1]) && BeamRun(gs[i])
      ensures !CanBeBeamed(gs[i - 1][|gs[i - 1]| - 1], gs[i][0])
    {
      if i < |groups1| {
        assert gs[i - 1] == groups1[i - 1] && gs[i] == groups1[i];
      } else if i > |groups1| {
        assert gs[i - 1] == groups2[i - 1 - |groups1|] && gs[i] == groups2[i - |groups1|];
      } else {
        assert gs[i - 1][|gs[i - 1]| - 1].voice == 1 && gs[i][0].voice == 2;
      }
    }
    forall i, j | 0 <= i < j < |gs|
      ensures gs[i][0].voice <= gs[j][0].voice
    {
      if j < |groups1| {
        assert gs[j][0].voice == 1;
      } else {
        assert gs[j][0].voice == 2;
      }
    }
  }

  /** The groups the staff draws: those of voice 1, then those of voice 2. */
  method NoteGroups(notes: seq<Note>) returns (groups: seq<seq<Note>>)
    ensures Flatten(groups) == SortByKey(NotesOfVoice(notes, 1)) + SortByKey(NotesOfVoice(notes, 2))
    ensures multiset(Flatten(groups)) == multiset(notes)
    ensures AllValid(groups) && Maximal(groups)
    ensures forall i, k :: 0 <= i < |groups| && 0 <= k < |groups[i]| ==> groups[i][k].voice == groups[i][0].voice
    ensures forall i, j :: 0 <= i < j < |groups| ==> groups[i][0].voice <= groups[j][0].voice
  {
    var voice1 := NotesOfVoice(notes, 1);
    var voice2 := NotesOfVoice(notes, 2);
    var groups1 := GroupNotesForBeaming(voice1);
    var groups2 := GroupNotesForBeaming(voice2);
    GroupsOfVoice(notes, groups1, 1);
    GroupsOfVoice(notes, groups2, 2);
    ConcatVoiceGroups(groups1, groups2);
    FlattenConcat(groups1, groups2);
    VoicesPartitionNotes(notes);
    groups := groups1 + groups2;
    forall i, k | 0 <= i < |groups| && 0 <= k < |groups[i]|
      ensures groups[i][k].voice == groups[i][0].voice
    {
      GroupShares(groups[i], k);
    }
  }

  // ---------------------------------------------------------------------------
  // Layout: where a note is drawn

  /** The staff line a measure is drawn on. */
  function LineOfMeasure(measure: int): int {
    (measure as real / MeasuresPerLine as real).Floor
  }

  /** The width of one beat when a measure holds `top` beats. */
  function BeatWidth(top: int): (w: real)
    requires top >= 1
    ensures w > 0.0
  {
    NoteAreaWidth / top as real
  }

  /** The left end of the note area of a measure, in its column of the staff line. */
  function NoteAreaLeft(measure: int): real {
    MeasuresStartX + IntRem(measure, MeasuresPerLine) as real * MeasureWidth + MeasurePaddingHorizontal
  }

  /** The x of a note: its beat's distance into its measure's note area. */
  function CalculateX(measure: int, beat: real, top: int): (x: real)
    requires top >= 1
    ensures 0.0 <= beat <= top as real ==> NoteAreaLeft(measure) <= x <= NoteAreaLeft(measure) + NoteAreaWidth
  {
    BeatOffsetBounds(beat, top);
    NoteAreaLeft(measure) + beat * BeatWidth(top)
  }

  /** The y of a notehead for `part` on staff line `line`. */
  function CalculateY(line: int, part: DrumPart): (y: real)
    ensures line as real * LineHeight < y < (line + 1) as real * LineHeight
  {
    line as real * LineHeight + PartY(part)
  }

  lemma BeatOffsetBounds(beat: real, top: int)
    requires top >= 1
    ensures 0.0 <= beat <= top as real ==> 0.0 <= beat * BeatWidth(top) <= NoteAreaWidth
  {
    if 0.0 <= beat <= top as real {
      var w := BeatWidth(top);
      assert w * top as real == NoteAreaWidth;
      ScaleMonotone(w, beat, top as real);
      NonNegativeProduct(w, beat);
    }
  }

  /** The positions at which a group's notes are drawn. Every note is placed on the
      staff line of the group's first note, which for a valid group is its own. */
  function LayoutGroup(group: seq<Note>, top: int): (ps: seq<NotePosition>)
    requires top >= 1 && |group| > 0
    ensures |ps| == |group|
    ensures forall i :: 0 <= i < |ps| ==> ps[i].note == group[i]
    ensures forall i :: 0 <= i < |ps| ==> ps[i].x == CalculateX(group[i].measure, group[i].beat, top)
    ensures ValidGroup(group) ==>
      forall i :: 0 <= i < |ps| ==> ps[i].y == CalculateY(LineOfMeasure(group[i].measure), group[i].part)
  {
    var line := LineOfMeasure(group[0].measure);
    var ps := seq(|group|, i requires 0 <= i < |group| =>
      NotePosition(group[i], CalculateX(group[i].measure, group[i].beat, top), CalculateY(line, group[i].part)));
    if ValidGroup(group) then
      SharedLine(group);
      ps
    else ps
  }

  lemma SharedLine(group: seq<Note>)
    requires ValidGroup(group)
    ensures forall i :: 0 <= i < |group| ==> LineOfMeasure(group[i].measure) == LineOfMeasure(group[0].measure)
  {
    forall i | 0 <= i < |group|
      ensures LineOfMeasure(group[i].measure) == LineOfMeasure(group[0].measure)
    {
      GroupShares(group, i);
    }
  }

  /** A measure is drawn on line `measure / 4`, in column `measure % 4`. */
  lemma MeasureOfLineAndColumn(line: int, column: int)
    requires line >= 0 && 0 <= column < MeasuresPerLine
    ensures LineOfMeasure(line * MeasuresPerLine + column) == line
    ensures IntRem(line * MeasuresPerLine + column, MeasuresPerLine) == column
  {
    var m := line * MeasuresPerLine + column;
    FloorOfQuotient(m as real, MeasuresPerLine as real, line);
  }

  // ---------------------------------------------------------------------------
  // Pointer: which measure and beat a point on the staff stands for

  datatype PointerPosition = PointerPosition(measure: int, beat: real, part: DrumPart, x: real, y: real)

  /** The number of staff lines: `Math.ceil(16 / 4)`. */
  const NumLines: int := Ceil(NumMeasures as real / MeasuresPerLine as real)

  /** Grid points per beat for the selected duration, doubled in eighth-note time. */
  function Subdivision(duration: NoteDuration, bottom: int): (s: int)
    ensures 1 <= s <= 2 * SubdivisionsPerBeat
  {
    var beatUnit := if bottom == 8 then 2 else 1;
    if duration == Sixteenth then SubdivisionsPerBeat * beatUnit
    else if duration == Eighth then 2 * beatUnit
    else 1 * beatUnit
  }

  /** `b` is a whole number of grid points of size `1 / subdivision`. */
  predicate OnGrid(b: real, subdivision: int) {
    (b * subdivision as real).Floor as real == b * subdivision as real
  }

  /** `q` is a grid point nearest to `b`: within half a grid step, ties going up. */
  predicate NearestOnGrid(q: real, b: real, subdivision: int) {
    -0.5 < (q - b) * subdivision as real <= 0.5
  }

  /** Rounds a beat to the nearest grid point, never below 0. */
  function QuantizeBeat(beatInMeasure: real, subdivision: int): (q: real)
    requires subdivision >= 1
    ensures q >= 0.0 && OnGrid(q, subdivision)
    ensures beatInMeasure >= 0.0 ==> NearestOnGrid(q, beatInMeasure, subdivision)
  {
    var steps := Round(beatInMeasure * subdivision as real);
    var rounded := steps as real / subdivision as real;
    QuantizeFacts(beatInMeasure, subdivision, steps, rounded);
    if rounded >= 0.0 then rounded else 0.0
  }

  lemma QuantizeFacts(b: real, subdivision: int, steps: int, rounded: real)
    requires subdivision >= 1 && rounded == steps as real / subdivision as real
    requires steps as real - 0.5 <= b * subdivision as real < steps as real + 0.5
    ensures OnGrid(rounded, subdivision) && OnGrid(0.0, subdivision)
    ensures rounded >= 0.0 <==> steps >= 0
    ensures b >= 0.0 ==> steps >= 0
    ensures (rounded - b) * subdivision as real == steps as real - b * subdivision as real
  {
    var s := subdivision as real;
    assert rounded * s == steps as real;
    assert (steps as real).Floor == steps;
    if b >= 0.0 {
      NonNegativeProduct(s, b);
    }
    if steps >= 0 {
      QuotientLower(steps as real, s, 0.0);
    } else {
      QuotientUpper(steps as real, s, 0.0);
    }
  }

  /** A beat no later than a whole beat `n` never rounds past it. */
  lemma QuantizedBeatAtMost(b: real, subdivision: int, n: int)
    requires subdivision >= 1 && 0.0 <= b <= n as real
    ensures QuantizeBeat(b, subdivision) <= n as real
  {
    var steps := Round(b * subdivision as real);
    StepsAtMost(b, subdivision, n, steps);
    QuotientAtMost(steps as real, subdivision as real, n as real);
  }

  lemma StepsAtMost(b: real, subdivision: int, n: int, steps: int)
    requires subdivision >= 1 && 0.0 <= b <= n as real
    requires steps as real - 0.5 <= b * subdivision as real
    ensures steps as real <= subdivision as real * n as real
  {
    ScaleMonotone(subdivision as real, b, n as real);
    ProductOfWholes(subdivision, n);
    WholeAtMost(steps, subdivision * n);
  }

  lemma QuotientAtMost(a: real, b: real, k: real)
    requires b > 0.0 && a <= b * k
    ensures a / b <= k
  {
    var q := a / b;
    assert a == b * q;
    if q > k {
      PositiveProduct(b, q - k);
      assert false;
    }
  }

  /** A beat that is already on the grid is left where it is. */
  lemma QuantizeGridBeat(b: real, subdivision: int)
    requires subdivision >= 1 && b >= 0.0 && OnGrid(b, subdivision)
    ensures QuantizeBeat(b, subdivision) == b
  {
    RoundOfWhole(b * subdivision as real);
    QuotientOfProduct(b, subdivision as real);
  }

  lemma QuotientOfProduct(b: real, s: real)
    requires s > 0.0
    ensures (b * s) / s == b
  {
  }

  /** Staff lines are numbered from the top; there are `Math.ceil(16 / 4)` of them. */
  lemma NumLinesIsFour()
    ensures NumLines == 4
  {
  }

  /** Measure `measure`, between 0 and 15, sits in line `measure / 4`, column `measure % 4`. */
  lemma MeasureDecompose(measure: int)
    requires 0 <= measure < NumMeasures
    ensures 0 <= LineOfMeasure(measure) < NumLines
    ensures 0 <= IntRem(measure, MeasuresPerLine) < MeasuresPerLine
    ensures measure == LineOfMeasure(measure) * MeasuresPerLine + IntRem(measure, MeasuresPerLine)
  {
    var line, column := measure / MeasuresPerLine, measure % MeasuresPerLine;
    assert measure == line * MeasuresPerLine + column;
    MeasureOfLineAndColumn(line, column);
    NumLinesIsFour();
  }

  /** (x, y) lies on the note area of `measure`: on its staff line's band and between
      the paddings of its column. */
  ghost predicate InMeasureArea(x: real, y: real, measure: int) {
    && 0 <= measure < NumMeasures
    && LineOfMeasure(measure) as real * LineHeight <= y < (LineOfMeasure(measure) + 1) as real * LineHeight
    && NoteAreaLeft(measure) <= x <= NoteAreaLeft(measure) + NoteAreaWidth
  }

  ghost predicate OnNoteArea(x: real, y: real) {
    exists measure :: InMeasureArea(x, y, measure)
  }

  /** The unrounded beat at offset `padded` into a note area of `top` beats. */
  function RawBeat(padded: real, top: int): real {
    (padded / NoteAreaWidth) * top as real
  }

  /** The unrounded beat at `x` in the note area of `measure`. */
  function BeatAt(x: real, measure: int, top: int): real {
    RawBeat(x - NoteAreaLeft(measure), top)
  }

  /** Where on the staff a pointer is: its staff line, its measure's column on that
      line, and its offset into that measure's note area. */
  datatype StaffCell = StaffCell(line: int, column: int, padded: real)

  /** The first half of the pointer mapping: the checks that the pointer lies on a
      measure's note area, and where on it. */
  function LocatePointer(x: real, y: real): (c: Option<StaffCell>)
    ensures c.Some? ==>
      var measure := c.value.line * MeasuresPerLine + c.value.column;
      && 0 <= c.value.line < NumLines && 0 <= c.value.column < MeasuresPerLine
      && 0.0 <= c.value.padded <= NoteAreaWidth
      && InMeasureArea(x, y, measure)
      && c.value.padded == x - NoteAreaLeft(measure)
  {
    var lineIndex := (y / LineHeight).Floor;
    if lineIndex < 0 || lineIndex >= NumLines then None
    else
      var musicAreaX := x - MeasuresStartX;
      if musicAreaX < 0.0 then None
      else
        var measureInLine := (musicAreaX / MeasureWidth).Floor;
        if measureInLine < 0 || measureInLine >= MeasuresPerLine then None
        else
          var measureIndex := lineIndex * MeasuresPerLine + measureInLine;
          if measureIndex >= NumMeasures then None
          else
            var xInMeasure := RealRem(musicAreaX, MeasureWidth);
            var paddedXInMeasure := xInMeasure - MeasurePaddingHorizontal;
            if paddedXInMeasure < 0.0 || paddedXInMeasure > NoteAreaWidth then None
            else
              PointerInArea(x, y, lineIndex, measureInLine, paddedXInMeasure);
              Some(StaffCell(lineIndex, measureInLine, paddedXInMeasure))
  }

  /** The measure, grid beat and drawing position a pointer at (x, y) stands for,
      or nothing when the pointer is off every measure's note area. */
  function GetNotePosition(x: real, y: real, ts: TimeSignature, duration: NoteDuration, part: DrumPart)
    : (r: Option<PointerPosition>)
    requires ts.top >= 1
    ensures r.Some? ==>
      var p := r.value;
      var subdivision := Subdivision(duration, ts.bottom);
      && InMeasureArea(x, y, p.measure)
      && p.part == part
      && p.x == CalculateX(p.measure, p.beat, ts.top)
      && p.y == CalculateY(LineOfMeasure(p.measure), part)
      && 0.0 <= p.beat <= ts.top as real && OnGrid(p.beat, subdivision)
      && NearestOnGrid(p.beat, BeatAt(x, p.measure, ts.top), subdivision)
  {
    match LocatePointer(x, y)
    case None => None
    case Some(cell) =>
      var position := PlaceOnGrid(cell.line, cell.column, cell.padded, ts, duration, part);
      Some(position)
  }

  /** The second half of the pointer mapping: the quantized beat at offset `padded`
      into the note area of the measure in `line` and `column`, and where the hover
      marker for it is drawn. */
  function PlaceOnGrid(line: int, column: int, padded: real, ts: TimeSignature, duration: NoteDuration, part: DrumPart)
    : (p: PointerPosition)
    requires 0 <= line < NumLines && 0 <= column < MeasuresPerLine
    requires ts.top >= 1 && 0.0 <= padded <= NoteAreaWidth
    ensures p.measure == line * MeasuresPerLine + column && p.part == part
    ensures LineOfMeasure(p.measure) == line
    ensures p.x == CalculateX(p.measure, p.beat, ts.top)
    ensures p.y == CalculateY(line, part)
    ensures 0.0 <= p.beat <= ts.top as real && OnGrid(p.beat, Subdivision(duration, ts.bottom))
    ensures NearestOnGrid(p.beat, RawBeat(padded, ts.top), Subdivision(duration, ts.bottom))
  {
    var measureIndex := line * MeasuresPerLine + column;
    var quantizedBeat := QuantizedBeatAt(padded, ts.top, Subdivision(duration, ts.bottom));
    var lineYOffset := line as real * LineHeight;
    var beatX := HoverX(column, quantizedBeat, ts.top);
    var partY := lineYOffset + PartY(part);
    HoverXIsCalculateX(line, column, quantizedBeat, ts.top);
    PointerPosition(measureIndex, quantizedBeat, part, beatX, partY)
  }

  /** The beat the pointer picks at offset `padded` into a measure's note area:
      the raw beat rounded to the nearest grid point. */
  function QuantizedBeatAt(padded: real, top: int, subdivision: int): (q: real)
    requires top >= 1 && subdivision >= 1 && 0.0 <= padded <= NoteAreaWidth
    ensures 0.0 <= q <= top as real && OnGrid(q, subdivision)
    ensures NearestOnGrid(q, RawBeat(padded, top), subdivision)
  {
    var beatInMeasure := RawBeat(padded, top);
    PointerBeatBounds(padded, top, subdivision);
    QuantizeBeat(beatInMeasure, subdivision)
  }

  /** The x of the hover marker for `beat` in the measure in column `column`. */
  function HoverX(column: int, beat: real, top: int): real
    requires top >= 1
  {
    MeasuresStartX + column as real * MeasureWidth + MeasurePaddingHorizontal + beat * BeatWidth(top)
  }

  /** The hover marker is drawn where the note it would add is drawn. */
  lemma HoverXIsCalculateX(line: int, column: int, beat: real, top: int)
    requires line >= 0 && 0 <= column < MeasuresPerLine && top >= 1
    ensures LineOfMeasure(line * MeasuresPerLine + column) == line
    ensures HoverX(column, beat, top) == CalculateX(line * MeasuresPerLine + column, beat, top)
  {
    MeasureOfLineAndColumn(line, column);
  }

  /** The line and column the pointer code computes name a measure whose note area
      holds the pointer, and the padded offset is the pointer's offset into it. */
  lemma PointerInArea(x: real, y: real, line: int, column: int, padded: real)
    requires 0 <= line < NumLines && 0 <= column < MeasuresPerLine
    requires line == (y / LineHeight).Floor
    requires column == ((x - MeasuresStartX) / MeasureWidth).Floor && x - MeasuresStartX >= 0.0
    requires padded == RealRem(x - MeasuresStartX, MeasureWidth) - MeasurePaddingHorizontal
    requires 0.0 <= padded <= NoteAreaWidth
    ensures InMeasureArea(x, y, line * MeasuresPerLine + column)
    ensures padded == x - NoteAreaLeft(line * MeasuresPerLine + column)
  {
    MeasureOfLineAndColumn(line, column);
    NumLinesIsFour();
    FloorOfQuotient(y, LineHeight, line);
  }

  /** The raw beat of an offset into the note area lies in [0, top], and so does its
      quantized beat. */
  lemma PointerBeatBounds(padded: real, top: int, subdivision: int)
    requires top >= 1 && subdivision >= 1 && 0.0 <= padded <= NoteAreaWidth
    ensures 0.0 <= RawBeat(padded, top) <= top as real
    ensures QuantizeBeat(RawBeat(padded, top), subdivision) <= top as real
  {
    FractionOfWhole(padded, NoteAreaWidth, top as real);
    QuantizedBeatAtMost(RawBeat(padded, top), subdivision, top);
  }

  /** A part `p` of a whole `w` (0 <= p <= w), scaled by `t`, lies between 0 and `t`. */
  lemma FractionOfWhole(p: real, w: real, t: real)
    requires w > 0.0 && 0.0 <= p <= w && t >= 0.0
    ensures 0.0 <= p / w * t <= t
  {
    QuotientAtMost(p, w, 1.0);
    QuotientLower(p, w, 0.0);
    var f := p / w;
    NonNegativeProduct(t + 1.0, f);
    assert f * t <= 1.0 * t by {
      if t > 0.0 {
        ScaleMonotone(t, f, 1.0);
      }
    }
  }

  /** A point on a measure's note area is on that measure's staff line... */
  lemma AreaLine(x: real, y: real, measure: int)
    requires InMeasureArea(x, y, measure)
    ensures (y / LineHeight).Floor == LineOfMeasure(measure)
  {
    FloorOfQuotient(y, LineHeight, LineOfMeasure(measure));
  }

  /** ...and in that measure's column. */
  lemma AreaColumn(x: real, y: real, measure: int)
    requires InMeasureArea(x, y, measure)
    ensures x - MeasuresStartX >= 0.0
    ensures ((x - MeasuresStartX) / MeasureWidth).Floor == IntRem(measure, MeasuresPerLine)
  {
    MeasureDecompose(measure);
    FloorOfQuotient(x - MeasuresStartX, MeasureWidth, IntRem(measure, MeasuresPerLine));
  }

  /** No point lies on the note areas of two different measures. */
  lemma MeasureAreasDisjoint(x: real, y: real, m1: int, m2: int)
    requires InMeasureArea(x, y, m1) && InMeasureArea(x, y, m2)
    ensures m1 == m2
  {
    AreaLine(x, y, m1);
    AreaLine(x, y, m2);
    AreaColumn(x, y, m1);
    AreaColumn(x, y, m2);
    MeasureDecompose(m1);
    MeasureDecompose(m2);
  }

  /** Every point on a measure's note area passes all the pointer checks. */
  lemma LocateInArea(x: real, y: real, measure: int)
    requires InMeasureArea(x, y, measure)
    ensures LocatePointer(x, y).Some?
  {
    AreaLine(x, y, measure);
    AreaColumn(x, y, measure);
    MeasureDecompose(measure);
    NumLinesIsFour();
  }

  /** The pointer picks a note position exactly when it is on some measure's note
      area: never on the paddings between measures, left of the first measure,
      right of the last one, or above or below the staff lines. */
  lemma PointerAcceptsExactlyNoteAreas(x: real, y: real, ts: TimeSignature, duration: NoteDuration, part: DrumPart)
    requires ts.top >= 1
    ensures GetNotePosition(x, y, ts, duration, part).Some? <==> OnNoteArea(x, y)
  {
    var r := GetNotePosition(x, y, ts, duration, part);
    if r.Some? {
      assert InMeasureArea(x, y, r.value.measure);
    }
    if OnNoteArea(x, y) {
      var measure :| InMeasureArea(x, y, measure);
      LocateInArea(x, y, measure);
    }
  }

  /** Two grid points less than one grid step apart are the same point. */
  lemma GridPointsApart(q: real, b: real, subdivision: int)
    requires subdivision >= 1 && OnGrid(q, subdivision) && OnGrid(b, subdivision)
    requires NearestOnGrid(q, b, subdivision)
    ensures q == b
  {
    ScaledPointsApart(q, b, subdivision as real,
      q * subdivision as real, b * subdivision as real, (q - b) * subdivision as real);
  }

  lemma ScaledPointsApart(q: real, b: real, s: real, u: real, v: real, d: real)
    requires s > 0.0 && u == q * s && v == b * s && d == (q - b) * s
    requires u.Floor as real == u && v.Floor as real == v && -0.5 < d <= 0.5
    ensures q == b
  {
    ScaledDifference(q, b, s);
    WholesWithinHalf(d, u, v, u.Floor, v.Floor);
    CancelFactor(q, b, s);
  }

  lemma ScaledDifference(q: real, b: real, s: real)
    ensures (q - b) * s == q * s - b * s
  {
  }

  /** Two whole numbers less than one half apart are equal. */
  lemma WholesWithinHalf(d: real, u: real, v: real, i: int, j: int)
    requires d == u - v && -0.5 < d <= 0.5
    requires u == i as real && v == j as real
    ensures u == v
  {
    var k := i - j;
    assert k as real == d;
  }

  lemma CancelFactor(q: real, b: real, s: real)
    requires s > 0.0 && q * s == b * s
    ensures q == b
  {
    QuotientOfProduct(q, s);
    QuotientOfProduct(b, s);
  }

  /** The raw beat at the x of beat `b` is `b` again. */
  lemma RawBeatOfBeatOffset(b: real, top: int)
    requires top >= 1
    ensures RawBeat(b * BeatWidth(top), top) == b
  {
    var w := BeatWidth(top);
    assert w * top as real == NoteAreaWidth;
    assert b * w / NoteAreaWidth == b / top as real;
  }

  lemma BeatAtCalculateX(measure: int, beat: real, top: int)
    requires top >= 1
    ensures BeatAt(CalculateX(measure, beat, top), measure, top) == beat
  {
    var offset := CalculateX(measure, beat, top) - NoteAreaLeft(measure);
    assert offset == beat * BeatWidth(top);
    RawBeatOfBeatOffset(beat, top);
  }

  /** Pointing at a drawn note's position gives back its measure and beat, provided
      the beat is on the grid of the selected duration: the pointer mapping undoes
      the layout. */
  lemma PointerRoundTrip(measure: int, beat: real, ts: TimeSignature, duration: NoteDuration, part: DrumPart)
    requires ts.top >= 1 && 0 <= measure < NumMeasures
    requires 0.0 <= beat <= ts.top as real && OnGrid(beat, Subdivision(duration, ts.bottom))
    ensures
      var x := CalculateX(measure, beat, ts.top);
      var y := CalculateY(LineOfMeasure(measure), part);
      GetNotePosition(x, y, ts, duration, part) == Some(PointerPosition(measure, beat, part, x, y))
  {
    var x := CalculateX(measure, beat, ts.top);
    var y := CalculateY(LineOfMeasure(measure), part);
    assert InMeasureArea(x, y, measure);
    PointerAcceptsExactlyNoteAreas(x, y, ts, duration, part);
    var p := GetNotePosition(x, y, ts, duration, part).value;
    MeasureAreasDisjoint(x, y, p.measure, measure);
    BeatAtCalculateX(measure, beat, ts.top);
    GridPointsApart(p.beat, beat, Subdivision(duration, ts.bottom));
  }

  /** The pointer can place a note on the closing barline: at the right end of a
      note area the beat is `top`, one past the measure's last beat. */
  lemma PointerReachesBarline(measure: int, ts: TimeSignature, duration: NoteDuration, part: DrumPart)
    requires ts.top >= 1 && 0 <= measure < NumMeasures
    ensures
      var r := GetNotePosition(NoteAreaLeft(measure) + NoteAreaWidth, CalculateY(LineOfMeasure(measure), part),
                               ts, duration, part);
      r.Some? && r.value.measure == measure && r.value.beat == ts.top as real
  {
    BarlineIsOnGrid(measure, ts.top, Subdivision(duration, ts.bottom));
    PointerRoundTrip(measure, ts.top as real, ts, duration, part);
  }

  lemma BarlineIsOnGrid(measure: int, top: int, subdivision: int)
    requires top >= 1 && subdivision >= 1
    ensures OnGrid(top as real, subdivision)
    ensures CalculateX(measure, top as real, top) == NoteAreaLeft(measure) + NoteAreaWidth
  {
    ProductOfWholes(top, subdivision);
    assert top as real * BeatWidth(top) == NoteAreaWidth;
  }

  /** A beat short of the barline is drawn left of it. */
  lemma LeftOfBarline(measure: int, beat: real, top: int)
    requires top >= 1 && beat < top as real
    ensures CalculateX(measure, beat, top) < CalculateX(measure, top as real, top)
  {
    var w := BeatWidth(top);
    PositiveProduct(w, top as real - beat);
    assert w * (top as real - beat) == top as real * w - beat * w;
  }

  /** The quantized beat with the closing barline excluded, as `utils/grid.ts` does
      for its own grid: a pointer that rounds to the barline takes the measure's
      last grid point instead. Every other pointer keeps its nearest grid point. */
  function QuantizedBeatBeforeBarline(padded: real, top: int, subdivision: int): (q: real)
    requires top >= 1 && subdivision >= 1 && 0.0 <= padded <= NoteAreaWidth
    ensures 0.0 <= q < top as real && OnGrid(q, subdivision)
    ensures QuantizedBeatAt(padded, top, subdivision) < top as real ==>
      NearestOnGrid(q, RawBeat(padded, top), subdivision)
    ensures QuantizedBeatAt(padded, top, subdivision) == top as real ==>
      q + 1.0 / subdivision as real == top as real
  {
    var quantizedBeat := QuantizedBeatAt(padded, top, subdivision);
    if quantizedBeat < top as real then quantizedBeat
    else
      LastGridPoint(top, subdivision);
      top as real - 1.0 / subdivision as real
  }

  /** One grid step before the barline is a grid point of the measure. */
  lemma LastGridPoint(top: int, subdivision: int)
    requires top >= 1 && subdivision >= 1
    ensures 0.0 <= top as real - 1.0 / subdivision as real
    ensures OnGrid(top as real - 1.0 / subdivision as real, subdivision)
  {
    var s := subdivision as real;
    QuotientAtMost(1.0, s, 1.0);
    ProductOfWholes(top, subdivision);
    assert (top as real - 1.0 / s) * s == top as real * s - 1.0;
    assert (top as real - 1.0 / s) * s == (top * subdivision - 1) as real;
  }
}
