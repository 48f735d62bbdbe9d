/** The editor's state: the note store with its capacity and duplicate checks, the
    eraser, time-signature changes, and playback, which schedules one sound per
    note and moves a cursor across the staff in step with it. */
module App {
  import opened Types
  import opened Constants
  import opened JsMath
  import opened Staff
  import opened Sequences

  // ---------------------------------------------------------------------------
  // The note store

  /** How far a measure's total may exceed its capacity before a note is refused. */
  const Tolerance: real := 0.000001

  /** A measure holds `top / bottom` whole notes per voice. */
  function Capacity(ts: TimeSignature): (c: real)
    requires ts.bottom >= 1
    ensures ts.top >= 1 ==> c > 0.0
  {
    ts.top as real / ts.bottom as real
  }

  /** The summed value of the notes of `voice` in `measure`. */
  function VoiceTotal(notes: seq<Note>, measure: int, voice: Voice): (t: real)
    ensures t >= 0.0
    ensures notes == [] ==> t == 0.0
  {
    if notes == [] then 0.0
    else
      var last := notes[|notes| - 1];
      VoiceTotal(notes[..|notes| - 1], measure, voice)
        + (if last.measure == measure && last.voice == voice then FractionalValue(last.duration) else 0.0)
  }

  /** Appending a note adds its value to its own measure and voice only. */
  lemma VoiceTotalAppend(notes: seq<Note>, n: Note, measure: int, voice: Voice)
    ensures VoiceTotal(notes + [n], measure, voice)
         == VoiceTotal(notes, measure, voice)
            + (if n.measure == measure && n.voice == voice then FractionalValue(n.duration) else 0.0)
  {
    assert (notes + [n])[..|notes|] == notes;
  }

  predicate SamePlace(n: Note, measure: int, beat: real, part: DrumPart) {
    n.measure == measure && n.beat == beat && n.part == part
  }

  /** Some note of the store sits at this measure and beat on this instrument. */
  predicate HasNoteAt(notes: seq<Note>, measure: int, beat: real, part: DrumPart) {
    exists i :: 0 <= i < |notes| && SamePlace(notes[i], measure, beat, part)
  }

  /** The result of a click with the pen: refused for one of three reasons, or the
      note to append. */
  datatype AddOutcome = NotPen | ExceedsCapacity | Duplicate | Added(note: Note)

  /** The note the editor would add at (measure, beat) for `part`. */
  function NewNote(id: string, part: DrumPart, duration: NoteDuration, beat: real, measure: int): (n: Note)
    ensures n.voice == PartVoice(part)
    ensures n.stemDirection == Up <==> n.voice == 1
    ensures n.id == id && n.part == part && n.duration == duration && n.beat == beat && n.measure == measure
  {
    var voice := PartVoice(part);
    Note(id, part, duration, beat, measure, if voice == 1 then Up else Down, voice)
  }

  /** What adding a note does: nothing unless the pen is selected; a refusal when
      the measure's voice would overflow, or when the instrument already has a note
      at that time; otherwise the new note. */
  function AddNote(notes: seq<Note>, tool: Tool, duration: NoteDuration, ts: TimeSignature,
                   measure: int, beat: real, part: DrumPart, id: string): (o: AddOutcome)
    requires ts.bottom >= 1
    ensures o == NotPen <==> tool != Pen
    ensures o == ExceedsCapacity <==>
      tool == Pen && VoiceTotal(notes, measure, PartVoice(part)) + FractionalValue(duration) > Capacity(ts) + Tolerance
    ensures o == Duplicate ==> HasNoteAt(notes, measure, beat, part)
    ensures o.Added? ==>
      && !HasNoteAt(notes, measure, beat, part)
      && o.note == NewNote(id, part, duration, beat, measure)
      && VoiceTotal(notes + [o.note], measure, o.note.voice) <= Capacity(ts) + Tolerance
  {
    if tool != Pen then NotPen
    else
      var voice := PartVoice(part);
      var measureCapacity := Capacity(ts);
      var currentMeasureValueInVoice := VoiceTotal(notes, measure, voice);
      var newNoteValue := FractionalValue(duration);
      if currentMeasureValueInVoice + newNoteValue > measureCapacity + Tolerance then ExceedsCapacity
      else if HasNoteAt(notes, measure, beat, part) then Duplicate
      else
        var note := NewNote(id, part, duration, beat, measure);
        VoiceTotalAppend(notes, note, measure, voice);
        Added(note)
  }

  /** The store without the notes whose id is `id`, the rest in their order. */
  function WithoutId(notes: seq<Note>, id: string): (r: seq<Note>)
    ensures forall x :: x in r <==> x in notes && x.id != id
    ensures |r| <= |notes|
  {
    if notes == [] then []
    else
      var init, last := notes[..|notes| - 1], notes[|notes| - 1];
      SplitLast(notes);
      WithoutId(init, id) + (if last.id != id then [last] else [])
  }

  /** Erasing works note by note: it keeps the order of what it keeps. */
  lemma {:induction false} WithoutIdConcat(a: seq<Note>, b: seq<Note>, id: string)
    ensures WithoutId(a + b, id) == WithoutId(a, id) + WithoutId(b, id)
    decreases |b|
  {
    if b == [] {
      assert a + b == a;
    } else {
      var b' := b[..|b| - 1];
      assert (a + b)[..|a + b| - 1] == a + b';
      WithoutIdConcat(a, b', id);
    }
  }

  /** Erasing an id that no note has changes nothing. */
  lemma {:induction false} WithoutAbsentId(notes: seq<Note>, id: string)
    requires forall i :: 0 <= i < |notes| ==> notes[i].id != id
    ensures WithoutId(notes, id) == notes
    decreases |notes|
  {
    if notes != [] {
      WithoutAbsentId(notes[..|notes| - 1], id);
      SplitLast(notes);
    }
  }

  /** Erasing never raises a measure's total in any voice. */
  lemma {:induction false} WithoutIdLowersTotals(notes: seq<Note>, id: string, measure: int, voice: Voice)
    ensures VoiceTotal(WithoutId(notes, id), measure, voice) <= VoiceTotal(notes, measure, voice)
    decreases |notes|
  {
    if notes != [] {
      var init, last := notes[..|notes| - 1], notes[|notes| - 1];
      var ri := WithoutId(init, id);
      WithoutIdLowersTotals(init, id, measure, voice);
      if last.id != id {
        assert WithoutId(notes, id) == ri + [last];
        VoiceTotalAppend(ri, last, measure, voice);
      } else {
        assert WithoutId(notes, id) == ri;
      }
    }
  }

  /** No two notes of the store share measure, beat and instrument. */
  predicate UniquePlaces(notes: seq<Note>) {
    forall i, j :: 0 <= i < j < |notes| ==>
      !SamePlace(notes[j], notes[i].measure, notes[i].beat, notes[i].part)
  }

  /** The voice and stem of a note follow from its instrument. */
  predicate VoicedByPart(n: Note) {
    n.voice == PartVoice(n.part) && (n.stemDirection == Up <==> n.voice == 1)
  }

  ghost predicate WithinCapacity(notes: seq<Note>, ts: TimeSignature)
    requires ts.bottom >= 1
  {
    forall measure: int, voice: Voice :: VoiceTotal(notes, measure, voice) <= Capacity(ts) + Tolerance
  }

  /** What the editor keeps true of its store: every measure's voices fit, no
      duplicates, and every note's voice and stem match its instrument. */
  ghost predicate WellFormed(notes: seq<Note>, ts: TimeSignature)
    requires ts.bottom >= 1
  {
    && WithinCapacity(notes, ts)
    && UniquePlaces(notes)
    && (forall i :: 0 <= i < |notes| ==> VoicedByPart(notes[i]))
  }

  /** An accepted note keeps the store well formed. */
  lemma AddKeepsWellFormed(notes: seq<Note>, tool: Tool, duration: NoteDuration, ts: TimeSignature,
                           measure: int, beat: real, part: DrumPart, id: string)
    requires ts.bottom >= 1 && WellFormed(notes, ts)
    requires AddNote(notes, tool, duration, ts, measure, beat, part, id).Added?
    ensures WellFormed(notes + [AddNote(notes, tool, duration, ts, measure, beat, part, id).note], ts)
  {
    var n := AddNote(notes, tool, duration, ts, measure, beat, part, id).note;
    var s := notes + [n];
    forall m: int, v: Voice
      ensures VoiceTotal(s, m, v) <= Capacity(ts) + Tolerance
    {
      VoiceTotalAppend(notes, n, m, v);
    }
    forall i, j | 0 <= i < j < |s|
      ensures !SamePlace(s[j], s[i].measure, s[i].beat, s[i].part)
    {
      if j == |notes| {
        assert s[i] == notes[i];
        if SamePlace(s[j], s[i].measure, s[i].beat, s[i].part) {
          assert false;
        }
      }
    }
  }

  /** Erasing keeps the store well formed. */
  lemma EraseKeepsWellFormed(notes: seq<Note>, ts: TimeSignature, id: string)
    requires ts.bottom >= 1 && WellFormed(notes, ts)
    ensures WellFormed(WithoutId(notes, id), ts)
  {
    var r := WithoutId(notes, id);
    forall m: int, v: Voice
      ensures VoiceTotal(r, m, v) <= Capacity(ts) + Tolerance
    {
      WithoutIdLowersTotals(notes, id, m, v);
    }
    EraseKeepsUniquePlaces(notes, id);
    forall i | 0 <= i < |r|
      ensures VoicedByPart(r[i])
    {
      assert r[i] in notes;
    }
  }

  /** Erasing never makes two notes share a place. */
  lemma {:induction false} EraseKeepsUniquePlaces(notes: seq<Note>, id: string)
    requires UniquePlaces(notes)
    ensures UniquePlaces(WithoutId(notes, id))
    decreases |notes|
  {
    if notes != [] {
      var init, last := notes[..|notes| - 1], notes[|notes| - 1];
      assert UniquePlaces(init) by {
        forall i, j | 0 <= i < j < |init|
          ensures !SamePlace(init[j], init[i].measure, init[i].beat, init[i].part)
        {
          assert init[i] == notes[i] && init[j] == notes[j];
        }
      }
      EraseKeepsUniquePlaces(init, id);
      var ri := WithoutId(init, id);
      if last.id != id {
        var r := ri + [last];
        assert WithoutId(notes, id) == r;
        forall i, j | 0 <= i < j < |r|
          ensures !SamePlace(r[j], r[i].measure, r[i].beat, r[i].part)
        {
          if j == |ri| {
            assert r[i] in init;
            var k :| 0 <= k < |init| && init[k] == r[i];
            assert notes[k] == r[i] && notes[|notes| - 1] == r[j];
          } else {
            assert r[i] == ri[i] && r[j] == ri[j];
          }
        }
      } else {
        assert WithoutId(notes, id) == ri;
      }
    }
  }

  // ---------------------------------------------------------------------------
  // Playback timing

  /** One scheduled sound: an instrument struck at an audio-clock time in seconds. */
  datatype Trigger = Trigger(part: DrumPart, time: real)

  /** A beat lasts 60 / tempo seconds in quarter-note time, half that in eighths. */
  function SecondsPerBeat(tempo: real, ts: TimeSignature): (s: real)
    requires tempo > 0.0 && ts.bottom >= 1
    ensures s > 0.0
  {
    60.0 / tempo * (4.0 / ts.bottom as real)
  }

  /** The beats from the start of the piece to a note. */
  function NoteBeats(note: Note, top: int): real {
    note.measure as real * top as real + note.beat
  }

  /** When the sound of a note is scheduled, relative to the audio start time. */
  function TriggerTime(start: real, note: Note, tempo: real, ts: TimeSignature): real
    requires tempo > 0.0 && ts.bottom >= 1
  {
    start + NoteBeats(note, ts.top) * SecondsPerBeat(tempo, ts)
  }

  /** Schedules one sound per note, in store order. */
  method ScheduleTriggers(notes: seq<Note>, start: real, tempo: real, ts: TimeSignature)
    returns (triggers: seq<Trigger>)
    requires tempo > 0.0 && ts.bottom >= 1
    ensures |triggers| == |notes|
    ensures forall i :: 0 <= i < |notes| ==>
      triggers[i] == Trigger(notes[i].part, TriggerTime(start, notes[i], tempo, ts))
  {
    var secondsPerBeat := SecondsPerBeat(tempo, ts);
    triggers := [];
    for i := 0 to |notes|
      invariant |triggers| == i
      invariant forall k :: 0 <= k < i ==>
        triggers[k] == Trigger(notes[k].part, TriggerTime(start, notes[k], tempo, ts))
    {
      var note := notes[i];
      var noteTimeInBeats := note.measure as real * ts.top as real + note.beat;
      var noteTimeInSeconds := noteTimeInBeats * secondsPerBeat;
      triggers := triggers + [Trigger(note.part, start + noteTimeInSeconds)];
    }
  }

  /** A note later in the piece sounds later: trigger times follow the beats. */
  lemma TriggerTimesFollowBeats(start: real, a: Note, b: Note, tempo: real, ts: TimeSignature)
    requires tempo > 0.0 && ts.bottom >= 1
    requires NoteBeats(a, ts.top) < NoteBeats(b, ts.top)
    ensures TriggerTime(start, a, tempo, ts) < TriggerTime(start, b, tempo, ts)
  {
    var s := SecondsPerBeat(tempo, ts);
    PositiveProduct(s, NoteBeats(b, ts.top) - NoteBeats(a, ts.top));
    assert s * (NoteBeats(b, ts.top) - NoteBeats(a, ts.top))
        == NoteBeats(b, ts.top) * s - NoteBeats(a, ts.top) * s;
  }

  /** A note in an earlier measure sounds before every note of a later measure. */
  lemma EarlierMeasureSoundsFirst(start: real, a: Note, b: Note, tempo: real, ts: TimeSignature)
    requires tempo > 0.0 && ts.bottom >= 1 && ts.top >= 1
    requires a.measure < b.measure
    requires 0.0 <= a.beat < ts.top as real && 0.0 <= b.beat
    ensures TriggerTime(start, a, tempo, ts) < TriggerTime(start, b, tempo, ts)
  {
    EarlierMeasureMoreBeats(a, b, ts.top);
    TriggerTimesFollowBeats(start, a, b, tempo, ts);
  }

  lemma EarlierMeasureMoreBeats(a: Note, b: Note, top: int)
    requires top >= 1 && a.measure < b.measure
    requires 0.0 <= a.beat < top as real && 0.0 <= b.beat
    ensures NoteBeats(a, top) < NoteBeats(b, top)
  {
    var t := top as real;
    ScaleMonotone(t, a.measure as real + 1.0, b.measure as real);
    assert t * (a.measure as real + 1.0) == t * a.measure as real + t;
    assert a.measure as real * t == t * a.measure as real;
    assert b.measure as real * t == t * b.measure as real;
  }

  /** A note on the closing barline of a measure (beat `top`, which the pointer can
      pick) sounds at the same instant as the first beat of the next measure. */
  lemma BarlineNoteTiesNextDownbeat(start: real, a: Note, b: Note, tempo: real, ts: TimeSignature)
    requires tempo > 0.0 && ts.bottom >= 1 && ts.top >= 1
    requires a.beat == ts.top as real && b.measure == a.measure + 1 && b.beat == 0.0
    ensures TriggerTime(start, a, tempo, ts) == TriggerTime(start, b, tempo, ts)
  {
    assert NoteBeats(a, ts.top) == NoteBeats(b, ts.top);
  }

  /** With barline notes included, a note of an earlier measure never sounds after
      a note of a later one. */
  lemma EarlierMeasureNeverLater(start: real, a: Note, b: Note, tempo: real, ts: TimeSignature)
    requires tempo > 0.0 && ts.bottom >= 1 && ts.top >= 1
    requires a.measure < b.measure
    requires 0.0 <= a.beat <= ts.top as real && 0.0 <= b.beat
    ensures TriggerTime(start, a, tempo, ts) <= TriggerTime(start, b, tempo, ts)
  {
    var t := ts.top as real;
    ScaleMonotone(t, a.measure as real + 1.0, b.measure as real);
    assert t * (a.measure as real + 1.0) == t * a.measure as real + t;
    assert a.measure as real * t == t * a.measure as real;
    assert b.measure as real * t == t * b.measure as real;
    if NoteBeats(a, ts.top) < NoteBeats(b, ts.top) {
      TriggerTimesFollowBeats(start, a, b, tempo, ts);
    }
  }

  /** Clicking the right end of a measure's note area places a note that sounds
      together with a note on the next measure's first beat. */
  lemma ClickOnBarlineTiesNextDownbeat(measure: int, ts: TimeSignature, duration: NoteDuration, part: DrumPart,
                                       id: string, start: real, tempo: real, b: Note)
    requires tempo > 0.0 && ts.bottom >= 1 && ts.top >= 1
    requires 0 <= measure && measure + 1 < NumMeasures
    requires b.measure == measure + 1 && b.beat == 0.0
    ensures
      var r := GetNotePosition(NoteAreaLeft(measure) + NoteAreaWidth, CalculateY(LineOfMeasure(measure), part),
                               ts, duration, part);
      && r.Some? && r.value.measure == measure
      && TriggerTime(start, NewNote(id, part, duration, r.value.beat, r.value.measure), tempo, ts)
         == TriggerTime(start, b, tempo, ts)
  {
    PointerReachesBarline(measure, ts, duration, part);
    var r := GetNotePosition(NoteAreaLeft(measure) + NoteAreaWidth, CalculateY(LineOfMeasure(measure), part),
                             ts, duration, part);
    BarlineNoteTiesNextDownbeat(start, NewNote(id, part, duration, r.value.beat, r.value.measure), b, tempo, ts);
  }

  /** In 4/4 the store accepts a snare on the barline of measure 0 next to a snare
      on the first beat of measure 1, although both sound at the same instant. */
  lemma BarlineSnareBesideDownbeatAccepted(n: Note, start: real, tempo: real)
    requires n == NewNote("a", Snare, Quarter, 0.0, 1) && tempo > 0.0
    ensures AddNote([n], Pen, Quarter, TimeSignature(4, 4), 0, 4.0, Snare, "b").Added?
    ensures TriggerTime(start, NewNote("b", Snare, Quarter, 4.0, 0), tempo, TimeSignature(4, 4))
         == TriggerTime(start, n, tempo, TimeSignature(4, 4))
  {
    assert AddNote([n], Pen, Quarter, TimeSignature(4, 4), 0, 4.0, Snare, "b").Added? by {
      VoiceTotalAppend([], n, 0, 2);
      assert [] + [n] == [n];
      assert !SamePlace([n][0], 0, 4.0, Snare);
    }
    BarlineNoteTiesNextDownbeat(start, NewNote("b", Snare, Quarter, 4.0, 0), n, tempo, TimeSignature(4, 4));
  }

  /** With the barline excluded from the pointer's grid, a clicked note sounds
      strictly before every note of a later measure. */
  lemma CorrectedClickSoundsFirst(start: real, padded: real, subdivision: int, a: Note, b: Note,
                                  tempo: real, ts: TimeSignature)
    requires tempo > 0.0 && ts.bottom >= 1 && ts.top >= 1 && subdivision >= 1
    requires 0.0 <= padded <= NoteAreaWidth
    requires a.beat == QuantizedBeatBeforeBarline(padded, ts.top, subdivision)
    requires a.measure < b.measure && 0.0 <= b.beat
    ensures TriggerTime(start, a, tempo, ts) < TriggerTime(start, b, tempo, ts)
  {
    EarlierMeasureSoundsFirst(start, a, b, tempo, ts);
  }

  /** At 120 beats per minute in 4/4, a note on beat 2 of the second measure
      (measure 1) sounds 3 seconds after the start. */
  lemma ExampleTriggerTime(start: real, n: Note)
    requires n.measure == 1 && n.beat == 2.0
    ensures TriggerTime(start, n, 120.0, TimeSignature(4, 4)) == start + 3.0
  {
    assert SecondsPerBeat(120.0, TimeSignature(4, 4)) == 0.5;
    assert NoteBeats(n, 4) == 6.0;
  }

  // ---------------------------------------------------------------------------
  // The playback cursor

  /** The vertical line drawn at the current playback position. */
  datatype Cursor = Cursor(x: real, y1: real, y2: real)

  /** The beats played after `elapsed` seconds. */
  function BeatsAt(elapsed: real, tempo: real, ts: TimeSignature): real
    requires tempo > 0.0 && ts.bottom >= 1
  {
    elapsed / SecondsPerBeat(tempo, ts)
  }

  /** The measure being played after `elapsed` seconds. */
  function MeasureAt(elapsed: real, tempo: real, ts: TimeSignature): int
    requires tempo > 0.0 && ts.bottom >= 1 && ts.top >= 1
  {
    (BeatsAt(elapsed, tempo, ts) / ts.top as real).Floor
  }

  /** How far into its measure the play position is after `elapsed` seconds. */
  function BeatInMeasureAt(elapsed: real, tempo: real, ts: TimeSignature): real
    requires tempo > 0.0 && ts.bottom >= 1 && ts.top >= 1
  {
    BeatsAt(elapsed, tempo, ts) - MeasureAt(elapsed, tempo, ts) as real * ts.top as real
  }

  /** The cursor after `elapsed` seconds, or nothing once the last measure is over. */
  function CursorAt(elapsed: real, tempo: real, ts: TimeSignature): (c: Option<Cursor>)
    requires tempo > 0.0 && ts.bottom >= 1 && ts.top >= 1
    ensures c.None? <==> MeasureAt(elapsed, tempo, ts) >= NumMeasures
    ensures c.Some? && elapsed >= 0.0 ==>
      var measure := MeasureAt(elapsed, tempo, ts);
      var beat := BeatInMeasureAt(elapsed, tempo, ts);
      && 0 <= measure < NumMeasures
      && 0.0 <= beat < ts.top as real
      && c.value.x == CalculateX(measure, beat, ts.top)
      && forall part :: c.value.y1 <= CalculateY(LineOfMeasure(measure), part) < c.value.y2
  {
    var currentBeatAbsolute := BeatsAt(elapsed, tempo, ts);
    var measureIndex := MeasureAt(elapsed, tempo, ts);
    if measureIndex >= NumMeasures then None
    else
      var beatInMeasure := RealRem(currentBeatAbsolute, ts.top as real);
      CursorFacts(elapsed, tempo, ts);
      Some(CursorOf(measureIndex, beatInMeasure, ts.top))
  }

  /** The cursor drawn at `beatInMeasure` of `measureIndex`: at the x a note on that
      beat gets, spanning the heights of every instrument on that staff line. */
  function CursorOf(measureIndex: int, beatInMeasure: real, top: int): (c: Cursor)
    requires top >= 1
    ensures c.x == CalculateX(measureIndex, beatInMeasure, top)
    ensures forall part :: c.y1 <= CalculateY(LineOfMeasure(measureIndex), part) < c.y2
  {
    var lineIndex := (measureIndex as real / MeasuresPerLine as real).Floor;
    var measureInLine := IntRem(measureIndex, MeasuresPerLine);
    var beatWidth := (MeasureWidth - MeasurePaddingHorizontal * 2.0) / top as real;
    var lineYOffset := lineIndex as real * LineHeight;
    var newX := MeasuresStartX + measureInLine as real * MeasureWidth + MeasurePaddingHorizontal
                + beatInMeasure * beatWidth;
    var newY1 := lineYOffset + StaffYOffset - StaffLineGap;
    var newY2 := lineYOffset + StaffYOffset + 5.0 * StaffLineGap;
    assert beatWidth == BeatWidth(top);
    Cursor(newX, newY1, newY2)
  }

  /** Once playback has started, the measure is not negative and the remainder
      of the beats by the measure length is the beat within that measure. */
  lemma CursorFacts(elapsed: real, tempo: real, ts: TimeSignature)
    requires tempo > 0.0 && ts.bottom >= 1 && ts.top >= 1
    ensures elapsed >= 0.0 ==> MeasureAt(elapsed, tempo, ts) >= 0
    ensures elapsed >= 0.0 ==>
      var beat := BeatInMeasureAt(elapsed, tempo, ts);
      RealRem(BeatsAt(elapsed, tempo, ts), ts.top as real) == beat && 0.0 <= beat < ts.top as real
  {
    if elapsed >= 0.0 {
      QuotientLower(elapsed, SecondsPerBeat(tempo, ts), 0.0);
      QuotientLower(BeatsAt(elapsed, tempo, ts), ts.top as real, 0.0);
    }
  }

  /** Once a note's beats have passed on the page clock, the cursor is drawn exactly
      where the note is (0.1 s before its sound, by `CursorLeadsSound`). Notes on a
      closing barline are not met (`CursorShortOfBarline`). */
  lemma CursorMeetsNote(note: Note, tempo: real, ts: TimeSignature, elapsed: real)
    requires tempo > 0.0 && ts.bottom >= 1 && ts.top >= 1
    requires 0 <= note.measure < NumMeasures && 0.0 <= note.beat < ts.top as real
    requires elapsed == NoteBeats(note, ts.top) * SecondsPerBeat(tempo, ts)
    ensures
      var c := CursorAt(elapsed, tempo, ts);
      c.Some? && c.value.x == CalculateX(note.measure, note.beat, ts.top)
  {
    var s := SecondsPerBeat(tempo, ts);
    var beats := NoteBeats(note, ts.top);
    assert BeatsAt(elapsed, tempo, ts) == beats by {
      QuotientOfProduct(beats, s);
    }
    assert elapsed >= 0.0 by {
      NonNegativeBeats(note, ts.top);
      NonNegativeProduct(s, beats);
    }
    CursorAtBeat(elapsed, tempo, ts, note.measure, note.beat);
  }

  /** Play reads the audio clock and the page clock together. The sounds are
      scheduled from the audio reading plus 0.1 s; the cursor runs from the page
      reading. With both clocks advancing alike, `elapsed` seconds of page clock
      have passed when a note's sound is due: 0.1 s more than its beats take, so
      the cursor is then 0.1 s worth of beats past the note. */
  lemma CursorLeadsSound(note: Note, tempo: real, ts: TimeSignature, audioNow: real, elapsed: real)
    requires tempo > 0.0 && ts.bottom >= 1 && ts.top >= 1
    requires elapsed == TriggerTime(audioNow + 0.1, note, tempo, ts) - audioNow
    ensures elapsed == NoteBeats(note, ts.top) * SecondsPerBeat(tempo, ts) + 0.1
    ensures BeatsAt(elapsed, tempo, ts) == NoteBeats(note, ts.top) + 0.1 / SecondsPerBeat(tempo, ts)
  {
    QuotientOfSum(NoteBeats(note, ts.top), SecondsPerBeat(tempo, ts), 0.1);
  }

  lemma QuotientOfSum(b: real, s: real, c: real)
    requires s > 0.0
    ensures (b * s + c) / s == b + c / s
  {
    assert (b + c / s) * s == b * s + c;
  }

  /** At 120 beats per minute in 4/4, when the first beat's sound is due the cursor
      is already at beat 0.2 of the first measure, right of the note. */
  lemma ExampleCursorLead(note: Note, elapsed: real)
    requires note.measure == 0 && note.beat == 0.0
    requires elapsed == TriggerTime(0.1, note, 120.0, TimeSignature(4, 4))
    ensures BeatsAt(elapsed, 120.0, TimeSignature(4, 4)) == 0.2
    ensures
      var c := CursorAt(elapsed, 120.0, TimeSignature(4, 4));
      c.Some? && c.value.x == CalculateX(0, 0.2, 4) && c.value.x > CalculateX(0, 0.0, 4)
  {
    var ts := TimeSignature(4, 4);
    CursorLeadsSound(note, 120.0, ts, 0.0, elapsed);
    assert SecondsPerBeat(120.0, ts) == 0.5;
    CursorAtBeat(elapsed, 120.0, ts, 0, 0.2);
    PositiveProduct(BeatWidth(4), 0.2);
  }

  /** While measure `m` plays, the cursor stays left of `m`'s closing barline, so it
      never reaches a note placed on that barline. */
  lemma CursorShortOfBarline(elapsed: real, tempo: real, ts: TimeSignature)
    requires tempo > 0.0 && ts.bottom >= 1 && ts.top >= 1 && elapsed >= 0.0
    requires CursorAt(elapsed, tempo, ts).Some?
    ensures CursorAt(elapsed, tempo, ts).value.x
          < CalculateX(MeasureAt(elapsed, tempo, ts), ts.top as real, ts.top)
  {
    LeftOfBarline(MeasureAt(elapsed, tempo, ts), BeatInMeasureAt(elapsed, tempo, ts), ts.top);
  }

  /** After `measure * top + beat` beats, the cursor is at that beat of that measure. */
  lemma CursorAtBeat(elapsed: real, tempo: real, ts: TimeSignature, measure: int, beat: real)
    requires tempo > 0.0 && ts.bottom >= 1 && ts.top >= 1 && elapsed >= 0.0
    requires 0 <= measure < NumMeasures && 0.0 <= beat < ts.top as real
    requires BeatsAt(elapsed, tempo, ts) == measure as real * ts.top as real + beat
    ensures
      var c := CursorAt(elapsed, tempo, ts);
      c.Some? && c.value.x == CalculateX(measure, beat, ts.top)
  {
    MeasureOfBeats(BeatsAt(elapsed, tempo, ts), ts.top as real, measure, beat);
    assert MeasureAt(elapsed, tempo, ts) == measure;
    assert BeatInMeasureAt(elapsed, tempo, ts) == beat;
  }

  /** `measure * t + beat` beats, with `beat` short of a whole measure `t`, fall
      in measure `measure`. */
  lemma MeasureOfBeats(beats: real, t: real, measure: int, beat: real)
    requires t > 0.0 && 0.0 <= beat < t && beats == measure as real * t + beat
    ensures (beats / t).Floor == measure
  {
    FloorOfQuotient(beats, t, measure);
    assert t * measure as real == measure as real * t;
  }

  lemma NonNegativeBeats(note: Note, top: int)
    requires top >= 1 && note.measure >= 0 && note.beat >= 0.0
    ensures NoteBeats(note, top) >= 0.0
  {
    NonNegativeProduct(top as real, note.measure as real);
  }

  /** Playback ends exactly when the beats played reach the end of measure 16. */
  lemma CursorStopsAfterLastMeasure(elapsed: real, tempo: real, ts: TimeSignature)
    requires tempo > 0.0 && ts.bottom >= 1 && ts.top >= 1
    ensures CursorAt(elapsed, tempo, ts).None?
        <==> BeatsAt(elapsed, tempo, ts) >= NumMeasures as real * ts.top as real
  {
    var beats := BeatsAt(elapsed, tempo, ts);
    var t := ts.top as real;
    var m := MeasureAt(elapsed, tempo, ts);
    BetweenMultiples(beats, t, m as real);
    if beats >= NumMeasures as real * t {
      QuotientLower(beats, t, NumMeasures as real);
    } else {
      QuotientUpper(beats, t, NumMeasures as real);
    }
  }

  // ---------------------------------------------------------------------------
  // The editor

  /** The two clocks playback started at: the audio clock in seconds, and the page's
      clock in milliseconds. */
  datatype PlaybackStart = PlaybackStart(audioTime: real, performanceTime: real)

  class Editor {
    var notes: seq<Note>
    var selectedTool: Tool
    var selectedDuration: NoteDuration
    var selectedDrumPart: DrumPart
    var timeSignature: TimeSignature
    var isPlaying: bool
    var tempo: real
    var playbackCursor: Option<Cursor>
    /** Whether an audio context is open. */
    var audioOpen: bool
    /** Whether an animation frame is requested. */
    var animationPending: bool
    var playbackStart: Option<PlaybackStart>

    ghost predicate Valid()
      reads this
    {
      && ValidTimeSignature(timeSignature)
      && tempo > 0.0
      && WellFormed(notes, timeSignature)
    }

    /** An empty 4/4 score at 120 beats per minute, the pen and a quarter-note
        snare selected. */
    constructor ()
      ensures Valid()
      ensures notes == [] && selectedTool == Pen && selectedDuration == Quarter
      ensures selectedDrumPart == Snare && timeSignature == TimeSignature(4, 4) && tempo == 120.0
      ensures !isPlaying && playbackCursor.None? && playbackStart.None?
      ensures !audioOpen && !animationPending
    {
      notes := [];
      selectedTool := Pen;
      selectedDuration := Quarter;
      selectedDrumPart := Snare;
      timeSignature := TimeSignature(4, 4);
      isPlaying := false;
      tempo := 120.0;
      playbackCursor := None;
      audioOpen := false;
      animationPending := false;
      playbackStart := None;
    }

    method SelectTool(tool: Tool)
      requires Valid()
      modifies this
      ensures Valid() && selectedTool == tool
      ensures notes == old(notes) && timeSignature == old(timeSignature) && tempo == old(tempo)
      ensures selectedDuration == old(selectedDuration) && selectedDrumPart == old(selectedDrumPart)
      ensures isPlaying == old(isPlaying) && playbackCursor == old(playbackCursor)
      ensures audioOpen == old(audioOpen) && animationPending == old(animationPending)
      ensures playbackStart == old(playbackStart)
    {
      selectedTool := tool;
    }

    method SelectDuration(duration: NoteDuration)
      requires Valid()
      modifies this
      ensures Valid() && selectedDuration == duration
      ensures notes == old(notes) && timeSignature == old(timeSignature) && tempo == old(tempo)
      ensures selectedTool == old(selectedTool) && selectedDrumPart == old(selectedDrumPart)
      ensures isPlaying == old(isPlaying) && playbackCursor == old(playbackCursor)
      ensures audioOpen == old(audioOpen) && animationPending == old(animationPending)
      ensures playbackStart == old(playbackStart)
    {
      selectedDuration := duration;
    }

    method SelectDrumPart(part: DrumPart)
      requires Valid()
      modifies this
      ensures Valid() && selectedDrumPart == part
      ensures notes == old(notes) && timeSignature == old(timeSignature) && tempo == old(tempo)
      ensures selectedTool == old(selectedTool) && selectedDuration == old(selectedDuration)
      ensures isPlaying == old(isPlaying) && playbackCursor == old(playbackCursor)
      ensures audioOpen == old(audioOpen) && animationPending == old(animationPending)
      ensures playbackStart == old(playbackStart)
    {
      selectedDrumPart := part;
    }

    method SetTempo(newTempo: real)
      requires Valid() && newTempo > 0.0
      modifies this
      ensures Valid() && tempo == newTempo
      ensures notes == old(notes) && timeSignature == old(timeSignature)
      ensures selectedTool == old(selectedTool) && selectedDuration == old(selectedDuration)
      ensures selectedDrumPart == old(selectedDrumPart)
      ensures isPlaying == old(isPlaying) && playbackCursor == old(playbackCursor)
      ensures audioOpen == old(audioOpen) && animationPending == old(animationPending)
      ensures playbackStart == old(playbackStart)
    {
      tempo := newTempo;
    }

    /** A click on the staff at (measure, beat) for `part`: appends the new note, with
        the fresh id `freshId`, unless `AddNote` refuses it. */
    method HandleAddNote(measure: int, beat: real, part: DrumPart, freshId: string)
      requires Valid()
      modifies this
      ensures Valid()
      ensures
        var o := AddNote(old(notes), selectedTool, selectedDuration, timeSignature, measure, beat, part, freshId);
        && (o.Added? ==> notes == old(notes) + [o.note])
        && (!o.Added? ==> notes == old(notes))
      ensures timeSignature == old(timeSignature) && tempo == old(tempo)
      ensures selectedTool == old(selectedTool) && selectedDuration == old(selectedDuration)
      ensures selectedDrumPart == old(selectedDrumPart)
      ensures isPlaying == old(isPlaying) && playbackCursor == old(playbackCursor)
      ensures audioOpen == old(audioOpen) && animationPending == old(animationPending)
      ensures playbackStart == old(playbackStart)
    {
      var outcome := AddNote(notes, selectedTool, selectedDuration, timeSignature, measure, beat, part, freshId);
      if outcome.Added? {
        AddKeepsWellFormed(notes, selectedTool, selectedDuration, timeSignature, measure, beat, part, freshId);
        notes := notes + [outcome.note];
      }
    }

    /** A click on the staff at (x, y): ignored while playing; otherwise the pointer
        is mapped to a measure and grid beat for the selected duration and
        instrument, and a note is added there as `HandleAddNote` does. */
    method ClickStaff(x: real, y: real, freshId: string)
      requires Valid()
      modifies this
      ensures Valid()
      ensures
        var p := GetNotePosition(x, y, timeSignature, selectedDuration, selectedDrumPart);
        if old(isPlaying) || p.None? then notes == old(notes)
        else
          var o := AddNote(old(notes), selectedTool, selectedDuration, timeSignature,
                           p.value.measure, p.value.beat, p.value.part, freshId);
          && (o.Added? ==> notes == old(notes) + [o.note] && InMeasureArea(x, y, o.note.measure))
          && (!o.Added? ==> notes == old(notes))
      ensures timeSignature == old(timeSignature) && tempo == old(tempo)
      ensures selectedTool == old(selectedTool) && selectedDuration == old(selectedDuration)
      ensures selectedDrumPart == old(selectedDrumPart)
      ensures isPlaying == old(isPlaying) && playbackCursor == old(playbackCursor)
      ensures audioOpen == old(audioOpen) && animationPending == old(animationPending)
      ensures playbackStart == old(playbackStart)
    {
      if isPlaying {
        return;
      }
      var pos := GetNotePosition(x, y, timeSignature, selectedDuration, selectedDrumPart);
      if pos.Some? {
        HandleAddNote(pos.value.measure, pos.value.beat, pos.value.part, freshId);
      }
    }

    /** A click on a note: with the eraser, removes every note with its id. */
    method HandleNoteClick(noteId: string)
      requires Valid()
      modifies this
      ensures Valid()
      ensures selectedTool == Eraser ==> notes == WithoutId(old(notes), noteId)
      ensures selectedTool != Eraser ==> notes == old(notes)
      ensures timeSignature == old(timeSignature) && tempo == old(tempo)
      ensures selectedTool == old(selectedTool) && selectedDuration == old(selectedDuration)
      ensures selectedDrumPart == old(selectedDrumPart)
      ensures isPlaying == old(isPlaying) && playbackCursor == old(playbackCursor)
      ensures audioOpen == old(audioOpen) && animationPending == old(animationPending)
      ensures playbackStart == old(playbackStart)
    {
      if selectedTool == Eraser {
        EraseKeepsWellFormed(notes, timeSignature, noteId);
        notes := WithoutId(notes, noteId);
      }
    }

    /** A new time signature: set at once on an empty score; on a non-empty one only
        if the user confirms, and then the score is cleared. */
    method HandleTimeSignatureChange(newTimeSignature: TimeSignature, confirmed: bool)
      requires Valid() && ValidTimeSignature(newTimeSignature)
      modifies this
      ensures Valid()
      ensures old(notes) == [] ==> notes == [] && timeSignature == newTimeSignature
      ensures old(notes) != [] && confirmed ==> notes == [] && timeSignature == newTimeSignature
      ensures old(notes) != [] && !confirmed ==> notes == old(notes) && timeSignature == old(timeSignature)
      ensures tempo == old(tempo)
      ensures selectedTool == old(selectedTool) && selectedDuration == old(selectedDuration)
      ensures selectedDrumPart == old(selectedDrumPart)
      ensures isPlaying == old(isPlaying) && playbackCursor == old(playbackCursor)
      ensures audioOpen == old(audioOpen) && animationPending == old(animationPending)
      ensures playbackStart == old(playbackStart)
    {
      if |notes| > 0 {
        if confirmed {
          notes := [];
        } else {
          return;
        }
      }
      timeSignature := newTimeSignature;
    }

    /** Ends playback: no cursor, no pending frame, no start time, and a running
        audio context closed. */
    method StopPlayback()
      requires Valid()
      modifies this
      ensures Valid()
      ensures !isPlaying && playbackCursor.None? && !animationPending && playbackStart.None? && !audioOpen
      ensures notes == old(notes) && timeSignature == old(timeSignature) && tempo == old(tempo)
      ensures selectedTool == old(selectedTool) && selectedDuration == old(selectedDuration)
      ensures selectedDrumPart == old(selectedDrumPart)
    {
      isPlaying := false;
      playbackCursor := None;
      animationPending := false;
      playbackStart := None;
      if audioOpen {
        audioOpen := false;
      }
    }

    /** Play: on a non-empty score, opens the audio context, records both clocks,
        and returns one sound per note, scheduled 0.1 s after the audio clock's
        `audioNow`; the page clock reads `performanceNow`. */
    method HandlePlay(audioNow: real, performanceNow: real) returns (triggers: seq<Trigger>)
      requires Valid()
      modifies this
      ensures Valid()
      ensures old(notes) == [] ==>
        triggers == [] && isPlaying == old(isPlaying) && playbackStart == old(playbackStart)
        && audioOpen == old(audioOpen) && animationPending == old(animationPending)
      ensures old(notes) != [] ==>
        && isPlaying && audioOpen && animationPending
        && playbackStart == Some(PlaybackStart(audioNow + 0.1, performanceNow))
        && |triggers| == |notes|
        && forall i :: 0 <= i < |notes| ==>
             triggers[i] == Trigger(notes[i].part, TriggerTime(audioNow + 0.1, notes[i], tempo, timeSignature))
      ensures notes == old(notes) && timeSignature == old(timeSignature) && tempo == old(tempo)
      ensures playbackCursor == old(playbackCursor)
      ensures selectedTool == old(selectedTool) && selectedDuration == old(selectedDuration)
      ensures selectedDrumPart == old(selectedDrumPart)
    {
      if |notes| == 0 {
        return [];
      }
      audioOpen := true;
      isPlaying := true;
      var audioStartTime := audioNow + 0.1;
      playbackStart := Some(PlaybackStart(audioStartTime, performanceNow));
      triggers := ScheduleTriggers(notes, audioStartTime, tempo, timeSignature);
      animationPending := true;
    }

    /** One animation frame at page-clock time `now` (milliseconds): moves the cursor,
        or stops playback once the last measure is over. */
    method AnimatePlayback(now: real)
      requires Valid()
      modifies this
      ensures Valid()
      ensures old(playbackStart).None? ==>
        isPlaying == old(isPlaying) && playbackCursor == old(playbackCursor)
        && playbackStart == old(playbackStart) && animationPending == old(animationPending)
        && audioOpen == old(audioOpen)
      ensures old(playbackStart).Some? ==>
        var c := CursorAt((now - old(playbackStart).value.performanceTime) / 1000.0, tempo, timeSignature);
        && (c.None? ==> !isPlaying && playbackCursor.None? && playbackStart.None? && !animationPending && !audioOpen)
        && (c.Some? ==> playbackCursor == c && animationPending && playbackStart == old(playbackStart)
                        && isPlaying == old(isPlaying) && audioOpen == old(audioOpen))
      ensures notes == old(notes) && timeSignature == old(timeSignature) && tempo == old(tempo)
      ensures selectedTool == old(selectedTool) && selectedDuration == old(selectedDuration)
      ensures selectedDrumPart == old(selectedDrumPart)
    {
      if playbackStart.None? {
        return;
      }
      var elapsedPerformanceTime := (now - playbackStart.value.performanceTime) / 1000.0;
      var cursor := CursorAt(elapsedPerformanceTime, tempo, timeSignature);
      if cursor.None? {
        StopPlayback();
        return;
      }
      playbackCursor := cursor;
      animationPending := true;
    }
  }

  // ---------------------------------------------------------------------------
  // Scenarios

  /** In 4/4 a voice holds four quarter notes: after four quarter-note snares a
      fifth quarter-note drum in the same measure is refused, while a cymbal, in
      the other voice, at the same beat as a snare is accepted. */
  lemma FourQuartersFillAMeasure(s1: Note, s2: Note, s3: Note, s4: Note)
    requires s1 == NewNote("a", Snare, Quarter, 0.0, 0)
    requires s2 == NewNote("b", Snare, Quarter, 1.0, 0)
    requires s3 == NewNote("c", Snare, Quarter, 2.0, 0)
    requires s4 == NewNote("d", Snare, Quarter, 3.0, 0)
    ensures AddNote([s1, s2, s3, s4], Pen, Quarter, TimeSignature(4, 4), 0, 3.5, BassDrum, "e") == ExceedsCapacity
    ensures AddNote([s1, s2, s3, s4], Pen, Quarter, TimeSignature(4, 4), 0, 0.0, RideCymbal, "e").Added?
  {
    VoiceTotalAppend([], s1, 0, 2);
    VoiceTotalAppend([s1], s2, 0, 2);
    VoiceTotalAppend([s1, s2], s3, 0, 2);
    VoiceTotalAppend([s1, s2, s3], s4, 0, 2);
    VoiceTotalAppend([], s1, 0, 1);
    VoiceTotalAppend([s1], s2, 0, 1);
    VoiceTotalAppend([s1, s2], s3, 0, 1);
    VoiceTotalAppend([s1, s2, s3], s4, 0, 1);
    BuiltByAppends(s1, s2, s3, s4);
  }

  lemma BuiltByAppends(s1: Note, s2: Note, s3: Note, s4: Note)
    ensures [] + [s1] == [s1] && [s1] + [s2] == [s1, s2]
    ensures [s1, s2] + [s3] == [s1, s2, s3] && [s1, s2, s3] + [s4] == [s1, s2, s3, s4]
  {
  }

  /** The same instrument cannot be placed twice at one time. */
  lemma SecondNoteAtSamePlaceRefused(n: Note)
    requires n == NewNote("a", HiHatClosed, Eighth, 1.5, 2)
    ensures AddNote([n], Pen, Sixteenth, TimeSignature(4, 4), 2, 1.5, HiHatClosed, "b") == Duplicate
  {
    assert [n][..0] == [];
    assert SamePlace([n][0], 2, 1.5, HiHatClosed);
  }
}
