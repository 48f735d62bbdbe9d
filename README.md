# Drum notation editor: rhythmic core in Dafny

This project models the rhythmic-editing core of a browser drum-notation editor.

- **Staff.** The staff has 16 measures, laid out four to a line.
- **Pointer mapping.** A pointer position on the staff maps to a measure and a quantized beat.
- **Note store.** A note is accepted or refused by a per-voice capacity check and a duplicate check. The eraser removes notes by id. A time-signature change clears the score once confirmed.
- **Beaming.** Notes are grouped for beaming, per voice. A beamed group's stems, main beam and secondary beams (runs of sixteenths) are computed.
- **Playback.** One sound is scheduled per note, 0.1 s after play on the audio clock. A cursor moves over the staff from the page clock read at play, so it reaches a note's x 0.1 s before the note sounds.

Modules follow the source files:

- `Types` — `types.ts`.
- `JsMath` — JavaScript's `Math.round`, `Math.ceil` and truncating `%`.
- `Constants` — `constants.ts`.
- `Grid` — `utils/grid.ts`.
- `Sequences` — concatenation of groups.
- `BeamedNoteGroup` — `components/BeamedNoteGroup.tsx`.
- `Staff` — `components/Staff.tsx`.
- `App` — `App.tsx`.

Numbers are exact reals. `Math.round(x)` is `(x + 0.5).Floor`, and `Math.floor` is `.Floor`. JavaScript's `%` keeps the sign of the dividend (`RealRem`, `IntRem`). `Array.prototype.sort` is stable, so the sort is a stable insertion sort, with stability proved.

`App.tsx` keeps its state in React hooks. Here it is the class `App.Editor`, one field per hook or ref. The store handlers are functions on `seq<Note>` (`AddNote`, `WithoutId`), and the methods replace `notes` with their result. Playback is imperative: the `forEach` over the notes is the loop of `ScheduleTriggers`. The browser's clocks, `window.confirm` and `crypto.randomUUID` are method parameters.

Where the code and the written design of the system differ, the model follows the code:

- An accepted note is appended; the store is not re-sorted (`App.tsx:71`). Sorting happens only when grouping for beams (`components/Staff.tsx:26`).
- A second note for the same instrument at the same time is refused, not replaced (`App.tsx:55-59`).
- The bass drum is in voice 2 with the snare and toms (`constants.ts:39`). There are only two voices.
- There is no loop playback and there are no thirty-second notes, copy/paste, or measure insertion.
- The pointer can pick the barline beat `top` itself. `PointerReachesBarline` shows this. The simplified grid of `utils/grid.ts` never does (`RightEdgeIsLastHalfBeat`). See "## Findings".

## Model

| member | source | states |
|---|---|---|
| JsMath.Round | components/Staff.tsx:98 | `Math.round` gives the integer within half of x, ties upward |
| JsMath.Ceil | components/Staff.tsx:59 | `Math.ceil` gives the least integer not below x |
| JsMath.RealRem | App.tsx:117 | JavaScript `%` on reals: for a non-negative dividend the remainder lies in [0, b) and is a − b·⌊a/b⌋; for a negative one it lies in (−b, 0] |
| JsMath.IntRem | components/Staff.tsx:177 | JavaScript `%` on integers: it agrees with `%` for non-negative values and is never positive for negative ones |
| Constants.LayoutConstants | constants.ts:4-15 | 16 measures fill whole lines of 4; the note area of a measure is 300 − 2·15 = 270 wide; measures start at x = 100; lines are 200 apart |
| Constants.PartYOrder | constants.ts:19-28 | staff heights strictly increase from crash, hi-hat, ride, high tom, mid tom, snare and floor tom down to bass drum |
| Constants.MiddleLineIsSnare | constants.ts:25-43 | the middle line is the snare's height |
| Constants.PartVoice | constants.ts:31-40 | crash, hi-hat and ride are voice 1; snare, the toms and bass drum are voice 2 (both directions) |
| Constants.PartNoteHead | constants.ts:45-54 | the notehead is a cross exactly for the voice-1 instruments and normal exactly for the voice-2 ones |
| Constants.FractionalValue | constants.ts:57-63 | every duration is worth a positive fraction of at most a whole note |
| Constants.FractionalValuesHalve | constants.ts:57-63 | a whole note is 1, and each shorter duration is half the previous |
| Grid.GetQuantizedBeat | utils/grid.ts:4-18 | the snapped beat lies in [0, top − ½] and is a multiple of ½ |
| Grid.DefaultTopIsFour | utils/grid.ts:7 | leaving out the beats per measure means 4 |
| Grid.QuantizedBeatMonotone | utils/grid.ts:13-15 | moving the pointer right never moves the snapped beat left |
| Grid.GridPointRoundTrip | utils/grid.ts:13-17 | an offset exactly k steps into the measure (x / stepWidth = k), 0 ≤ k < 2·top, snaps to beat k/2 |
| Grid.LeftEdgeIsFirstBeat | utils/grid.ts:14-15 | x ≤ 0 snaps to beat 0 |
| Grid.RightEdgeIsLastHalfBeat | utils/grid.ts:14-15 | x ≥ width snaps to the last half beat top − ½, never the barline |
| BeamedNoteGroup.StemDirectionOf | components/BeamedNoteGroup.tsx:19 | the group's direction is −1 exactly when the first note's stem is up, otherwise +1 |
| BeamedNoteGroup.MinY | components/BeamedNoteGroup.tsx:27 | the minimum notehead y: at most every y and equal to one |
| BeamedNoteGroup.MaxY | components/BeamedNoteGroup.tsx:28 | the maximum notehead y: at least every y and equal to one |
| BeamedNoteGroup.BeamAnchorY | components/BeamedNoteGroup.tsx:16-28 | stems up: exactly 35 above the highest notehead (at least 35 above every notehead, and equal to one of them minus 35); stems down: exactly 35 below the lowest, in the same two clauses |
| BeamedNoteGroup.StemX | components/BeamedNoteGroup.tsx:17-75 | a stem is 6 right of the notehead when stems point down and 6 left when they point up |
| BeamedNoteGroup.SecondaryBeamOutsideMainBeam | components/BeamedNoteGroup.tsx:24-53 | the secondary beam is 4 + 2 further from every notehead than the main beam |
| BeamedNoteGroup.SixteenthRuns | components/BeamedNoteGroup.tsx:31-42 | the loop returns the runs of the left-to-right scan `ScanResult`; they are non-empty, all-sixteenth, contiguous slices of the group in order, separated by at least one other note, and maximal; together they hold exactly the group's sixteenths |
| BeamedNoteGroup.ScanResultIsPartition | components/BeamedNoteGroup.tsx:31-42 | the scan (a sixteenth extends the open run, any other note closes it) yields exactly the maximal runs of sixteenths, covering every sixteenth once |
| BeamedNoteGroup.Render | components/BeamedNoteGroup.tsx:14-92 | nothing for fewer than two notes; otherwise one stem per note from notehead to anchor, a main beam from the first stem to the last, and one secondary beam spanning each run `SixteenthRuns` finds, those runs being the maximal runs of sixteenths |
| Staff.SortByKey | components/Staff.tsx:26 | the result is sorted by measure·100 + beat and is a permutation of the input |
| Staff.Insert | components/Staff.tsx:26 | inserting into a sorted sequence keeps it sorted and adds exactly the one note |
| Staff.InsertKeepsKeyOrder | components/Staff.tsx:26 | insertion places a note after every earlier note with the same key |
| Staff.SortByKeyIsStable | components/Staff.tsx:26 | notes with equal keys keep their input order (a stable sort) |
| Staff.WithKeyConcat | components/Staff.tsx:26 | the equal-key filter distributes over concatenation |
| Staff.GroupNotesForBeaming | components/Staff.tsx:24-52 | empty input gives no groups; the groups concatenate to exactly the sorted input; each is a singleton or a run of eighths and sixteenths sharing voice, measure and ⌊beat⌋; consecutive runs could not have been merged |
| Staff.GroupShares | components/Staff.tsx:42 | every note of a group shares the first note's voice, measure and ⌊beat⌋ |
| Staff.NotesOfVoice | components/Staff.tsx:65-66 | the filter keeps exactly the notes of that voice: each result note is of that voice and from the input, and each input note of that voice is in the result |
| Staff.NotesOfVoiceConcat | components/Staff.tsx:65-66 | the filter distributes over concatenation, so it keeps store order |
| Staff.VoicesPartitionNotes | components/Staff.tsx:65-66 | the voice-1 and voice-2 filters together hold exactly the notes |
| Staff.NoteGroups | components/Staff.tsx:64-68 | the groups concatenate to sorted voice 1 followed by sorted voice 2, a permutation of all notes; groups are valid and maximal, single-voice, and voice-1 groups come first |
| Staff.CalculateX | components/Staff.tsx:177 | a beat in [0, top] is drawn within its measure's note area |
| Staff.CalculateY | components/Staff.tsx:178 | a notehead lies strictly inside its staff line's band |
| Staff.LayoutGroup | components/Staff.tsx:173-181 | one position per note, at that note's x; for a valid group, each y is the note's height on its own staff line |
| Staff.SharedLine | components/Staff.tsx:173 | all notes of a group lie on the same staff line as the first |
| Staff.MeasureOfLineAndColumn | components/Staff.tsx:87 | measure line·4 + column lies on that line, in that column |
| Staff.NumLinesIsFour | components/Staff.tsx:59 | there are ⌈16/4⌉ = 4 staff lines |
| Staff.MeasureDecompose | components/Staff.tsx:173-177 | each of the 16 measures is its line·4 plus its column, both in range |
| Staff.Subdivision | components/Staff.tsx:96-97 | grid points per beat lie between 1 and 8 |
| Staff.QuantizeBeat | components/Staff.tsx:98 | the quantized beat is non-negative and on the grid, and for a non-negative raw beat it is within half a grid step of it |
| Staff.QuantizeGridBeat | components/Staff.tsx:98 | a beat already on the grid quantizes to itself |
| Staff.QuantizedBeatAtMost | components/Staff.tsx:98 | a raw beat at most n quantizes to at most n |
| Staff.LocatePointer | components/Staff.tsx:77-93 | when a point is accepted, it lies in the note area of measure line·4 + column, and its offset into that area is returned |
| Staff.GetNotePosition | components/Staff.tsx:70-105 | an accepted point lies in the note area of the returned measure; the beat is on the grid, in [0, top] and nearest to the pointer's raw beat; x and y are where a note there is drawn |
| Staff.PlaceOnGrid | components/Staff.tsx:87-104 | the measure is line·4 + column; the beat is on the grid, in [0, top] and nearest to the raw beat; x is `calculateX` of that note and y its height on the line |
| Staff.QuantizedBeatAt | components/Staff.tsx:95-98 | the beat picked at an offset lies in [0, top], is on the grid and is nearest to the raw beat |
| Staff.HoverXIsCalculateX | components/Staff.tsx:101 | the hover x for (measure, beat) equals `calculateX` of a note there, on the pointer's line |
| Staff.PointerInArea | components/Staff.tsx:77-93 | a point passing all the checks lies in the note area of the measure the checks compute |
| Staff.PointerBeatBounds | components/Staff.tsx:95-98 | the raw beat lies in [0, top], and so does its quantization |
| Staff.AreaLine | components/Staff.tsx:77 | a point in a measure's note area has that measure's line as its line index |
| Staff.AreaColumn | components/Staff.tsx:81-84 | a point in a measure's note area has that measure's column as its column |
| Staff.MeasureAreasDisjoint | components/Staff.tsx:77-93 | no point lies in two measures' note areas |
| Staff.LocateInArea | components/Staff.tsx:77-93 | every point of a note area passes all the checks |
| Staff.PointerAcceptsExactlyNoteAreas | components/Staff.tsx:77-93 | the pointer mapping returns a position if and only if the point lies on some measure's note area |
| Staff.GridPointsApart | components/Staff.tsx:98 | two grid points within half a step of each other are equal |
| Staff.BeatAtCalculateX | components/Staff.tsx:95-177 | the raw beat at a note's x is the note's beat |
| Staff.PointerRoundTrip | components/Staff.tsx:70-178 | pointing at a note drawn at a grid beat gives back the same measure, beat, instrument, x and y |
| Staff.PointerReachesBarline | components/Staff.tsx:93-98 | the right edge of a note area gives beat `top`, the barline itself |
| Staff.BarlineIsOnGrid | components/Staff.tsx:98-177 | the barline beat is a grid point, drawn at the right end of the note area |
| Staff.LeftOfBarline | components/Staff.tsx:177 | a beat short of `top` is drawn left of the barline x |
| Staff.QuantizedBeatBeforeBarline | components/Staff.tsx:98 | corrected quantization: always on the grid and before the barline; the nearest grid point whenever the program's rounding stays before it, otherwise the last grid point, one step before the barline |
| App.Capacity | App.tsx:39 | a valid time signature gives a positive capacity |
| App.VoiceTotal | App.tsx:42-45 | the total of a measure's voice is non-negative and 0 for no notes |
| App.VoiceTotalAppend | App.tsx:42-45 | appending a note raises only its own measure's and voice's total, by its value |
| App.NewNote | App.tsx:61-69 | the new note's voice is its instrument's, its stem is up exactly in voice 1, and it has the given id, part, duration, beat and measure |
| App.AddNote | App.tsx:35-73 | not the pen: no effect (both ways); capacity exceeded: refused (both ways); refused as duplicate only when a note for that instrument is already there; an accepted note is new at its place, built as above, and its voice stays within capacity |
| App.WithoutId | App.tsx:75-79 | a note is kept if and only if it was there and has another id |
| App.WithoutIdConcat | App.tsx:77 | erasing works note by note, keeping the order of what it keeps |
| App.WithoutAbsentId | App.tsx:77 | erasing an id no note has changes nothing |
| App.WithoutIdLowersTotals | App.tsx:42-45 | erasing never raises any measure's voice total |
| App.AddKeepsWellFormed | App.tsx:35-73 | an accepted note keeps every voice within capacity, places unique and voices matching instruments |
| App.EraseKeepsWellFormed | App.tsx:75-79 | erasing keeps every voice within capacity, places unique and voices matching instruments |
| App.SecondsPerBeat | App.tsx:142 | a beat lasts a positive time |
| App.ScheduleTriggers | App.tsx:142-148 | one sound per note, in store order, for its instrument at start + (measure·top + beat)·secondsPerBeat |
| App.TriggerTimesFollowBeats | App.tsx:145-147 | a note later in the piece is scheduled later |
| App.EarlierMeasureSoundsFirst | App.tsx:145-147 | a note before the closing barline (beat < top) of an earlier measure sounds strictly before every note of a later measure |
| App.EarlierMeasureNeverLater | App.tsx:145-147 | with barline notes (beat ≤ top) included, a note of an earlier measure never sounds after a note of a later one |
| App.BarlineNoteTiesNextDownbeat | App.tsx:145-147 | a note on a measure's closing barline sounds at the same instant as beat 0 of the next measure |
| App.ClickOnBarlineTiesNextDownbeat | components/Staff.tsx:93-98 | clicking the right end of a measure's note area places a note that sounds together with the next measure's first beat |
| App.BarlineSnareBesideDownbeatAccepted | App.tsx:34-72 | in 4/4 the store accepts a snare at measure 0, beat 4 beside a snare at measure 1, beat 0, and at any tempo both sound at one instant |
| App.CorrectedClickSoundsFirst | App.tsx:145-147 | with the corrected quantization, a clicked note sounds strictly before every note of a later measure |
| App.ExampleTriggerTime | App.tsx:139-147 | at 120 bpm in 4/4 a note at measure 1, beat 2 sounds 3 s after the start |
| App.CursorAt | App.tsx:105-125 | the cursor stops if and only if the measure reached is the 17th or later; otherwise the in-measure beat lies in [0, top), x is where a note on that beat is drawn, and the cursor spans every instrument's height on the line |
| App.CursorOf | App.tsx:115-125 | the cursor x is `calculateX` of that measure and beat, and it spans every instrument's height on its line |
| App.CursorMeetsNote | App.tsx:107-123 | once a note's beats (measure·top + beat, beat < top) have passed on the page clock, the cursor is drawn exactly at that note's x |
| App.CursorLeadsSound | App.tsx:139-147 | when a note's sound is due, 0.1 s more page-clock time has passed than its beats take, so the cursor is 0.1/secondsPerBeat beats past the note |
| App.ExampleCursorLead | App.tsx:105-147 | at 120 bpm in 4/4, when the first beat sounds, the cursor is at beat 0.2, right of the note |
| App.CursorShortOfBarline | App.tsx:117-123 | while a measure plays, the cursor stays left of its closing barline, so it never reaches a barline note |
| App.CursorAtBeat | App.tsx:107-123 | after measure·top + beat beats the cursor is at that beat of that measure |
| App.CursorStopsAfterLastMeasure | App.tsx:109-113 | playback stops exactly when 16·top beats have been played |
| App.FourQuartersFillAMeasure | App.tsx:38-52 | in 4/4, after four quarter snares a fifth voice-2 quarter is refused, while a cymbal in voice 1 at the same beat is accepted |
| App.SecondNoteAtSamePlaceRefused | App.tsx:55-59 | a second hi-hat at the same measure and beat is refused as a duplicate |
| App.Editor.constructor | App.tsx:10-21 | empty 4/4 score at 120 bpm, pen, quarter and snare selected, not playing |
| App.Editor.SelectTool | App.tsx:11-156 | only the selected tool changes |
| App.Editor.SelectDuration | App.tsx:12-158 | only the selected duration changes |
| App.Editor.SelectDrumPart | App.tsx:13-160 | only the selected instrument changes |
| App.Editor.SetTempo | App.tsx:17-165 | only the tempo changes |
| App.Editor.HandleAddNote | App.tsx:35-73 | the store gains exactly the accepted note at its end, or is unchanged; the store stays well formed |
| App.Editor.ClickStaff | components/Staff.tsx:113-117 | no effect while playing or off the note areas; otherwise adds the note at the pointer's measure and grid beat, inside the clicked measure |
| App.Editor.HandleNoteClick | App.tsx:75-79 | with the eraser, removes exactly the notes with that id; otherwise nothing changes |
| App.Editor.HandleTimeSignatureChange | App.tsx:81-90 | empty score: the new signature is set; confirmed: notes cleared and signature set; declined: both unchanged |
| App.Editor.StopPlayback | App.tsx:92-100 | not playing, no cursor, no pending frame, no start time, audio closed; the score is unchanged |
| App.Editor.HandlePlay | App.tsx:132-151 | no notes: nothing; otherwise playing, start time = audio clock + 0.1 with the page clock, and one sound per note as `ScheduleTriggers` |
| App.Editor.AnimatePlayback | App.tsx:102-130 | without a start time nothing; past the last measure, playback stops; otherwise the cursor is `CursorAt` the elapsed seconds and another frame is requested |

## Findings

| source | as written | input that shows it | evidently intended | confidence | as-written member | corrected member |
|---|---|---|---|---|---|---|
| components/Staff.tsx:93-98 | the pointer accepts the right end of a note area, and `Math.round` can snap to `top` itself, so a note lands on the closing barline; it sounds together with the next measure's first beat, and the capacity and duplicate checks count it in its own measure | 4/4, quarter grid, a click 3.6 beats into measure 0: note at (measure 0, beat 4), same trigger time as (measure 1, beat 0) | a note stays before the barline, as `utils/grid.ts:15` clamps its own grid to the last half beat | medium, not executed | App.ClickOnBarlineTiesNextDownbeat | Staff.QuantizedBeatBeforeBarline |

`App.BarlineSnareBesideDownbeatAccepted` shows that the store takes such a note next to a note at the same instant. `App.CorrectedClickSoundsFirst` proves the intended ordering for the corrected quantization. `App.Editor.ClickStaff` keeps the program's behaviour as written.

## Left out

- **Rendering and browser events.** SVG/JSX rendering (noteheads, staff lines, `Note.tsx`, `Rest.tsx`, `Icons.tsx`, the hover circle) is not modelled. Neither are `Toolbar.tsx` widgets, beyond the setters the Editor exposes, or `DraggableText.tsx`.
- **Audio.** `audio.ts` synthesis is not modelled: a scheduled sound is a `Trigger(part, time)` value. `initializeAudio` always returns a context, so the `if (!context) return` at `App.tsx:136` can never fire and is left out.
- **Audio context close.** The context's `close()` is asynchronous, and its `.then` clears the ref (`App.tsx:98`). The model marks the context closed at once.
- **Unmount cleanup.** The cleanup effect at `App.tsx:23-32`, run when the component unmounts, is not modelled.
- **Browser clocks and IDs.** `performance.now`, `AudioContext.currentTime`, `window.confirm` and `crypto.randomUUID` become method parameters. `requestAnimationFrame` and `cancelAnimationFrame` become the flag `animationPending`.
- **Screen-to-SVG transform.** `getScreenCTM` and `matrixTransform` are left out: the pointer mapping takes SVG coordinates.
- **IEEE-754 floating point.** Numbers are exact reals. The 1e-6 capacity tolerance is kept as a real constant.
- **React stale closures.** The capacity check reads `notes` while the append uses `prevNotes` (`App.tsx:42` vs `App.tsx:71`). Updates are treated as sequential, so both are the same store.
- **Unique note ids.** Fresh ids are not checked against the store; `crypto.randomUUID` is trusted to give new ones.
- **Cursor type.** The cursor is modelled as `{x, y1, y2}`, as `App.tsx:127` builds it. The declared type `{x, y}` at `types.ts:43` differs.
- App.Editor.HandleTimeSignatureChange: requires top ≥ 1 and bottom ≥ 1, and `App.Editor.SetTempo` a positive tempo. The toolbar offers only such values.
- App.CursorMeetsNote: covers notes before the closing barline only. The cursor never reaches a barline note, as `App.CursorShortOfBarline` states.
- App.CursorLeadsSound: assumes the audio clock and the page clock advance at the same rate from the moment play reads them both. Drift between the two clocks is not modelled.
- Staff.LocatePointer and Staff.PlaceOnGrid: they are the two halves of the one source function `getNotePositionFromMouseEvent`. They are split so that each half's arithmetic can be reasoned about alone.
