/** The value types shared by every part of the drum editor: instrument parts,
    note durations, editing tools, notes and time signatures. */
module Types {

  datatype Option<+T> = None | Some(value: T)

  /** The eight instruments a note can be placed for. */
  datatype DrumPart =
    | BassDrum
    | Snare
    | HiHatClosed
    | CrashCymbal
    | RideCymbal
    | HighTom
    | MidTom
    | FloorTom

  datatype NoteDuration = Whole | Half | Quarter | Eighth | Sixteenth

  datatype Tool = Pen | Eraser | Loop

  datatype NoteHeadType = Cross | Normal

  datatype StemDirection = Up | Down

  /** A voice is 1 (stems up) or 2 (stems down). */
  type Voice = v: int | v == 1 || v == 2 witness 1

  /** A placed note: `beat` is the position inside `measure`, counted in beats of the
      time signature's top number. */
  datatype Note = Note(
    id: string,
    part: DrumPart,
    duration: NoteDuration,
    beat: real,
    measure: int,
    stemDirection: StemDirection,
    voice: Voice)

  datatype TimeSignature = TimeSignature(top: int, bottom: int)

  /** The time signatures the editor can be put in: a positive number of beats
      per measure and a positive beat unit. */
  predicate ValidTimeSignature(ts: TimeSignature) {
    ts.top >= 1 && ts.bottom >= 1
  }
}
