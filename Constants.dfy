/** The staff layout constants and the lookup tables that every other part of the
    editor reads: which voice, notehead and staff height each instrument gets, and
    how much of a whole note each duration is worth. */
module Constants {
  import opened Types

  // Staff dimensions, in SVG units.
  const StaffHeight: real := 120.0
  const StaffLineGap: real := 12.0
  const NumMeasures: int := 16
  const MeasuresPerLine: int := 4
  const StaffVerticalGap: real := 80.0
  const MeasureWidth: real := 300.0
  const MeasurePaddingHorizontal: real := 15.0
  const SubdivisionsPerBeat: int := 4
  const StaffYOffset: real := 50.0
  const StaffXOffset: real := 20.0
  const ClefWidth: real := 50.0
  const TimeSignatureWidth: real := 30.0

  /** Where the first measure of every staff line begins. */
  const MeasuresStartX: real := StaffXOffset + ClefWidth + TimeSignatureWidth

  /** The part of a measure, between its two paddings, on which notes are placed. */
  const NoteAreaWidth: real := MeasureWidth - 2.0 * MeasurePaddingHorizontal

  /** The vertical distance from one staff line to the next. */
  const LineHeight: real := StaffHeight + StaffVerticalGap

  /** The height of the staff's middle line, which is where the snare sits. */
  const MiddleLineY: real := StaffYOffset + 2.0 * StaffLineGap

  lemma LayoutConstants()
    ensures NumMeasures % MeasuresPerLine == 0
    ensures NoteAreaWidth == 270.0 && NoteAreaWidth > 0.0
    ensures MeasuresStartX == 100.0 && LineHeight == 200.0
  {
  }

  /** The height of each instrument's notehead, measured down from the top staff
      line of the first staff line. */
  function PartY(p: DrumPart): real {
    match p
    case CrashCymbal => StaffYOffset - StaffLineGap
    case HiHatClosed => StaffYOffset - 0.5 * StaffLineGap
    case RideCymbal => StaffYOffset
    case HighTom => StaffYOffset + 0.5 * StaffLineGap
    case MidTom => StaffYOffset + 1.5 * StaffLineGap
    case Snare => StaffYOffset + 2.0 * StaffLineGap
    case FloorTom => StaffYOffset + 3.0 * StaffLineGap
    case BassDrum => StaffYOffset + 4.0 * StaffLineGap
  }

  /** From the crash down to the bass drum, every instrument sits strictly lower
      on the staff than the one before. */
  lemma PartYOrder()
    ensures PartY(CrashCymbal) < PartY(HiHatClosed) < PartY(RideCymbal) < PartY(HighTom)
    ensures PartY(HighTom) < PartY(MidTom) < PartY(Snare) < PartY(FloorTom) < PartY(BassDrum)
  {
  }

  lemma MiddleLineIsSnare()
    ensures MiddleLineY == PartY(Snare)
  {
  }

  /** The voice of each instrument: cymbals and hi-hat are voice 1, drums voice 2. */
  function PartVoice(p: DrumPart): (v: Voice)
    ensures v == 1 <==> p == CrashCymbal || p == HiHatClosed || p == RideCymbal
    ensures v == 2 <==> p == Snare || p == HighTom || p == MidTom || p == FloorTom || p == BassDrum
  {
    match p
    case CrashCymbal => 1
    case HiHatClosed => 1
    case RideCymbal => 1
    case Snare => 2
    case HighTom => 2
    case MidTom => 2
    case FloorTom => 2
    case BassDrum => 2
  }

  /** The notehead of each instrument: a cross exactly for the voice-1 parts. */
  function PartNoteHead(p: DrumPart): (h: NoteHeadType)
    ensures h == Cross <==> PartVoice(p) == 1
    ensures h == Normal <==> PartVoice(p) == 2
  {
    match p
    case CrashCymbal => Cross
    case HiHatClosed => Cross
    case RideCymbal => Cross
    case Snare => Normal
    case BassDrum => Normal
    case HighTom => Normal
    case MidTom => Normal
    case FloorTom => Normal
  }

  /** Each duration as a fraction of a whole note. */
  function FractionalValue(d: NoteDuration): (f: real)
    ensures 0.0 < f <= 1.0
  {
    match d
    case Whole => 1.0
    case Half => 1.0 / 2.0
    case Quarter => 1.0 / 4.0
    case Eighth => 1.0 / 8.0
    case Sixteenth => 1.0 / 16.0
  }

  /** A whole note is worth 1, and each shorter duration is worth half the one before. */
  lemma FractionalValuesHalve()
    ensures FractionalValue(Whole) == 1.0
    ensures FractionalValue(Half) == FractionalValue(Whole) / 2.0
    ensures FractionalValue(Quarter) == FractionalValue(Half) / 2.0
    ensures FractionalValue(Eighth) == FractionalValue(Quarter) / 2.0
    ensures FractionalValue(Sixteenth) == FractionalValue(Eighth) / 2.0
  {
  }
}
