/** The simplified eighth-note grid: snaps a horizontal offset inside a measure to
    the nearest half beat, never past the measure's last half beat. */
module Grid {
  import opened JsMath

  /** Beats per measure that the simplified grid assumes by default. */
  const NotesPerMeasure: int := 4
  /** Grid points per measure in 4/4: eighth notes. */
  const Subdivisions: int := 8

  function Min(a: int, b: int): int { if a <= b then a else b }
  function Max(a: int, b: int): int { if a >= b then a else b }

  /** The width of one half-beat step when the measure holds `timeSignatureTop` beats. */
  function StepWidth(measureWidth: real, timeSignatureTop: int): (w: real)
    requires measureWidth > 0.0 && timeSignatureTop >= 1
    ensures w > 0.0
  {
    measureWidth / (timeSignatureTop * 2) as real
  }

  /** The grid step nearest to `xInMeasure`, before clamping. */
  function RawStep(xInMeasure: real, measureWidth: real, timeSignatureTop: int): int
    requires measureWidth > 0.0 && timeSignatureTop >= 1
  {
    Round(xInMeasure / StepWidth(measureWidth, timeSignatureTop))
  }

  /** The beat, a multiple of one half, nearest to `xInMeasure`, kept between the
      measure's first beat and its last half beat. */
  function GetQuantizedBeat(xInMeasure: real, measureWidth: real, timeSignatureTop: int := 4): (beat: real)
    requires measureWidth > 0.0 && timeSignatureTop >= 1
    ensures 0.0 <= beat <= timeSignatureTop as real - 0.5
    ensures (2.0 * beat).Floor as real == 2.0 * beat
  {
    var quantizationSteps := timeSignatureTop * 2;
    var rawStep := RawStep(xInMeasure, measureWidth, timeSignatureTop);
    var clampedStep := Max(0, Min(rawStep, quantizationSteps - 1));
    HalfStep(clampedStep, timeSignatureTop);
    clampedStep as real * 0.5
  }

  /** Step `k` of a measure's 2·top half-beat steps is a whole number of half beats,
      between the first beat and the last half beat. */
  lemma HalfStep(k: int, top: int)
    requires 0 <= k <= top * 2 - 1
    ensures 0.0 <= k as real * 0.5 <= top as real - 0.5
    ensures (2.0 * (k as real * 0.5)).Floor as real == 2.0 * (k as real * 0.5)
  {
    assert 2.0 * (k as real * 0.5) == k as real;
  }

  /** Leaving out the beats per measure means four beats. */
  lemma DefaultTopIsFour(xInMeasure: real, measureWidth: real)
    requires measureWidth > 0.0
    ensures GetQuantizedBeat(xInMeasure, measureWidth) == GetQuantizedBeat(xInMeasure, measureWidth, 4)
  {
  }

  /** Moving the pointer to the right never moves the quantized beat to the left. */
  lemma QuantizedBeatMonotone(x1: real, x2: real, measureWidth: real, timeSignatureTop: int)
    requires measureWidth > 0.0 && timeSignatureTop >= 1
    requires x1 <= x2
    ensures GetQuantizedBeat(x1, measureWidth, timeSignatureTop) <= GetQuantizedBeat(x2, measureWidth, timeSignatureTop)
  {
    var s := StepWidth(measureWidth, timeSignatureTop);
    DivideMonotone(x1, x2, s);
    assert (x1 / s + 0.5).Floor <= (x2 / s + 0.5).Floor;
  }

  lemma DivideMonotone(x1: real, x2: real, s: real)
    requires s > 0.0 && x1 <= x2
    ensures x1 / s <= x2 / s
  {
    var d := (x2 - x1) / s;
    assert d * s == x2 - x1;
    if d < 0.0 {
      PositiveProduct(-d, s);
      assert false;
    }
    assert x2 / s - x1 / s == d;
  }

  /** A pointer exactly `k` half-beat steps into the measure (a grid point,
      0 <= k < 2·top) snaps back to beat `k / 2`. */
  lemma GridPointRoundTrip(x: real, k: int, measureWidth: real, timeSignatureTop: int)
    requires measureWidth > 0.0 && timeSignatureTop >= 1
    requires 0 <= k < 2 * timeSignatureTop
    requires x / StepWidth(measureWidth, timeSignatureTop) == k as real
    ensures GetQuantizedBeat(x, measureWidth, timeSignatureTop) == k as real / 2.0
  {
    RoundOfInt(k);
    assert RawStep(x, measureWidth, timeSignatureTop) == k;
    assert Max(0, Min(k, timeSignatureTop * 2 - 1)) == k;
  }

  /** A pointer at or left of the measure's start gives beat 0. */
  lemma LeftEdgeIsFirstBeat(xInMeasure: real, measureWidth: real, timeSignatureTop: int)
    requires measureWidth > 0.0 && timeSignatureTop >= 1
    requires xInMeasure <= 0.0
    ensures GetQuantizedBeat(xInMeasure, measureWidth, timeSignatureTop) == 0.0
  {
    DivideMonotone(xInMeasure, 0.0, StepWidth(measureWidth, timeSignatureTop));
  }

  /** A pointer at or right of the measure's end gives the last half beat, never
      the barline. */
  lemma RightEdgeIsLastHalfBeat(xInMeasure: real, measureWidth: real, timeSignatureTop: int)
    requires measureWidth > 0.0 && timeSignatureTop >= 1
    requires xInMeasure >= measureWidth
    ensures GetQuantizedBeat(xInMeasure, measureWidth, timeSignatureTop) == timeSignatureTop as real - 0.5
  {
    var s := StepWidth(measureWidth, timeSignatureTop);
    var steps := (timeSignatureTop * 2) as real;
    assert measureWidth / s == steps;
    DivideMonotone(measureWidth, xInMeasure, s);
  }
}
