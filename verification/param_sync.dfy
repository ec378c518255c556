/** Keeping a slider and its numeric field in step: the slider holds an
    integer, the field that integer divided by a factor (10, or 50 for the
    contrast pair), each clamped to the other control's range. The field's
    `decimal` holds a slider position divided by 10 or 50 exactly, so it is a
    `real` here; with other factors (the functions below accept any positive
    one) a `decimal` quotient could be rounded, which the model does not do. */
module ParameterSync {
  import opened Numerics

  class TrackBar {
    var minimum: int
    var maximum: int
    var value: int

    ghost predicate Valid()
      reads this
    {
      minimum <= value <= maximum
    }

    constructor (minimum: int, maximum: int, value: int)
      requires minimum <= value <= maximum
      ensures Valid() && this.minimum == minimum && this.maximum == maximum && this.value == value
    {
      this.minimum, this.maximum, this.value := minimum, maximum, value;
    }
  }

  class NumericUpDown {
    var minimum: real
    var maximum: real
    var value: real

    ghost predicate Valid()
      reads this
    {
      minimum <= value <= maximum
    }

    constructor (minimum: real, maximum: real, value: real)
      requires minimum <= value <= maximum
      ensures Valid() && this.minimum == minimum && this.maximum == maximum && this.value == value
    {
      this.minimum, this.maximum, this.value := minimum, maximum, value;
    }
  }

  /** The field value for a slider position: `value / factor`, raised to the
      minimum and then lowered to the maximum. */
  function TrackToNumValue(trackValue: int, factor: int, min: real, max: real): (v: real)
    requires factor > 0
    ensures min <= max ==> min <= v <= max
    ensures min <= trackValue as real / factor as real <= max ==> v == trackValue as real / factor as real
    ensures trackValue as real / factor as real < min ==> v == (if min > max then max else min)
    ensures trackValue as real / factor as real > max ==> v == max
  {
    var val := trackValue as real / factor as real;
    var raised := if val < min then min else val;
    if raised > max then max else raised
  }

  /** The slider position for a field value: `(int)(value * factor)`,
      truncated toward zero, then clamped in the same way. */
  function NumToTrackValue(numValue: real, factor: int, min: int, max: int): (v: int)
    ensures min <= max ==> min <= v <= max
    ensures min <= TruncateToInt(numValue * factor as real) <= max ==> v == TruncateToInt(numValue * factor as real)
    ensures TruncateToInt(numValue * factor as real) < min ==> v == (if min > max then max else min)
    ensures TruncateToInt(numValue * factor as real) > max ==> v == max
  {
    var val := TruncateToInt(numValue * factor as real);
    var raised := if val < min then min else val;
    if raised > max then max else raised
  }

  /** Slider to field and back returns the slider's position whenever the
      field's range covers it. */
  lemma TrackRoundTrip(t: int, factor: int, numMin: real, numMax: real, trackMin: int, trackMax: int)
    requires factor > 0 && trackMin <= t <= trackMax
    requires numMin <= t as real / factor as real <= numMax
    ensures NumToTrackValue(TrackToNumValue(t, factor, numMin, numMax), factor, trackMin, trackMax) == t
  {
    var v := t as real / factor as real;
    assert v * factor as real == t as real;
    assert TruncateToInt(v * factor as real) == t;
  }

  lemma DivAtMost(a: real, b: real, f: real)
    requires f > 0.0 && a <= b * f
    ensures a / f <= b
  {
    assert a / f * f == a;
  }

  lemma DivStepAbove(a: real, b: real, f: real)
    requires f > 0.0 && b * f < a + 1.0
    ensures b < a / f + 1.0 / f
  {
    assert (a + 1.0) / f == a / f + 1.0 / f;
    assert (a + 1.0) / f * f == a + 1.0;
  }

  /** Field to slider and back lands on the nearest slider step at or below a
      non-negative field value, whenever both ranges cover it. */
  lemma NumRoundTrip(v: real, factor: int, numMin: real, numMax: real, trackMin: int, trackMax: int)
    requires factor > 0 && 0.0 <= v && numMin <= v <= numMax
    requires trackMin <= TruncateToInt(v * factor as real) <= trackMax
    requires numMin <= TruncateToInt(v * factor as real) as real / factor as real
    ensures var back := TrackToNumValue(NumToTrackValue(v, factor, trackMin, trackMax), factor, numMin, numMax);
      back <= v < back + 1.0 / factor as real
  {
    var f := factor as real;
    var t := TruncateToInt(v * f);
    assert 0.0 <= v * f;
    assert t as real <= v * f < t as real + 1.0;
    DivAtMost(t as real, v, f);
    DivStepAbove(t as real, v, f);
    var back := t as real / f;
    assert NumToTrackValue(v, factor, trackMin, trackMax) == t;
    assert numMin <= back <= numMax;
    assert TrackToNumValue(t, factor, numMin, numMax) == back;
  }

  /** The three pairs on the form (gamma 0..30 over 0.0..3.0, brightness 0..20
      over 0.0..2.0, contrast 40..60 over 0.8..1.2) round-trip every slider position. */
  lemma FormSlidersRoundTrip(t: int)
    ensures 0 <= t <= 30 ==> NumToTrackValue(TrackToNumValue(t, 10, 0.0, 3.0), 10, 0, 30) == t
    ensures 0 <= t <= 20 ==> NumToTrackValue(TrackToNumValue(t, 10, 0.0, 2.0), 10, 0, 20) == t
    ensures 40 <= t <= 60 ==> NumToTrackValue(TrackToNumValue(t, 50, 0.8, 1.2), 50, 40, 60) == t
  {
    if 0 <= t <= 30 { TrackRoundTrip(t, 10, 0.0, 3.0, 0, 30); }
    if 0 <= t <= 20 { TrackRoundTrip(t, 10, 0.0, 2.0, 0, 20); }
    if 40 <= t <= 60 { TrackRoundTrip(t, 50, 0.8, 1.2, 40, 60); }
  }
}
