/** The wave generator panel: three sliders that each overwrite one numeric
    parameter, and a play/pause button that flips `isRunning`. */
module Controls {
  import opened Types

  /** The numeric parameters a slider can set. */
  datatype Field = Frequency | Amplitude | Speed

  /** The value of one numeric parameter. */
  function Get(p: WaveParams, f: Field): real
  {
    match f
    case Frequency => p.frequency
    case Amplitude => p.amplitude
    case Speed => p.speed
  }

  /** A slider's change handler: field `f` takes value `v`, nothing else
      changes. */
  function HandleChange(p: WaveParams, f: Field, v: real): (r: WaveParams)
    ensures Get(r, f) == v
    ensures forall g: Field :: g != f ==> Get(r, g) == Get(p, g)
    ensures r.isRunning == p.isRunning
  {
    match f
    case Frequency => p.(frequency := v)
    case Amplitude => p.(amplitude := v)
    case Speed => p.(speed := v)
  }

  /** Writing a field back to its old value undoes a change. */
  lemma HandleChangeUndo(p: WaveParams, f: Field, v: real)
    ensures HandleChange(HandleChange(p, f, v), f, Get(p, f)) == p
  {
  }

  /** The play/pause button. */
  function TogglePlay(p: WaveParams): (r: WaveParams)
    ensures r.isRunning == !p.isRunning
    ensures forall g: Field :: Get(r, g) == Get(p, g)
  {
    p.(isRunning := !p.isRunning)
  }

  /** Pressing play/pause twice leaves the parameters as they were. */
  lemma TogglePlayTwice(p: WaveParams)
    ensures TogglePlay(TogglePlay(p)) == p
  {
  }

  /** The bounds and granularity of an HTML range input. */
  datatype Range = Range(min: real, max: real, step: real)

  /** The slider bounds of each field. Every range starts above zero, is
      non-empty, and its maximum is a whole number of steps above its
      minimum, so the maximum itself can be selected. */
  function SliderRange(f: Field): (r: Range)
    ensures 0.0 < r.min < r.max
    ensures r.step > 0.0
    ensures ((r.max - r.min) / r.step).Floor as real == (r.max - r.min) / r.step
  {
    match f
    case Frequency => Range(0.1, 5.0, 0.1)
    case Amplitude => Range(0.1, 3.0, 0.1)
    case Speed => Range(1.0, 10.0, 0.5)
  }

  /** A slider can deliver `v` for field `f`. */
  predicate OnSlider(f: Field, v: real)
  {
    SliderRange(f).min <= v <= SliderRange(f).max
  }

  /** Every numeric parameter lies within its slider's range. */
  predicate ValidParams(p: WaveParams)
  {
    forall g: Field :: OnSlider(g, Get(p, g))
  }

  /** Parameters within the slider ranges keep frequency and speed strictly
      positive, so both wavelength formulas are defined. */
  lemma ValidParamsPositive(p: WaveParams)
    requires ValidParams(p)
    ensures p.frequency >= 0.1 && p.speed >= 1.0
    ensures p.frequency > 0.0 && p.speed > 0.0 && p.amplitude > 0.0
  {
    assert OnSlider(Frequency, Get(p, Frequency));
    assert OnSlider(Amplitude, Get(p, Amplitude));
    assert OnSlider(Speed, Get(p, Speed));
  }

  /** Play/pause keeps the parameters valid. */
  lemma ToggleKeepsValid(p: WaveParams)
    requires ValidParams(p)
    ensures ValidParams(TogglePlay(p))
  {
  }

  /** A slider update with a value from that slider's range keeps the
      parameters valid. */
  lemma SliderKeepsValid(p: WaveParams, f: Field, v: real)
    requires ValidParams(p)
    requires OnSlider(f, v)
    ensures ValidParams(HandleChange(p, f, v))
  {
    var r := HandleChange(p, f, v);
    forall g: Field
      ensures OnSlider(g, Get(r, g))
    {
      if g != f {
        assert Get(r, g) == Get(p, g);
        assert OnSlider(g, Get(p, g));
      }
    }
  }
}
