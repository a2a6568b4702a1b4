/** The per-frame update of the wave line: from the parameters and the
    render clock, 1000 points (x, y, 0) are written into the line's flat
    position buffer. The sine function is a parameter; only its range
    [-1, 1] is assumed of it. */
module WaveScene {
  import opened Types

  /** Number of points on the wave line. */
  const Count: nat := 1000

  /** Width of the drawn stretch of wave, in metres. */
  const Width: real := 20.0

  /** The double-precision value of pi used by the scene. */
  const Pi: real := 3.141592653589793

  /** The sine function never leaves [-1, 1]. */
  ghost predicate SinBounded(sin: real -> real)
  {
    forall u :: -1.0 <= sin(u) <= 1.0
  }

  /** The wavelength the scene draws with: the frequency is clamped from
      below at 0.1 Hz before dividing, so the divisor is never zero. */
  function SceneLambda(p: WaveParams): (r: real)
    ensures r * Max(0.1, p.frequency) == p.speed
    ensures p.speed > 0.0 ==> r > 0.0
    ensures p.speed != 0.0 ==> r != 0.0
  {
    p.speed / Max(0.1, p.frequency)
  }

  /** The angular wavenumber 2 pi / lambda: one wavelength spans a phase of
      2 pi. */
  function WaveNumber(p: WaveParams): (r: real)
    requires p.speed != 0.0
    ensures r * SceneLambda(p) == 2.0 * Pi
  {
    (2.0 * Pi) / SceneLambda(p)
  }

  /** The angular frequency 2 pi f (unclamped). */
  function AngularFrequency(p: WaveParams): (r: real)
    ensures p.frequency > 0.0 ==> r > 0.0
    ensures r / (2.0 * Pi) == p.frequency
  {
    2.0 * Pi * p.frequency
  }

  /** The time fed to the wave: the clock while running, and zero while
      paused, so a paused view shows the wave at phase zero. */
  function EffectiveTime(p: WaveParams, clock: real): (r: real)
    ensures p.isRunning ==> r == clock
    ensures !p.isRunning ==> r == 0.0
  {
    if p.isRunning then clock else 0.0
  }

  /** The x coordinate of point i: an equally spaced grid over [-10, 10). */
  function GridX(i: nat): (r: real)
    requires i < Count
    ensures -Width / 2.0 <= r < Width / 2.0
  {
    (i as real / Count as real) * Width - Width / 2.0
  }

  /** The grid starts at -10, has constant spacing 0.02 m, and is
      therefore strictly increasing. */
  lemma GridSpacing(i: nat, j: nat)
    requires i < j < Count
    ensures GridX(0) == -10.0
    ensures GridX(i + 1) - GridX(i) == 0.02
    ensures GridX(i) < GridX(j)
    ensures GridX(j) - GridX(i) == (j - i) as real * 0.02
  {
  }

  /** The phase k x_i - w t of point i at time t. */
  function Phase(p: WaveParams, t: real, i: nat): real
    requires p.speed != 0.0
    requires i < Count
  {
    WaveNumber(p) * GridX(i) - AngularFrequency(p) * t
  }

  /** The height of point i at time t. */
  function SampleY(p: WaveParams, t: real, sin: real -> real, i: nat): real
    requires p.speed != 0.0
    requires i < Count
  {
    p.amplitude * sin(Phase(p, t, i))
  }

  /** No point of the wave rises or falls further than the amplitude. */
  lemma SampleYBounded(p: WaveParams, t: real, sin: real -> real, i: nat)
    requires p.speed != 0.0
    requires i < Count
    requires SinBounded(sin)
    ensures Abs(SampleY(p, t, sin, i)) <= Abs(p.amplitude)
    ensures p.amplitude >= 0.0 ==> -p.amplitude <= SampleY(p, t, sin, i) <= p.amplitude
  {
    var s := sin(Phase(p, t, i));
    assert -1.0 <= s <= 1.0;
    ScaledBounded(p.amplitude, s);
  }

  /** Scaling a value of [-1, 1] by a stays within [-|a|, |a|]. */
  lemma ScaledBounded(a: real, s: real)
    requires -1.0 <= s <= 1.0
    ensures Abs(a * s) <= Abs(a)
  {
    var b := Abs(a);
    MulNonneg(b, 1.0 - s);
    MulNonneg(b, 1.0 + s);
    assert b * (1.0 - s) == b - b * s;
    assert b * (1.0 + s) == b + b * s;
    assert a * s == b * s || a * s == -(b * s);
  }

  /** The product of two non-negative reals is non-negative. */
  lemma MulNonneg(x: real, y: real)
    requires x >= 0.0 && y >= 0.0
    ensures x * y >= 0.0
  {
  }

  /** Point i of a buffer is the triple (x_i, y_i, 0). */
  predicate PointWritten(buf: seq<real>, p: WaveParams, t: real, sin: real -> real, i: nat)
    requires p.speed != 0.0
    requires i < Count
    requires |buf| == 3 * Count
  {
    && buf[3 * i] == GridX(i)
    && buf[3 * i + 1] == SampleY(p, t, sin, i)
    && buf[3 * i + 2] == 0.0
  }

  /** `buf` is the position buffer of a frame at time t: 1000 consecutive
      (x, y, z) triples with z = 0. */
  predicate IsFrame(buf: seq<real>, p: WaveParams, t: real, sin: real -> real)
    requires p.speed != 0.0
  {
    |buf| == 3 * Count && forall i: nat :: i < Count ==> PointWritten(buf, p, t, sin, i)
  }

  /** The layout leaves no slot unspecified: two buffers of the same frame
      are equal, whatever they held before. */
  lemma FrameUnique(a: seq<real>, b: seq<real>, p: WaveParams, t: real, sin: real -> real)
    requires p.speed != 0.0
    requires IsFrame(a, p, t, sin) && IsFrame(b, p, t, sin)
    ensures a == b
  {
    forall s | 0 <= s < 3 * Count
      ensures a[s] == b[s]
    {
      var i: nat := s / 3;
      assert PointWritten(a, p, t, sin, i) && PointWritten(b, p, t, sin, i);
      assert s == 3 * i || s == 3 * i + 1 || s == 3 * i + 2;
    }
  }

  /** One frame. `mesh` is the line's position buffer, absent while the line
      is not mounted, in which case nothing is written. Otherwise every one
      of the 3000 slots is overwritten: slot 3i with x_i, slot 3i+1 with
      the height y_i at the effective time, slot 3i+2 with 0. */
  method Frame(p: WaveParams, clock: real, sin: real -> real, mesh: Option<seq<real>>)
    returns (out: Option<seq<real>>)
    requires mesh.Some? ==> p.speed != 0.0 && |mesh.value| == 3 * Count
    ensures mesh.None? ==> out == None
    ensures mesh.Some? ==> out.Some? && IsFrame(out.value, p, EffectiveTime(p, clock), sin)
  {
    if mesh.None? {
      return None;
    }
    var wavelength := p.speed / Max(0.1, p.frequency);
    assert wavelength == SceneLambda(p);
    var k := (2.0 * Pi) / wavelength;
    assert k == WaveNumber(p);
    var w := 2.0 * Pi * p.frequency;
    assert w == AngularFrequency(p);
    var positions := mesh.value;
    var effectiveTime := if p.isRunning then clock else 0.0;
    var i: nat := 0;
    while i < Count
      invariant i <= Count
      invariant |positions| == 3 * Count
      invariant forall j: nat :: j < i ==> PointWritten(positions, p, effectiveTime, sin, j)
    {
      var x := (i as real / Count as real) * Width - Width / 2.0;
      assert x == GridX(i);
      var y := p.amplitude * sin(k * x - w * effectiveTime);
      assert k * x - w * effectiveTime == Phase(p, effectiveTime, i);
      assert y == SampleY(p, effectiveTime, sin, i);
      ghost var before := positions;
      positions := positions[i * 3 := x][i * 3 + 1 := y][i * 3 + 2 := 0.0];
      forall j: nat | j < i
        ensures PointWritten(positions, p, effectiveTime, sin, j)
      {
        assert PointWritten(before, p, effectiveTime, sin, j);
      }
      assert PointWritten(positions, p, effectiveTime, sin, i);
      i := i + 1;
    }
    return Some(positions);
  }

  /** While paused, the frame does not depend on the clock: a frame drawn
      at any clock value is the frame at time zero, and two paused frames
      are identical. */
  lemma PausedFrameIsPhaseZero(p: WaveParams, clock1: real, clock2: real, sin: real -> real,
                               a: seq<real>, b: seq<real>)
    requires p.speed != 0.0
    requires !p.isRunning
    requires IsFrame(a, p, EffectiveTime(p, clock1), sin)
    requires IsFrame(b, p, EffectiveTime(p, clock2), sin)
    ensures IsFrame(a, p, 0.0, sin)
    ensures a == b
  {
    FrameUnique(a, b, p, 0.0, sin);
  }

  /** The scene's clamped wavelength agrees with the notebook's unclamped
      v / f whenever the frequency is at least 0.1 Hz, as the frequency
      slider guarantees. */
  lemma SceneLambdaMatchesReference(p: WaveParams)
    requires p.frequency >= 0.1
    ensures SceneLambda(p) * p.frequency == p.speed
  {
    assert Max(0.1, p.frequency) == p.frequency;
  }
}
