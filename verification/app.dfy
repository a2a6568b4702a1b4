/** The top-level session: the wave parameters and the measurement markers,
    with the pick, clear and reset handlers that change them. */
module App {
  import opened Types
  import Controls

  /** What the session owns. */
  datatype AppState = AppState(params: WaveParams, markers: seq<MeasurementPoint>)

  /** The parameters the lab starts with and returns to on reset. */
  const DefaultParams: WaveParams := WaveParams(1.0, 1.0, 2.0, true)

  /** The state when the page loads: default parameters, no markers. The
      defaults lie inside the slider ranges. */
  function Initial(): (r: AppState)
    ensures r.params.frequency == 1.0 && r.params.amplitude == 1.0
    ensures r.params.speed == 2.0 && r.params.isRunning
    ensures r.markers == []
    ensures Controls.ValidParams(r.params)
  {
    var r := AppState(DefaultParams, []);
    assert Controls.OnSlider(Controls.Frequency, 1.0);
    assert Controls.OnSlider(Controls.Amplitude, 1.0);
    assert Controls.OnSlider(Controls.Speed, 2.0);
    r
  }

  /** A pick on the scene. Fewer than two markers: the point is appended.
      Two or more: both are dropped and the point starts a fresh pair. */
  function Measure(s: AppState, point: MeasurementPoint): (r: AppState)
    ensures r.params == s.params
    ensures |s.markers| < 2 ==> r.markers == s.markers + [point]
    ensures |s.markers| >= 2 ==> r.markers == [point]
    ensures |r.markers| >= 1 && r.markers[|r.markers| - 1] == point
    ensures |s.markers| <= 2 ==> |r.markers| <= 2
  {
    if |s.markers| >= 2 then s.(markers := [point])
    else s.(markers := s.markers + [point])
  }

  /** The "Clear Markers" callback handed to the calculator. */
  function ClearMarkers(s: AppState): (r: AppState)
    ensures r.markers == []
    ensures r.params == s.params
  {
    s.(markers := [])
  }

  /** The reset button: default parameters and no markers, whatever the
      state before. */
  function Reset(s: AppState): (r: AppState)
    ensures r.params == DefaultParams
    ensures r.markers == []
    ensures r == Initial()
  {
    AppState(DefaultParams, [])
  }

  /** Resetting an already reset session changes nothing. */
  lemma ResetIdempotent(s: AppState)
    ensures Reset(Reset(s)) == Reset(s)
  {
  }

  /** The events that reach the session: a pick, the clear callback, the
      reset button, a slider move, and play/pause. */
  datatype Event =
    | Pick(point: MeasurementPoint)
    | Clear
    | ResetPressed
    | Slide(field: Controls.Field, value: real)
    | Toggle

  /** The effect of one event. */
  function Step(s: AppState, e: Event): AppState
  {
    match e
    case Pick(p) => Measure(s, p)
    case Clear => ClearMarkers(s)
    case ResetPressed => Reset(s)
    case Slide(f, v) => s.(params := Controls.HandleChange(s.params, f, v))
    case Toggle => s.(params := Controls.TogglePlay(s.params))
  }

  /** The effect of a sequence of events, first to last. */
  function Run(s: AppState, es: seq<Event>): AppState
    decreases |es|
  {
    if es == [] then s else Run(Step(s, es[0]), es[1..])
  }

  /** Under any sequence of events the session never holds more than two
      markers. */
  lemma {:induction false} MarkersBounded(s: AppState, es: seq<Event>)
    requires |s.markers| <= 2
    ensures |Run(s, es).markers| <= 2
    decreases |es|
  {
    if es != [] {
      var s' := Step(s, es[0]);
      assert |s'.markers| <= 2;
      MarkersBounded(s', es[1..]);
    }
  }

  /** Every slider event carries a value its slider can produce. */
  predicate SlidersInRange(es: seq<Event>)
  {
    forall i :: 0 <= i < |es| && es[i].Slide? ==> Controls.OnSlider(es[i].field, es[i].value)
  }

  /** Starting inside the slider ranges, any sequence of events whose slider
      values come from the sliders keeps every parameter in range, hence
      frequency and speed strictly positive. */
  lemma {:induction false} ParamsStayValid(s: AppState, es: seq<Event>)
    requires Controls.ValidParams(s.params)
    requires SlidersInRange(es)
    ensures Controls.ValidParams(Run(s, es).params)
    ensures Run(s, es).params.frequency > 0.0 && Run(s, es).params.speed > 0.0
    decreases |es|
  {
    if es == [] {
      Controls.ValidParamsPositive(s.params);
    } else {
      var s' := Step(s, es[0]);
      assert Controls.ValidParams(s'.params) by {
        match es[0]
        case Slide(f, v) =>
          assert Controls.OnSlider(f, v);
          Controls.SliderKeepsValid(s.params, f, v);
        case Toggle =>
          Controls.ToggleKeepsValid(s.params);
        case ResetPressed =>
          assert s'.params == Initial().params;
        case _ =>
      }
      assert SlidersInRange(es[1..]) by {
        forall i | 0 <= i < |es[1..]| && es[1..][i].Slide?
          ensures Controls.OnSlider(es[1..][i].field, es[1..][i].value)
        {
          assert es[1..][i] == es[i + 1];
        }
      }
      ParamsStayValid(s', es[1..]);
    }
  }

  /** Picks at x = 1, 3 and 5 from an empty session: one marker, then two,
      then only the pick at 5. */
  lemma PickTrace(s: AppState)
    requires s.markers == []
    ensures var a := MeasurementPoint(1.0, 0.0, 0.0);
            var b := MeasurementPoint(3.0, 0.0, 0.0);
            var c := MeasurementPoint(5.0, 0.0, 0.0);
            && |Measure(s, a).markers| == 1
            && Measure(Measure(s, a), b).markers == [a, b]
            && Measure(Measure(Measure(s, a), b), c).markers == [c]
            && Measure(Measure(Measure(s, a), b), c).params == s.params
  {
  }
}
