/** The lab notebook: the reference wavelength, the distance between the two
    markers, and the grading of a typed wavelength guess. */
module Calculator {
  import opened Types

  /** The verdict shown under the guess. */
  datatype Feedback = Idle | Correct | Incorrect

  /** The notebook's own state: the guess as typed, and the verdict. */
  datatype CalcState = CalcState(userLambda: string, feedback: Feedback)

  /** The notebook when it is first shown: an empty guess and no verdict. */
  function InitialCalc(): (r: CalcState)
    ensures r.userLambda == [] && r.feedback == Idle
  {
    CalcState("", Idle)
  }

  /** The reference wavelength v / f, with no clamping of the frequency.
      It is the length that, multiplied by the frequency, gives the speed. */
  function ActualLambda(p: WaveParams): (r: real)
    requires p.frequency != 0.0
    ensures r * p.frequency == p.speed
    ensures p.speed > 0.0 && p.frequency > 0.0 ==> r > 0.0
  {
    p.speed / p.frequency
  }

  /** The horizontal separation of the markers when exactly two are held,
      zero otherwise. */
  function MeasuredDistance(markers: seq<MeasurementPoint>): (r: real)
    ensures r >= 0.0
    ensures |markers| != 2 ==> r == 0.0
    ensures |markers| == 2 ==>
              r == markers[1].x - markers[0].x || r == markers[0].x - markers[1].x
  {
    if |markers| == 2 then Abs(markers[1].x - markers[0].x) else 0.0
  }

  /** The distance does not depend on which marker was picked first. */
  lemma MeasuredDistanceSymmetric(a: MeasurementPoint, b: MeasurementPoint)
    ensures MeasuredDistance([a, b]) == MeasuredDistance([b, a])
  {
  }

  /** The distance depends only on the x coordinates. */
  lemma MeasuredDistanceIgnoresYZ(a: MeasurementPoint, b: MeasurementPoint, a': MeasurementPoint, b': MeasurementPoint)
    requires a.x == a'.x && b.x == b'.x
    ensures MeasuredDistance([a, b]) == MeasuredDistance([a', b'])
  {
  }

  /** The verdict for a parsed guess: correct when it differs from the
      reference by strictly less than five percent of the reference. */
  function Grade(guess: real, wavelength: real): (r: Feedback)
    ensures r != Idle
    ensures wavelength > 0.0 ==>
              (r == Correct <==> wavelength * 0.95 < guess < wavelength * 1.05)
    ensures wavelength <= 0.0 ==> r == Incorrect
  {
    var margin := wavelength * 0.05;
    if Abs(guess - wavelength) < margin then Correct else Incorrect
  }

  /** The tolerance is strict: a guess exactly five percent off, on either
      side, is graded incorrect, while anything strictly inside is correct. */
  lemma GradeBoundary(wavelength: real, d: real)
    requires wavelength > 0.0
    ensures Grade(wavelength * 1.05, wavelength) == Incorrect
    ensures Grade(wavelength * 0.95, wavelength) == Incorrect
    ensures 0.0 <= d < wavelength * 0.05 ==> Grade(wavelength + d, wavelength) == Correct
    ensures 0.0 <= d < wavelength * 0.05 ==> Grade(wavelength - d, wavelength) == Correct
  {
  }

  /** The "Check" button. `parse` stands for the browser's number parser on
      the typed text; `None` is its NaN. A guess that does not parse changes
      nothing; one that does replaces the verdict, computed against the
      current parameters, and leaves the typed text alone. */
  function CheckAnswer(c: CalcState, p: WaveParams, parse: string -> Option<real>): (r: CalcState)
    requires p.frequency != 0.0
    ensures parse(c.userLambda).None? ==> r == c
    ensures parse(c.userLambda).Some? ==>
              && r.userLambda == c.userLambda
              && r.feedback != Idle
              && r.feedback == Grade(parse(c.userLambda).value, ActualLambda(p))
  {
    match parse(c.userLambda)
    case None => c
    case Some(v) => c.(feedback := Grade(v, ActualLambda(p)))
  }

  /** Typing in the guess field: the text is replaced and any verdict is
      withdrawn. */
  function EditGuess(c: CalcState, text: string): (r: CalcState)
    ensures r.userLambda == text
    ensures r.feedback == Idle
  {
    CalcState(text, Idle)
  }

  /** After an edit, checking the same text again yields the same verdict as
      checking it fresh: no verdict survives an edit. */
  lemma EditThenCheck(c: CalcState, text: string, p: WaveParams, parse: string -> Option<real>)
    requires p.frequency != 0.0
    ensures CheckAnswer(EditGuess(c, text), p, parse) == CheckAnswer(CalcState(text, Idle), p, parse)
    ensures parse(text).None? ==> CheckAnswer(EditGuess(c, text), p, parse).feedback == Idle
  {
  }

  /** With f = 1 Hz and v = 2 m/s the wavelength is 2 m: "2.05" is correct,
      "1.5" is incorrect, and "abc" leaves the verdict as it was. */
  lemma GradeExample(c: CalcState, parse: string -> Option<real>)
    requires parse("2.05") == Some(2.05) && parse("1.5") == Some(1.5)
    requires parse("abc") == None
    ensures var p := WaveParams(1.0, 1.0, 2.0, true);
            && ActualLambda(p) == 2.0
            && CheckAnswer(EditGuess(c, "2.05"), p, parse).feedback == Correct
            && CheckAnswer(EditGuess(c, "1.5"), p, parse).feedback == Incorrect
            && CheckAnswer(c.(userLambda := "abc"), p, parse) == c.(userLambda := "abc")
  {
  }

  /** A fresh notebook shows no verdict until a guess that parses is
      checked: checking the empty field, or an unparseable text typed into
      it, keeps the verdict idle, while a parsed guess always gets one. */
  lemma {:induction false} FreshNotebookCheck(text: string, p: WaveParams, parse: string -> Option<real>)
    requires p.frequency != 0.0
    ensures CheckAnswer(InitialCalc(), p, parse).feedback == Idle <==> parse([]).None?
    ensures parse(text).None? ==> CheckAnswer(EditGuess(InitialCalc(), text), p, parse).feedback == Idle
    ensures parse(text).Some? ==> CheckAnswer(EditGuess(InitialCalc(), text), p, parse).feedback != Idle
  {
  }
}
