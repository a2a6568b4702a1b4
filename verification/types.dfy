/** The records shared by every component of the wave lab: the simulation
    parameters, a picked point in the scene, and a chat message. */
module Types {

  /** A value that may be absent: a missing response text, a number that
      did not parse, a mesh that is not mounted yet. */
  datatype Option<+T> = None | Some(value: T)

  /** The held value, or `default` when there is none. */
  function GetOr<T>(o: Option<T>, default: T): (r: T)
    ensures o.Some? ==> r == o.value
    ensures o.None? ==> r == default
  {
    match o
    case Some(v) => v
    case None => default
  }

  /** The parameters of the travelling wave: frequency in hertz, amplitude in
      metres, propagation speed in metres per second, and whether the
      animation is running. */
  datatype WaveParams = WaveParams(
    frequency: real,
    amplitude: real,
    speed: real,
    isRunning: bool)

  /** A point picked on the scene's measuring plane, in scene metres. */
  datatype MeasurementPoint = MeasurementPoint(x: real, y: real, z: real)

  /** Who wrote a chat message. */
  datatype Role = User | Model

  /** One entry of the assistant's chat log. */
  datatype ChatMessage = ChatMessage(role: Role, text: string)

  /** Absolute value on reals. */
  function Abs(x: real): (r: real)
    ensures r >= 0.0
    ensures r == x || r == -x
  {
    if x < 0.0 then -x else x
  }

  /** The larger of two reals. */
  function Max(a: real, b: real): (r: real)
    ensures r >= a && r >= b
    ensures r == a || r == b
  {
    if a >= b then a else b
  }
}
