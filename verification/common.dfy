/** Shared vocabulary of the lidar pipeline: failure-compatible wrappers,
    the error taxonomy and the per-sweep record. */
module Common {

  /** A value that may be absent, like a dictionary key that was never set. */
  datatype Option<+T> = None | Some(value: T)

  /** Success or the error that aborted the computation (the source raises
      an AssertionError or an IndexError at that point). */
  datatype Result<+T> = Ok(value: T) | Err(error: Error) {
    predicate IsFailure() {
      Err?
    }

    function PropagateFailure<U>(): Result<U>
      requires Err?
    {
      Err(error)
    }

    function Extract(): T
      requires Ok?
    {
      value
    }
  }

  /** The input constraint a measurement stream violated. */
  datatype Violation =
    | LengthMismatch    // angles and distances differ in length
    | EmptyArray        // no samples at all
    | NegativeDistance  // some distance is below zero
    | AngleOutOfRange   // some angle lies outside [0, 360]

  /** Which argument of the unit lookup was not a known unit. */
  datatype UnitRole = InputUnit | OutputUnit

  datatype Error =
    | ValidationError(violation: Violation)
    | InvalidUnit(role: UnitRole, unit: string)
    | LookupError(index: int)

  /** A drone position in the plane. */
  type Point = (real, real)

  /** Sweep identifiers are parsed with an unsigned 8-bit dtype. */
  type UInt8 = x: int | 0 <= x < 256

  /** One sweep: its samples, and the identifier and drone position the
      flight-path join attaches later (absent until then). */
  datatype SweepRecord = SweepRecord(
    angles: seq<real>,     // degrees, as measured
    distances: seq<real>,  // metres
    sweepId: Option<int>,
    coordinates: Option<Point>)
}
