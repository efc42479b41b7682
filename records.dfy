/**
 * The live "state vector" record the query pipeline works on, and the
 * Python truthiness tests the filters apply to its fields.
 */
module Records {

  datatype Option<T> = None | Some(value: T)

  /**
   * One aircraft observation from the live-state source. Only the
   * positions the pipeline reads are kept; each may be `None`.
   *   position 1  callsign
   *   position 2  origin country
   *   position 3  time of the last position report (Unix seconds)
   *   position 7  barometric altitude
   *   position 9  velocity
   *   position 10 heading (true track, degrees)
   */
  datatype StateVector = StateVector(
    callsign: Option<string>,
    originCountry: Option<string>,
    timePosition: Option<int>,
    altitude: Option<real>,
    velocity: Option<real>,
    heading: Option<real>)

  /** A Python value held in one slot of a positional row built by the pipeline. */
  datatype PyValue = PyNone | PyStr(s: string) | PyNum(x: real)

  /** Python truthiness of an optional number: present and non-zero. */
  predicate TruthyNumber(x: Option<real>) {
    x.Some? && x.value != 0.0
  }

  /** Python truthiness of an optional integer timestamp. */
  predicate TruthyTime(x: Option<int>) {
    x.Some? && x.value != 0
  }

  /** Python truthiness of an optional string: present and non-empty. */
  predicate TruthyText(x: Option<string>) {
    x.Some? && x.value != ""
  }
}
