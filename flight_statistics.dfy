// The flight-statistics store written to by the statistics computer: a record of
// append-only, time-keyed series.

module FlightStats {

  /** A (time, value) pair: terrain altitude, task speed, climb ceiling, climb base. */
  datatype TimedValue = TimedValue(time: real, value: real)

  /** Altitude sample, tagged with whether the aircraft was in final glide. */
  datatype AltitudeSample = AltitudeSample(time: real, altitude: real, finalGlide: bool)

  /** Climb-rate sample, tagged with whether the aircraft was circling. */
  datatype ClimbRateSample = ClimbRateSample(time: real, rate: real, circling: bool)

  /** Average lift of one thermal over the interval [tStart, tEnd] after takeoff. */
  datatype ThermalAverage = ThermalAverage(tStart: real, tEnd: real, liftRate: real)

  datatype FlightStatistics = FlightStatistics(
    altitudeTerrain: seq<TimedValue>,
    altitude: seq<AltitudeSample>,
    taskSpeed: seq<TimedValue>,
    climbRate: seq<ClimbRateSample>,
    thermalAverage: seq<ThermalAverage>,
    climbCeiling: seq<TimedValue>,
    climbBase: seq<TimedValue>)
  {
    /** Every series of `earlier` is a prefix of the same series here. */
    predicate Extends(earlier: FlightStatistics) {
      earlier.altitudeTerrain <= altitudeTerrain &&
      earlier.altitude <= altitude &&
      earlier.taskSpeed <= taskSpeed &&
      earlier.climbRate <= climbRate &&
      earlier.thermalAverage <= thermalAverage &&
      earlier.climbCeiling <= climbCeiling &&
      earlier.climbBase <= climbBase
    }

    /** Every climb ceiling is paired with a climb base. */
    predicate CeilingsPaired() {
      |climbCeiling| == |climbBase|
    }

    function AddAltitudeTerrain(t: real, terrain: real): (r: FlightStatistics) {
      this.(altitudeTerrain := altitudeTerrain + [TimedValue(t, terrain)])
    }

    function AddAltitude(t: real, alt: real, finalGlide: bool): (r: FlightStatistics) {
      this.(altitude := altitude + [AltitudeSample(t, alt, finalGlide)])
    }

    function AddTaskSpeed(t: real, speed: real): (r: FlightStatistics) {
      this.(taskSpeed := taskSpeed + [TimedValue(t, speed)])
    }

    function AddClimbRate(t: real, rate: real, circling: bool): (r: FlightStatistics) {
      this.(climbRate := climbRate + [ClimbRateSample(t, rate, circling)])
    }

    function AddThermalAverage(tStart: real, tEnd: real, lift: real): (r: FlightStatistics) {
      this.(thermalAverage := thermalAverage + [ThermalAverage(tStart, tEnd, lift)])
    }

    function AddClimbCeiling(t: real, alt: real): (r: FlightStatistics) {
      this.(climbCeiling := climbCeiling + [TimedValue(t, alt)])
    }

    function AddClimbBase(t: real, alt: real): (r: FlightStatistics) {
      this.(climbBase := climbBase + [TimedValue(t, alt)])
    }

    /** Task start: the task-specific series (task speed, thermal average) are cleared. */
    function StartTask(): (r: FlightStatistics) {
      this.(taskSpeed := [], thermalAverage := [])
    }
  }

  /** The store after a full reset: every series empty. */
  function Empty(): (r: FlightStatistics) {
    FlightStatistics([], [], [], [], [], [], [])
  }
}
