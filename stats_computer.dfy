// StatsComputer: filters incoming fixes (missing location, positional jump),
// gates what is appended to the flight statistics, and turns the circling
// detector's "last thermal" record into one thermal-departed event per thermal.
//
// The pure functions below (LogFix, ClimbEvents, ResetFlightState, ...) state what
// one call does to the computer's state; the class StatsComputer does the same
// step by step on its fields and is proved against them.

module Computer {
  import opened Wrappers
  import opened Geo
  import opened TimeStamps
  import opened CirclingInfo
  import opened FlightStats

  /** The largest plausible distance between two consecutive fixes. */
  const MaxFixDistance: real := 200.0

  /** State of the statistics logging clock (PeriodicClock). */
  datatype PeriodicClock = PeriodicClock(last: Stamp)

  /**
   * PeriodicClock::CheckAdvance(now, PERIOD), which is not part of this model:
   * whether the clock advanced, and the clock afterwards.
   */
  type ClockAdvance = (PeriodicClock, real) -> (bool, PeriodicClock)

  /** The part of a fix (MoreData) the statistics computer reads. */
  datatype MoreData = MoreData(
    location: Option<GeoPoint>,   // None: location not available
    time: real,
    navAltitude: Option<real>)    // None: navigation altitude not available

  /** A completed climb as recorded by the circling detector. */
  datatype OneClimbInfo = OneClimbInfo(
    startTime: real,
    endTime: real,
    startAltitude: real,
    gain: real,
    liftRate: real)

  /** The part of the derived flight data (DerivedInfo) the statistics computer reads. */
  datatype DerivedInfo = DerivedInfo(
    flying: bool,
    flightTime: real,
    takeoffTime: real,
    terrainAltitude: real,
    average: real,
    turnMode: CirclingMode,
    finalGlide: bool,
    taskValid: bool,
    instSpeedSlow: real,
    climbStartTime: Stamp,
    cruiseStartTime: Stamp,
    lastThermal: Option<OneClimbInfo>)   // None: last thermal not defined

  /** The fields of StatsComputer. */
  datatype StatsState = StatsState(
    lastLocation: Option<GeoPoint>,
    lastClimbStartTime: Stamp,
    lastCruiseStartTime: Stamp,
    lastThermalEndTime: Stamp,
    flightstats: FlightStatistics,
    statsClock: PeriodicClock)

  /** Outcome of logging one fix: whether it was valid, and the state afterwards. */
  datatype Logged = Logged(valid: bool, next: StatsState)

  /** The fix is more than MaxFixDistance away from a known previous location. */
  predicate LocationJump(lastLocation: Option<GeoPoint>, basic: MoreData, distance: DistanceFn)
  {
    basic.location.Some? && lastLocation.Some? &&
    distance(basic.location.value, lastLocation.value) > MaxFixDistance
  }

  /** The samples appended when the logging clock advances on a valid fix in flight. */
  function PeriodicSamples(stats: FlightStatistics, basic: MoreData, calculated: DerivedInfo): (r: FlightStatistics)
  {
    var t := calculated.flightTime;
    var withTerrain := stats.AddAltitudeTerrain(t, calculated.terrainAltitude);
    var withAltitude :=
      if basic.navAltitude.Some?
      then withTerrain.AddAltitude(t, basic.navAltitude.value, calculated.finalGlide)
      else withTerrain;
    if calculated.taskValid && calculated.instSpeedSlow >= 0.0
    then withAltitude.AddTaskSpeed(t, calculated.instSpeedSlow)
    else withAltitude
  }

  /**
   * DoLogging on a state: reject a fix without location or one that jumps from the
   * previous location, always move the jump baseline, and append the statistics of
   * a valid fix.
   */
  function LogFix(s: StatsState, basic: MoreData, calculated: DerivedInfo,
                  distance: DistanceFn, checkAdvance: ClockAdvance): (r: Logged)
    // the jump baseline always becomes the fix's own location, even for a rejected fix
    ensures r.next.lastLocation == basic.location
    // valid exactly when a location is available and it is no jump from the previous one
    ensures r.valid <==>
              basic.location.Some? &&
              !(s.lastLocation.Some? && distance(basic.location.value, s.lastLocation.value) > MaxFixDistance)
    ensures r.next.lastClimbStartTime == s.lastClimbStartTime
    ensures r.next.lastCruiseStartTime == s.lastCruiseStartTime
    ensures r.next.lastThermalEndTime == s.lastThermalEndTime
    // a rejected fix, or a fix while not flying, logs nothing and leaves the clock alone
    ensures !r.valid || !calculated.flying ==>
              r.next.flightstats == s.flightstats && r.next.statsClock == s.statsClock
    ensures r.next.flightstats.Extends(s.flightstats)
    ensures r.next.flightstats.thermalAverage == s.flightstats.thermalAverage
    ensures r.next.flightstats.climbCeiling == s.flightstats.climbCeiling
    ensures r.next.flightstats.climbBase == s.flightstats.climbBase
    // a valid fix in flight adds exactly one climb-rate sample, circling iff in CLIMB mode
    ensures r.valid && calculated.flying ==>
              r.next.flightstats.climbRate ==
                s.flightstats.climbRate
                + [ClimbRateSample(calculated.flightTime, calculated.average, calculated.turnMode == Climb)]
    ensures r.valid && calculated.flying ==> r.next.statsClock == checkAdvance(s.statsClock, basic.time).1
    // periodic series: only when valid, flying and the clock advanced, each with its own guard
    ensures var periodic := r.valid && calculated.flying && checkAdvance(s.statsClock, basic.time).0;
            var t := calculated.flightTime;
            && r.next.flightstats.altitudeTerrain ==
                 (if periodic then s.flightstats.altitudeTerrain + [TimedValue(t, calculated.terrainAltitude)]
                  else s.flightstats.altitudeTerrain)
            && r.next.flightstats.altitude ==
                 (if periodic && basic.navAltitude.Some?
                  then s.flightstats.altitude + [AltitudeSample(t, basic.navAltitude.value, calculated.finalGlide)]
                  else s.flightstats.altitude)
            && r.next.flightstats.taskSpeed ==
                 (if periodic && calculated.taskValid && calculated.instSpeedSlow >= 0.0
                  then s.flightstats.taskSpeed + [TimedValue(t, calculated.instSpeedSlow)]
                  else s.flightstats.taskSpeed)
  {
    var jump := LocationJump(s.lastLocation, basic, distance);
    var moved := s.(lastLocation := basic.location);
    if jump || basic.location.None? then
      Logged(false, moved)
    else if !calculated.flying then
      Logged(true, moved)
    else
      var (advanced, clock) := checkAdvance(s.statsClock, basic.time);
      var sampled := if advanced then PeriodicSamples(s.flightstats, basic, calculated) else s.flightstats;
      var stats := sampled.AddClimbRate(calculated.flightTime, calculated.average, calculated.turnMode == Climb);
      Logged(true, moved.(flightstats := stats, statsClock := clock))
  }

  /** The thermal-average entry of the last thermal: start and end measured from takeoff, and its lift. */
  function ThermalAverageOf(calculated: DerivedInfo): (r: ThermalAverage)
    requires calculated.lastThermal.Some?
  {
    var th := calculated.lastThermal.value;
    ThermalAverage(th.startTime - calculated.takeoffTime, th.endTime - calculated.takeoffTime, th.liftRate)
  }

  /** The climb ceiling of the last thermal: the altitude reached, at its end time from takeoff. */
  function CeilingOf(calculated: DerivedInfo): (r: TimedValue)
    requires calculated.lastThermal.Some?
  {
    var th := calculated.lastThermal.value;
    TimedValue(th.endTime - calculated.takeoffTime, th.gain + th.startAltitude)
  }

  /** The climb base of the last thermal: its start altitude, at its start time from takeoff. */
  function BaseOf(calculated: DerivedInfo): (r: TimedValue)
    requires calculated.lastThermal.Some?
  {
    var th := calculated.lastThermal.value;
    TimedValue(th.startTime - calculated.takeoffTime, th.startAltitude)
  }

  /**
   * OnDepartedThermal on the statistics: the thermal's average lift is always
   * recorded; ceiling and base only for a climb that gained height.
   */
  function DepartedThermal(stats: FlightStatistics, calculated: DerivedInfo): (r: FlightStatistics)
    requires calculated.lastThermal.Some?
    ensures var th := calculated.lastThermal.value;
            var tStart := th.startTime - calculated.takeoffTime;
            var tEnd := th.endTime - calculated.takeoffTime;
            && r.thermalAverage == stats.thermalAverage + [ThermalAverage(tStart, tEnd, th.liftRate)]
            && (th.gain <= 0.0 ==> r.climbCeiling == stats.climbCeiling && r.climbBase == stats.climbBase)
            && (th.gain > 0.0 ==>
                  r.climbCeiling == stats.climbCeiling + [TimedValue(tEnd, th.startAltitude + th.gain)] &&
                  r.climbBase == stats.climbBase + [TimedValue(tStart, th.startAltitude)] &&
                  // the ceiling lies above the base
                  r.climbCeiling[|r.climbCeiling| - 1].value > r.climbBase[|r.climbBase| - 1].value)
    ensures r.Extends(stats)
    ensures r.CeilingsPaired() <==> stats.CeilingsPaired()
    ensures r.(thermalAverage := stats.thermalAverage, climbCeiling := stats.climbCeiling,
               climbBase := stats.climbBase) == stats
  {
    var average, ceiling, base := ThermalAverageOf(calculated), CeilingOf(calculated), BaseOf(calculated);
    var averaged := stats.AddThermalAverage(average.tStart, average.tEnd, average.liftRate);
    if calculated.lastThermal.value.gain <= 0.0 then
      averaged
    else
      averaged.AddClimbCeiling(ceiling.time, ceiling.value).AddClimbBase(base.time, base.value)
  }

  /** A new thermal has been completed since the stored end time. */
  predicate ThermalDeparted(lastThermalEndTime: Stamp, calculated: DerivedInfo)
  {
    calculated.lastThermal.Some? &&
    (!lastThermalEndTime.IsDefined() || calculated.lastThermal.value.endTime > lastThermalEndTime.seconds)
  }

  /** The end time of the last thermal, or Undefined when there is none. */
  function ThermalEndStamp(calculated: DerivedInfo): (r: Stamp)
  {
    if calculated.lastThermal.Some? then At(calculated.lastThermal.value.endTime) else Undefined
  }

  /**
   * ProcessClimbEvents on a state: handle a newly departed thermal, then store the
   * incoming climb-start, cruise-start and thermal-end times.
   */
  function ClimbEvents(s: StatsState, calculated: DerivedInfo): (r: StatsState)
    ensures r.lastClimbStartTime == calculated.climbStartTime
    ensures r.lastCruiseStartTime == calculated.cruiseStartTime
    ensures r.lastThermalEndTime == (if calculated.lastThermal.Some? then At(calculated.lastThermal.value.endTime)
                                     else Undefined)
    ensures r.lastLocation == s.lastLocation && r.statsClock == s.statsClock
    ensures r.flightstats == if ThermalDeparted(s.lastThermalEndTime, calculated)
                             then DepartedThermal(s.flightstats, calculated)
                             else s.flightstats
    // nothing happens without a defined last thermal
    ensures calculated.lastThermal.None? ==> r.flightstats == s.flightstats
    ensures r.flightstats.Extends(s.flightstats)
  {
    var stats := if ThermalDeparted(s.lastThermalEndTime, calculated)
                 then DepartedThermal(s.flightstats, calculated)
                 else s.flightstats;
    StatsState(s.lastLocation, calculated.climbStartTime, calculated.cruiseStartTime,
               ThermalEndStamp(calculated), stats, s.statsClock)
  }

  /** ResetFlight on a state: forget baseline and timestamps; clear statistics on a full reset. */
  function ResetFlightState(s: StatsState, full: bool): (r: StatsState)
    ensures r.lastLocation == None
    ensures r.lastClimbStartTime == Undefined && r.lastCruiseStartTime == Undefined
    ensures r.lastThermalEndTime == Undefined
    ensures full ==> r.flightstats == Empty()
    ensures !full ==> r.flightstats == s.flightstats
    ensures r.statsClock == s.statsClock
  {
    StatsState(None, Undefined, Undefined, Undefined,
               if full then Empty() else s.flightstats, s.statsClock)
  }

  /** StartTask on a state: only the task-specific statistics are cleared. */
  function StartTaskState(s: StatsState): (r: StatsState)
    ensures r.flightstats.taskSpeed == [] && r.flightstats.thermalAverage == []
    ensures r.flightstats.(taskSpeed := s.flightstats.taskSpeed,
                           thermalAverage := s.flightstats.thermalAverage) == s.flightstats
    ensures r.(flightstats := s.flightstats) == s
  {
    s.(flightstats := s.flightstats.StartTask())
  }

  /** Computes flight statistics from the stream of fixes. */
  class StatsComputer {
    var lastLocation: Option<GeoPoint>
    var lastClimbStartTime: Stamp
    var lastCruiseStartTime: Stamp
    var lastThermalEndTime: Stamp
    var flightstats: FlightStatistics
    var statsClock: PeriodicClock

    function State(): (r: StatsState)
      reads this
    {
      StatsState(lastLocation, lastClimbStartTime, lastCruiseStartTime, lastThermalEndTime,
                 flightstats, statsClock)
    }

    /** A computer with no history and empty statistics. */
    constructor ()
      ensures State() == StatsState(None, Undefined, Undefined, Undefined, Empty(), PeriodicClock(Undefined))
    {
      lastLocation := None;
      lastClimbStartTime := Undefined;
      lastCruiseStartTime := Undefined;
      lastThermalEndTime := Undefined;
      flightstats := Empty();
      statsClock := PeriodicClock(Undefined);
    }

    method ResetFlight(full: bool)
      modifies this
      ensures State() == ResetFlightState(old(State()), full)
    {
      lastLocation := None;
      lastClimbStartTime := Undefined;
      lastCruiseStartTime := Undefined;
      lastThermalEndTime := Undefined;
      if full {
        flightstats := Empty();
      }
    }

    method StartTask()
      modifies this
      ensures State() == StartTaskState(old(State()))
    {
      flightstats := flightstats.StartTask();
    }

    /** Logs a fix for the statistics; returns whether the fix is valid. */
    method DoLogging(basic: MoreData, calculated: DerivedInfo,
                     distance: DistanceFn, checkAdvance: ClockAdvance) returns (valid: bool)
      modifies this
      ensures Logged(valid, State()) == LogFix(old(State()), basic, calculated, distance, checkAdvance)
      ensures lastLocation == basic.location
      ensures !valid ==> flightstats == old(flightstats)
    {
      var locationJump := LocationJump(lastLocation, basic, distance);

      lastLocation := basic.location;

      if locationJump || basic.location.None? {
        // a bad fix is neither logged nor handed on
        return false;
      }

      if calculated.flying {
        var (advanced, clock) := checkAdvance(statsClock, basic.time);
        statsClock := clock;
        if advanced {
          flightstats := flightstats.AddAltitudeTerrain(calculated.flightTime, calculated.terrainAltitude);

          if basic.navAltitude.Some? {
            flightstats := flightstats.AddAltitude(calculated.flightTime, basic.navAltitude.value,
                                                   calculated.finalGlide);
          }

          if calculated.taskValid && calculated.instSpeedSlow >= 0.0 {
            flightstats := flightstats.AddTaskSpeed(calculated.flightTime, calculated.instSpeedSlow);
          }
        }
      }

      if calculated.flying {
        flightstats := flightstats.AddClimbRate(calculated.flightTime, calculated.average,
                                                calculated.turnMode == Climb);
      }

      return true;
    }

    /** Records the statistics of the thermal just left. */
    method OnDepartedThermal(calculated: DerivedInfo)
      requires calculated.lastThermal.Some?
      modifies this
      ensures flightstats == DepartedThermal(old(flightstats), calculated)
      ensures State().(flightstats := old(flightstats)) == old(State())
    {
      var th := calculated.lastThermal.value;
      var tStart := th.startTime - calculated.takeoffTime;
      var tEnd := th.endTime - calculated.takeoffTime;

      flightstats := flightstats.AddThermalAverage(tStart, tEnd, th.liftRate);

      // a failed climb has no ceiling or base
      if th.gain <= 0.0 {
        return;
      }

      flightstats := flightstats.AddClimbCeiling(tEnd, th.gain + th.startAltitude);
      flightstats := flightstats.AddClimbBase(tStart, th.startAltitude);
    }

    method ProcessClimbEvents(calculated: DerivedInfo)
      modifies this
      ensures State() == ClimbEvents(old(State()), calculated)
    {
      if ThermalDeparted(lastThermalEndTime, calculated) {
        OnDepartedThermal(calculated);
      }

      lastClimbStartTime := calculated.climbStartTime;
      lastCruiseStartTime := calculated.cruiseStartTime;
      lastThermalEndTime := ThermalEndStamp(calculated);
    }
  }
}
