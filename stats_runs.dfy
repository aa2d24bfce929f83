// Properties of the statistics computer over whole sequences of calls: logging and
// climb events only ever append to the statistics, periodic samples never outnumber
// climb-rate samples, and a completed thermal is recorded at most once.

module ComputerRuns {
  import opened Wrappers
  import opened Geo
  import opened TimeStamps
  import opened FlightStats
  import opened Computer

  /** One fix as handed to DoLogging. */
  datatype FixInput = FixInput(basic: MoreData, calculated: DerivedInfo)

  /** The state after DoLogging has been called on each fix in turn. */
  function LogRun(s: StatsState, fixes: seq<FixInput>, distance: DistanceFn, checkAdvance: ClockAdvance): (r: StatsState)
    decreases |fixes|
  {
    if fixes == [] then s
    else LogRun(LogFix(s, fixes[0].basic, fixes[0].calculated, distance, checkAdvance).next,
                fixes[1..], distance, checkAdvance)
  }

  /** Logging a run of fixes only appends to the statistics; the baseline is the last fix's location. */
  lemma {:induction false} LogRunAppendOnly(s: StatsState, fixes: seq<FixInput>,
                                            distance: DistanceFn, checkAdvance: ClockAdvance)
    ensures LogRun(s, fixes, distance, checkAdvance).flightstats.Extends(s.flightstats)
    ensures fixes != [] ==> LogRun(s, fixes, distance, checkAdvance).lastLocation == fixes[|fixes| - 1].basic.location
    ensures fixes == [] ==> LogRun(s, fixes, distance, checkAdvance).lastLocation == s.lastLocation
    decreases |fixes|
  {
    if fixes != [] {
      var next := LogFix(s, fixes[0].basic, fixes[0].calculated, distance, checkAdvance).next;
      LogRunAppendOnly(next, fixes[1..], distance, checkAdvance);
    }
  }

  /**
   * Over any run of fixes: altitude and task-speed samples never outnumber the
   * altitude-terrain samples taken with them, those never outnumber the climb-rate
   * samples, and at most one climb-rate sample is taken per fix.
   */
  lemma {:induction false} LogRunSampleCounts(s: StatsState, fixes: seq<FixInput>,
                                              distance: DistanceFn, checkAdvance: ClockAdvance)
    ensures var a := s.flightstats;
            var b := LogRun(s, fixes, distance, checkAdvance).flightstats;
            && |b.altitude| - |a.altitude| <= |b.altitudeTerrain| - |a.altitudeTerrain|
            && |b.taskSpeed| - |a.taskSpeed| <= |b.altitudeTerrain| - |a.altitudeTerrain|
            && |b.altitudeTerrain| - |a.altitudeTerrain| <= |b.climbRate| - |a.climbRate|
            && |b.climbRate| - |a.climbRate| <= |fixes|
    decreases |fixes|
  {
    if fixes != [] {
      var next := LogFix(s, fixes[0].basic, fixes[0].calculated, distance, checkAdvance).next;
      LogRunSampleCounts(next, fixes[1..], distance, checkAdvance);
    }
  }

  /** Right after ResetFlight no fix with a location counts as a jump. */
  lemma ResetFlightClearsJumpBaseline(s: StatsState, full: bool, basic: MoreData, calculated: DerivedInfo,
                                      distance: DistanceFn, checkAdvance: ClockAdvance)
    ensures LogFix(ResetFlightState(s, full), basic, calculated, distance, checkAdvance).valid
            <==> basic.location.Some?
  {
  }

  /** Right after ResetFlight any defined last thermal counts as newly departed. */
  lemma ResetFlightRearmsThermalEvents(s: StatsState, full: bool, calculated: DerivedInfo)
    ensures ThermalDeparted(ResetFlightState(s, full).lastThermalEndTime, calculated)
            <==> calculated.lastThermal.Some?
  {
  }

  /** ProcessClimbEvents twice with the same input is the same as once. */
  lemma ClimbEventsIdempotent(s: StatsState, calculated: DerivedInfo)
    ensures ClimbEvents(ClimbEvents(s, calculated), calculated) == ClimbEvents(s, calculated)
  {
  }

  /** The state after ProcessClimbEvents has been called on each input in turn. */
  function ClimbRun(s: StatsState, run: seq<DerivedInfo>): (r: StatsState)
    decreases |run|
  {
    if run == [] then s else ClimbRun(ClimbEvents(s, run[0]), run[1..])
  }

  /**
   * The thermals for which OnDepartedThermal fires during a run, in order, given the
   * stored thermal end time before the run. Only that time decides what fires.
   */
  function Departed(stored: Stamp, run: seq<DerivedInfo>): (r: seq<OneClimbInfo>)
    decreases |run|
  {
    if run == [] then []
    else
      (if ThermalDeparted(stored, run[0]) then [run[0].lastThermal.value] else [])
      + Departed(ThermalEndStamp(run[0]), run[1..])
  }

  /** The number of climbs in `ts` that gained height. */
  function Successful(ts: seq<OneClimbInfo>): (r: nat)
  {
    if ts == [] then 0 else (if ts[0].gain > 0.0 then 1 else 0) + Successful(ts[1..])
  }

  lemma {:induction false} SuccessfulAppend(a: seq<OneClimbInfo>, b: seq<OneClimbInfo>)
    ensures Successful(a + b) == Successful(a) + Successful(b)
  {
    if a != [] {
      assert (a + b)[0] == a[0];
      assert (a + b)[1..] == a[1..] + b;
      SuccessfulAppend(a[1..], b);
    } else {
      assert a + b == b;
    }
  }

  /** The thermal-average entry OnDepartedThermal records for one input, if it fires. */
  function AverageEntry(stored: Stamp, calculated: DerivedInfo): (r: seq<ThermalAverage>)
  {
    if ThermalDeparted(stored, calculated) then [ThermalAverageOf(calculated)] else []
  }

  /** The climb ceiling recorded for one input: the altitude reached, for a departed climb that gained height. */
  function CeilingEntry(stored: Stamp, calculated: DerivedInfo): (r: seq<TimedValue>)
  {
    if ThermalDeparted(stored, calculated) && calculated.lastThermal.value.gain > 0.0
    then [CeilingOf(calculated)] else []
  }

  /** The climb base recorded for one input: the altitude at the start, for a departed climb that gained height. */
  function BaseEntry(stored: Stamp, calculated: DerivedInfo): (r: seq<TimedValue>)
  {
    if ThermalDeparted(stored, calculated) && calculated.lastThermal.value.gain > 0.0
    then [BaseOf(calculated)] else []
  }

  /** The thermal-average entries a run should record, in order. */
  function DepartedAverages(stored: Stamp, run: seq<DerivedInfo>): (r: seq<ThermalAverage>)
    decreases |run|
  {
    if run == [] then []
    else AverageEntry(stored, run[0]) + DepartedAverages(ThermalEndStamp(run[0]), run[1..])
  }

  /** The climb ceilings a run should record, in order. */
  function DepartedCeilings(stored: Stamp, run: seq<DerivedInfo>): (r: seq<TimedValue>)
    decreases |run|
  {
    if run == [] then []
    else CeilingEntry(stored, run[0]) + DepartedCeilings(ThermalEndStamp(run[0]), run[1..])
  }

  /** The climb bases a run should record, in order. */
  function DepartedBases(stored: Stamp, run: seq<DerivedInfo>): (r: seq<TimedValue>)
    decreases |run|
  {
    if run == [] then []
    else BaseEntry(stored, run[0]) + DepartedBases(ThermalEndStamp(run[0]), run[1..])
  }

  /** One ProcessClimbEvents call appends exactly the entries of its input, and touches no other series. */
  lemma ClimbEventsRecords(s: StatsState, calculated: DerivedInfo)
    ensures var a := s.flightstats;
            var b := ClimbEvents(s, calculated).flightstats;
            && b.thermalAverage == a.thermalAverage + AverageEntry(s.lastThermalEndTime, calculated)
            && b.climbCeiling == a.climbCeiling + CeilingEntry(s.lastThermalEndTime, calculated)
            && b.climbBase == a.climbBase + BaseEntry(s.lastThermalEndTime, calculated)
            && b.(thermalAverage := a.thermalAverage, climbCeiling := a.climbCeiling,
                  climbBase := a.climbBase) == a
  {
  }

  /**
   * Over a run of ProcessClimbEvents: the thermal averages, climb ceilings and climb
   * bases grow by exactly the entries of the departed thermals, in order; one average
   * per departed thermal, one ceiling and one base per departed thermal that gained
   * height; no other series changes.
   */
  lemma {:induction false} ClimbRunRecordsDeparted(s: StatsState, run: seq<DerivedInfo>)
    ensures var a := s.flightstats;
            var b := ClimbRun(s, run).flightstats;
            && b.Extends(a)
            && b.thermalAverage == a.thermalAverage + DepartedAverages(s.lastThermalEndTime, run)
            && b.climbCeiling == a.climbCeiling + DepartedCeilings(s.lastThermalEndTime, run)
            && b.climbBase == a.climbBase + DepartedBases(s.lastThermalEndTime, run)
            && b.(thermalAverage := a.thermalAverage, climbCeiling := a.climbCeiling,
                  climbBase := a.climbBase) == a
    decreases |run|
  {
    if run != [] {
      var next := ClimbEvents(s, run[0]);
      ClimbEventsRecords(s, run[0]);
      ClimbRunRecordsDeparted(next, run[1..]);
      var a, b := s.flightstats, ClimbRun(s, run).flightstats;
      var stored := s.lastThermalEndTime;
      assert b.thermalAverage == a.thermalAverage + AverageEntry(stored, run[0])
                                 + DepartedAverages(next.lastThermalEndTime, run[1..]);
      assert b.climbCeiling == a.climbCeiling + CeilingEntry(stored, run[0])
                               + DepartedCeilings(next.lastThermalEndTime, run[1..]);
      assert b.climbBase == a.climbBase + BaseEntry(stored, run[0])
                            + DepartedBases(next.lastThermalEndTime, run[1..]);
    }
  }

  /** The number of entries a run of ProcessClimbEvents records, in terms of the departed thermals. */
  lemma ClimbRunCounts(s: StatsState, run: seq<DerivedInfo>)
    ensures var a := s.flightstats;
            var b := ClimbRun(s, run).flightstats;
            var d := Departed(s.lastThermalEndTime, run);
            && |b.thermalAverage| == |a.thermalAverage| + |d|
            && |b.climbCeiling| == |a.climbCeiling| + Successful(d)
            && |b.climbBase| == |a.climbBase| + Successful(d)
  {
    ClimbRunRecordsDeparted(s, run);
    DepartedEntryCounts(s.lastThermalEndTime, run);
  }

  /**
   * The recorded entries match the departed thermals one for one: an average per
   * departed thermal, with its lift rate and duration, and a ceiling and a base per
   * departed thermal that gained height.
   */
  lemma {:induction false} DepartedEntryCounts(stored: Stamp, run: seq<DerivedInfo>)
    ensures var d := Departed(stored, run);
            var avg := DepartedAverages(stored, run);
            && |avg| == |d|
            && (forall i :: 0 <= i < |d| ==>
                  avg[i].liftRate == d[i].liftRate && avg[i].tEnd - avg[i].tStart == d[i].endTime - d[i].startTime)
            && |DepartedCeilings(stored, run)| == Successful(d)
            && |DepartedBases(stored, run)| == Successful(d)
    decreases |run|
  {
    if run != [] {
      var tail := ThermalEndStamp(run[0]);
      DepartedEntryCounts(tail, run[1..]);
      var first := if ThermalDeparted(stored, run[0]) then [run[0].lastThermal.value] else [];
      SuccessfulAppend(first, Departed(tail, run[1..]));
      var d := Departed(stored, run);
      var avg := DepartedAverages(stored, run);
      var k := |first|;
      forall i | 0 <= i < |d|
        ensures avg[i].liftRate == d[i].liftRate && avg[i].tEnd - avg[i].tStart == d[i].endTime - d[i].startTime
      {
        if i >= k {
          assert d[i] == Departed(tail, run[1..])[i - k];
          assert avg[i] == DepartedAverages(tail, run[1..])[i - k];
        }
      }
    }
  }

  /**
   * The inputs of a flight as the circling detector produces them: no last thermal
   * until the first climb ends, then a last thermal on every input, whose end time
   * may repeat from fix to fix but never goes back. A defined stored end time comes
   * from an input with a thermal, so the next input has one too, ending no earlier.
   */
  predicate ThermalEndsNonDecreasing(stored: Stamp, run: seq<DerivedInfo>)
  {
    (forall i, j :: 0 <= i < j < |run| && run[i].lastThermal.Some? ==>
       run[j].lastThermal.Some? &&
       run[i].lastThermal.value.endTime <= run[j].lastThermal.value.endTime) &&
    (stored.IsDefined() && run != [] ==>
       run[0].lastThermal.Some? && stored.seconds <= run[0].lastThermal.value.endTime)
  }

  /** The end times in `ts` strictly increase. */
  predicate EndsIncreasing(ts: seq<OneClimbInfo>)
  {
    forall i, j :: 0 <= i < j < |ts| ==> ts[i].endTime < ts[j].endTime
  }

  /** Every end time in `ts` is later than `t`. */
  predicate EndsAfter(ts: seq<OneClimbInfo>, t: real)
  {
    forall i :: 0 <= i < |ts| ==> ts[i].endTime > t
  }

  lemma EndsIncreasingCons(th: OneClimbInfo, rest: seq<OneClimbInfo>)
    requires EndsIncreasing(rest) && EndsAfter(rest, th.endTime)
    ensures EndsIncreasing([th] + rest)
  {
    var d := [th] + rest;
    forall i, j | 0 <= i < j < |d|
      ensures d[i].endTime < d[j].endTime
    {
      assert d[j] == rest[j - 1];
      if i > 0 {
        assert d[i] == rest[i - 1];
      }
    }
  }

  lemma EndsNonDecreasingTail(stored: Stamp, run: seq<DerivedInfo>)
    requires run != [] && ThermalEndsNonDecreasing(stored, run)
    ensures ThermalEndsNonDecreasing(ThermalEndStamp(run[0]), run[1..])
  {
    assert forall i :: 0 <= i < |run| - 1 ==> run[1..][i] == run[i + 1];
  }

  /**
   * When thermal end times do not go back, the departed thermals have strictly
   * increasing end times, all later than the stored one: no thermal is handled twice.
   */
  lemma {:induction false} DepartedInOrder(stored: Stamp, run: seq<DerivedInfo>)
    requires ThermalEndsNonDecreasing(stored, run)
    ensures EndsIncreasing(Departed(stored, run))
    ensures stored.IsDefined() ==> EndsAfter(Departed(stored, run), stored.seconds)
    decreases |run|
  {
    if run != [] {
      var tail := ThermalEndStamp(run[0]);
      EndsNonDecreasingTail(stored, run);
      DepartedInOrder(tail, run[1..]);
      var rest := Departed(tail, run[1..]);
      if ThermalDeparted(stored, run[0]) {
        EndsIncreasingCons(run[0].lastThermal.value, rest);
        assert Departed(stored, run) == [run[0].lastThermal.value] + rest;
      } else {
        assert stored == tail;
        assert Departed(stored, run) == [] + rest;
      }
    }
  }

  /** Some thermal in `ts` ends at time `t`. */
  predicate EndsAt(ts: seq<OneClimbInfo>, t: real)
  {
    exists j :: 0 <= j < |ts| && ts[j].endTime == t
  }

  /**
   * Every thermal is handled: each input whose thermal ends later than the stored
   * end time, or arrives with no end time stored, has its thermal among the
   * departed ones, even when the same thermal comes back on later fixes.
   */
  lemma {:induction false} EveryNewThermalDeparts(stored: Stamp, run: seq<DerivedInfo>)
    requires ThermalEndsNonDecreasing(stored, run)
    ensures forall i :: 0 <= i < |run| && ThermalDeparted(stored, run[i]) ==>
              EndsAt(Departed(stored, run), run[i].lastThermal.value.endTime)
    decreases |run|
  {
    if run != [] {
      var tail := ThermalEndStamp(run[0]);
      EndsNonDecreasingTail(stored, run);
      EveryNewThermalDeparts(tail, run[1..]);
      var first := if ThermalDeparted(stored, run[0]) then [run[0].lastThermal.value] else [];
      var rest := Departed(tail, run[1..]);
      var d := Departed(stored, run);
      assert d == first + rest;
      forall i | 0 <= i < |run| && ThermalDeparted(stored, run[i])
        ensures EndsAt(d, run[i].lastThermal.value.endTime)
      {
        var t := run[i].lastThermal.value.endTime;
        if i == 0 || (run[0].lastThermal.Some? && run[0].lastThermal.value.endTime == t) {
          // the first input carries this thermal and departs it
          assert ThermalDeparted(stored, run[0]);
          assert d[0].endTime == t;
        } else {
          // the thermal ends later than the first input's, so the tail departs it
          assert run[1..][i - 1] == run[i];
          assert ThermalDeparted(tail, run[1..][i - 1]);
          var j :| 0 <= j < |rest| && rest[j].endTime == t;
          assert d[|first| + j] == rest[j];
        }
      }
    }
  }

  /** `n` copies of the same input. */
  function Repeat(calculated: DerivedInfo, n: nat): (r: seq<DerivedInfo>)
    ensures |r| == n
  {
    if n == 0 then [] else [calculated] + Repeat(calculated, n - 1)
  }

  lemma {:induction false} RepeatedInputNotDepartedAgain(calculated: DerivedInfo, n: nat)
    ensures Departed(ThermalEndStamp(calculated), Repeat(calculated, n)) == []
    decreases n
  {
    if n > 0 {
      var run := Repeat(calculated, n);
      assert run[0] == calculated && run[1..] == Repeat(calculated, n - 1);
      RepeatedInputNotDepartedAgain(calculated, n - 1);
    }
  }

  /** Feeding ProcessClimbEvents the same input any number of times fires the thermal handling at most once. */
  lemma RepeatedInputDepartsAtMostOnce(s: StatsState, calculated: DerivedInfo, n: nat)
    ensures |Departed(s.lastThermalEndTime, Repeat(calculated, n))| <= 1
    ensures |ClimbRun(s, Repeat(calculated, n)).flightstats.thermalAverage|
            <= |s.flightstats.thermalAverage| + 1
  {
    ClimbRunCounts(s, Repeat(calculated, n));
    if n > 0 {
      var run := Repeat(calculated, n);
      assert run[0] == calculated && run[1..] == Repeat(calculated, n - 1);
      RepeatedInputNotDepartedAgain(calculated, n - 1);
    }
  }

  /** One call the statistics computer receives during a flight, between resets and task starts. */
  datatype Call = Log(fix: FixInput) | Climb(calculated: DerivedInfo)

  /** One call on a state: DoLogging or ProcessClimbEvents. */
  function Apply(s: StatsState, call: Call, distance: DistanceFn, checkAdvance: ClockAdvance): (r: StatsState)
  {
    match call
    case Log(fix) => LogFix(s, fix.basic, fix.calculated, distance, checkAdvance).next
    case Climb(calculated) => ClimbEvents(s, calculated)
  }

  /** The state after the calls have been made in turn, in any interleaving. */
  function Run(s: StatsState, calls: seq<Call>, distance: DistanceFn, checkAdvance: ClockAdvance): (r: StatsState)
    decreases |calls|
  {
    if calls == [] then s
    else
      Run(Apply(s, calls[0], distance, checkAdvance), calls[1..], distance, checkAdvance)
  }

  /**
   * Any interleaving of DoLogging and ProcessClimbEvents only appends to the
   * statistics and keeps climb ceilings paired with climb bases. (ResetFlight with
   * `full` and StartTask do remove entries; they are not among these calls.)
   */
  lemma {:induction false} RunAppendOnly(s: StatsState, calls: seq<Call>,
                                         distance: DistanceFn, checkAdvance: ClockAdvance)
    ensures Run(s, calls, distance, checkAdvance).flightstats.Extends(s.flightstats)
    ensures s.flightstats.CeilingsPaired() ==> Run(s, calls, distance, checkAdvance).flightstats.CeilingsPaired()
    decreases |calls|
  {
    if calls != [] {
      RunAppendOnly(Apply(s, calls[0], distance, checkAdvance), calls[1..], distance, checkAdvance);
    }
  }

  /** Every operation keeps climb ceilings and climb bases paired. */
  lemma CeilingsStayPaired(s: StatsState, basic: MoreData, calculated: DerivedInfo,
                           distance: DistanceFn, checkAdvance: ClockAdvance, full: bool)
    requires s.flightstats.CeilingsPaired()
    ensures LogFix(s, basic, calculated, distance, checkAdvance).next.flightstats.CeilingsPaired()
    ensures ClimbEvents(s, calculated).flightstats.CeilingsPaired()
    ensures ResetFlightState(s, full).flightstats.CeilingsPaired()
    ensures StartTaskState(s).flightstats.CeilingsPaired()
  {
  }

  /**
   * Client view: a climb of 300 m gain is recorded once as average, ceiling and
   * base, and processing the same derived data again records nothing more.
   */
  method ThermalRecordedOnce(calculated: DerivedInfo)
    requires calculated.lastThermal == Some(OneClimbInfo(1060.0, 1120.0, 800.0, 300.0, 5.0))
    requires calculated.takeoffTime == 1000.0
  {
    var computer := new StatsComputer();
    computer.ProcessClimbEvents(calculated);
    assert computer.flightstats.thermalAverage == [ThermalAverage(60.0, 120.0, 5.0)];
    assert computer.flightstats.climbCeiling == [TimedValue(120.0, 1100.0)];
    assert computer.flightstats.climbBase == [TimedValue(60.0, 800.0)];
    computer.ProcessClimbEvents(calculated);
    assert |computer.flightstats.thermalAverage| == 1 && |computer.flightstats.climbCeiling| == 1;
  }

  /**
   * Client view: a flight starts with no last thermal, then reports the same thermal
   * on two fixes; the run is a well-formed stream and the thermal departs exactly once.
   */
  method FlightStreamDepartsOnce(before: DerivedInfo, after: DerivedInfo)
    requires before.lastThermal.None? && after.lastThermal.Some?
  {
    var run := [before, after, after];
    assert ThermalEndsNonDecreasing(Undefined, run);
    EveryNewThermalDeparts(Undefined, run);
    assert ThermalDeparted(Undefined, run[1]);
    assert EndsAt(Departed(Undefined, run), after.lastThermal.value.endTime);
    var end := ThermalEndStamp(after);
    assert run[1..] == [after, after] && [after, after][1..] == [after];
    assert Departed(end, [after]) == [];
    assert Departed(Undefined, [after, after]) == [after.lastThermal.value];
    assert Departed(Undefined, run) == [after.lastThermal.value];
  }

  /** Client view: a fix more than 200 m from the previous one is rejected, yet becomes the new baseline. */
  method JumpMovesBaseline(calculated: DerivedInfo, checkAdvance: ClockAdvance)
  {
    var here := GeoPoint(45.0, 7.0);
    var there := GeoPoint(45.1, 7.0);
    var distance: DistanceFn := (a: GeoPoint, b: GeoPoint) => if a == b then 0.0 else 11000.0;
    var computer := new StatsComputer();
    var valid := computer.DoLogging(MoreData(Some(here), 10.0, None), calculated, distance, checkAdvance);
    assert valid;
    var before := computer.flightstats;
    valid := computer.DoLogging(MoreData(Some(there), 11.0, None), calculated, distance, checkAdvance);
    assert !valid && computer.lastLocation == Some(there) && computer.flightstats == before;
    valid := computer.DoLogging(MoreData(Some(there), 12.0, None), calculated, distance, checkAdvance);
    assert valid;
    valid := computer.DoLogging(MoreData(None, 13.0, None), calculated, distance, checkAdvance);
    assert !valid && computer.lastLocation == None;
  }
}
