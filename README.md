# Fix filtering, flight statistics and finish-point rules of a glide computer

This project models two sequential pieces of the XCSoar glide computer's per-fix
pipeline in Dafny and proves what they promise.

**StatsComputer** (`src/Computer/StatsComputer.cpp`) filters incoming GPS fixes
and feeds the flight statistics:

- A fix is rejected when it has no location, or when it lies more than 200 m from
  the previous location (a "jump"). The jump baseline `last_location` is overwritten
  first, even for a fix that is then rejected.
- For an accepted fix in flight it appends a climb-rate sample. When the periodic
  logging clock advances, it also appends altitude/terrain, altitude and task-speed
  samples, each under its own guard.
- `ProcessClimbEvents` detects each newly completed thermal by comparing end times.
  It records the thermal's average lift. It records the climb ceiling and climb base
  only for a climb that gained height.

The model is a class `Computer.StatsComputer` whose fields are those of the source.
Its methods update the fields step by step. Each method is proved equal to a pure
function of the old state (`LogFix`, `ClimbEvents`, `DepartedThermal`,
`ResetFlightState`, `StartTaskState`). Those functions carry the per-call
properties in their contracts. The lemmas in `ComputerRuns` state what holds over
whole runs of calls:

- any run of DoLogging calls, any run of ProcessClimbEvents calls, and any
  interleaving of the two only append to the statistics. ResetFlight with `full`
  empties them and StartTask clears the task-speed and thermal-average series, so
  the statistics do not grow across those calls;
- a run of ProcessClimbEvents records exactly the average, ceiling and base entries
  of the thermals it departs, in order;
- periodic samples never outnumber the climb-rate samples;
- over a flight's stream of inputs (no last thermal until the first climb ends,
  then a last thermal on every input, whose end time repeats from fix to fix but
  never goes back), each thermal is handled at most once, and every thermal that
  is new when it arrives is handled;
- the same input repeated any number of times is handled at most once.

The flight statistics are a record of append-only sequences
(`FlightStats.FlightStatistics`).

**FinishPoint** (`src/Engine/Task/Ordered/Points/FinishPoint.cpp`) is the last point
of an ordered task. The model is the class `OrderedPoints.FinishPoint`. Its setters
are methods. Its const queries are functions. Lemmas and the setters' contracts
state what the queries mean together:

- the required finish altitude is a maximum;
- under FAI finish rules, no sample at or below the FAI finish height is in the
  height limit, in the sector or part of an enter transition, and raising that
  height never admits more samples;
- entry depends only on the previous point having been entered. Setting the
  neighbours decides it, and no other setter changes it;
- an enter transition needs both samples within the height limit.

Altitudes, times and distances are `real`. The source only adds, subtracts, compares
and takes maxima of them.

Collaborators whose code is not part of this model are passed in as function values:

- the geodesic distance `GeoPoint::DistanceS` (`Geo.DistanceFn`);
- the logging clock `PeriodicClock::CheckAdvance` (`Computer.ClockAdvance`), which
  gives whether the clock advanced and the clock's new state;
- `FinishConstraints::CheckHeight` (`OrderedPoints.HeightCheck`);
- the generic `OrderedTaskPoint::IsInSector` and `OrderedTaskPoint::CheckEnterTransition`
  (const fields of `FinishPoint`).

## Model

| member | source | states |
|---|---|---|
| `Computer.LogFix` | src/Computer/StatsComputer.cpp:30-67 | The fix is valid iff a location is available and it is not more than 200 from a known previous location. Whatever the result, `lastLocation` becomes the fix's location (None when unavailable). A rejected fix, or any fix while not flying, changes no series and not the clock. A valid fix in flight appends exactly one climb-rate sample, tagged circling iff the mode is CLIMB. Altitude-terrain is appended iff valid, flying and the clock advanced. Altitude additionally needs the navigation altitude. Task speed additionally needs a valid task and `inst_speed_slow >= 0`. Thermal, ceiling and base series and the stored timestamps are untouched. |
| `Computer.StatsComputer.DoLogging` | src/Computer/StatsComputer.cpp:30-67 | The returned validity and the new fields are exactly `LogFix` of the old fields. The baseline always moves. A rejected fix leaves `flightstats` unchanged. |
| `Computer.DepartedThermal` | src/Computer/StatsComputer.cpp:86-104 | One thermal-average entry is always appended, with times measured from takeoff. Gain <= 0 appends nothing else. Gain > 0 appends ceiling `start_altitude + gain` at `t_end` and base `start_altitude` at `t_start`, and the ceiling lies above the base. Other series are unchanged, and ceilings stay paired with bases. |
| `Computer.StatsComputer.OnDepartedThermal` | src/Computer/StatsComputer.cpp:86-104 | Requires a defined last thermal (the source asserts it). `flightstats` becomes `DepartedThermal` of the old statistics, and no other field changes. |
| `Computer.ClimbEvents` | src/Computer/StatsComputer.cpp:107-135 | The thermal handling fires iff the last thermal is defined and either the stored end time is undefined or the new end time is later. Afterwards the three stored timestamps equal the incoming ones (end time Undefined without a thermal). The baseline and the clock are untouched, and the statistics only grow. |
| `Computer.StatsComputer.ProcessClimbEvents` | src/Computer/StatsComputer.cpp:107-135 | The new fields are exactly `ClimbEvents` of the old fields. |
| `Computer.ResetFlightState` | src/Computer/StatsComputer.cpp:9-18 | The baseline becomes invalid and the three timestamps Undefined. The statistics are emptied iff `full`, and the clock is kept. |
| `Computer.StatsComputer.ResetFlight` | src/Computer/StatsComputer.cpp:9-18 | The new fields are exactly `ResetFlightState` of the old fields. |
| `Computer.StartTaskState` | src/Computer/StatsComputer.cpp:20-24 | Only the task-specific series (task speed, thermal average) are cleared. Every other series and field is kept. |
| `Computer.StatsComputer.StartTask` | src/Computer/StatsComputer.cpp:20-24 | The new fields are exactly `StartTaskState` of the old fields. |
| `ComputerRuns.LogRunAppendOnly` | src/Computer/StatsComputer.cpp:35-64 | Over any sequence of DoLogging calls, every series of the old statistics is a prefix of the new one. The baseline is the last fix's location. |
| `ComputerRuns.LogRunSampleCounts` | src/Computer/StatsComputer.cpp:44-64 | Over any sequence of DoLogging calls, the new altitude and task-speed samples are at most the new altitude-terrain samples. Those are at most the new climb-rate samples, which are at most the number of fixes. |
| `ComputerRuns.ResetFlightClearsJumpBaseline` | src/Computer/StatsComputer.cpp:9-42 | Right after ResetFlight, a fix is valid iff it has a location: no jump can be detected. |
| `ComputerRuns.ResetFlightRearmsThermalEvents` | src/Computer/StatsComputer.cpp:9-18 | Right after ResetFlight, any defined last thermal counts as newly departed. |
| `ComputerRuns.ClimbEventsIdempotent` | src/Computer/StatsComputer.cpp:125-134 | ProcessClimbEvents twice with the same input gives the same state as once. |
| `ComputerRuns.ClimbEventsRecords` | src/Computer/StatsComputer.cpp:86-128 | One ProcessClimbEvents call appends to the thermal averages, ceilings and bases exactly the entries its input contributes: none unless the thermal departs; an average with times from takeoff; a ceiling at `start_altitude + gain` and a base at `start_altitude` only for positive gain. No other series changes. |
| `ComputerRuns.ClimbRunRecordsDeparted` | src/Computer/StatsComputer.cpp:86-134 | Over any sequence of ProcessClimbEvents calls, the statistics only grow. The thermal averages, ceilings and bases grow by exactly the entries of the departed thermals, in order, and no other series changes. |
| `ComputerRuns.DepartedEntryCounts` | src/Computer/StatsComputer.cpp:86-104 | The recorded entries match the departed thermals one for one. Each thermal-average entry carries its thermal's lift rate and duration. There are as many ceilings and as many bases as departed thermals with positive gain. |
| `ComputerRuns.ClimbRunCounts` | src/Computer/StatsComputer.cpp:86-134 | Over any sequence of ProcessClimbEvents calls, the thermal averages grow by the number of departed thermals, and the ceilings and bases by the number of those with positive gain. |
| `ComputerRuns.RunAppendOnly` | src/Computer/StatsComputer.cpp:30-135 | Over any interleaving of DoLogging and ProcessClimbEvents calls, every series of the old statistics is a prefix of the new one, and ceilings stay paired with bases. |
| `ComputerRuns.EveryNewThermalDeparts` | src/Computer/StatsComputer.cpp:125-134 | Over a flight's stream of inputs (leading inputs without a last thermal, then end times that may repeat but never go back), every input whose thermal counts as departed on arrival (no stored end time, or a later end) has a departed thermal with that end time. The same thermal reported on several fixes is still handled. |
| `ComputerRuns.DepartedInOrder` | src/Computer/StatsComputer.cpp:125-134 | Over the same stream of inputs, which may begin with inputs that have no last thermal, the departed thermals have strictly increasing end times, all later than a defined stored one. No thermal is handled more than once. |
| `ComputerRuns.RepeatedInputDepartsAtMostOnce` | src/Computer/StatsComputer.cpp:125-134 | Feeding the same input any number of times departs at most one thermal and adds at most one thermal-average entry. |
| `ComputerRuns.CeilingsStayPaired` | src/Computer/StatsComputer.cpp:95-103 | DoLogging, ProcessClimbEvents, ResetFlight and StartTask all keep the number of climb ceilings equal to the number of climb bases. |
| `OrderedPoints.FinishPoint.constructor` | src/Engine/Task/Ordered/Points/FinishPoint.cpp:10-19 | The safety height comes from the task behaviour and the constraints are as given. The FAI finish height is 0, so `Valid()` (a non-negative FAI finish height) holds. There are no neighbours, and the point is not entered. Every setter keeps `Valid()`. |
| `OrderedPoints.FinishPoint.SetTaskBehaviour` | src/Engine/Task/Ordered/Points/FinishPoint.cpp:21-25 | The safety height becomes the behaviour's arrival safety height, and nothing else changes. The height limit and entry are the same for every sample as before. |
| `OrderedPoints.FinishPoint.Reset` | src/Engine/Task/Ordered/Points/FinishPoint.cpp:27-32 | The entered/exited state is cleared, the FAI finish height becomes 0, and the configuration and neighbours are kept. Under FAI rules the height limit is then `CheckHeight` and a positive altitude. Entry, which depends on the previous point, is unaffected. |
| `OrderedPoints.EntryDependsOnlyOnPredecessor` | src/Engine/Task/Ordered/Points/FinishPoint.cpp:34-38 | Two finish points with the same previous point agree on entry, whatever their own geometry, heights or entered state. Without a previous point the finish can never be entered. |
| `OrderedPoints.FinishPoint.GetElevation` | src/Engine/Task/Ordered/Points/FinishPoint.cpp:40-53 | The required finish altitude is the maximum of base elevation + safety height and either the FAI finish height (FAI rules) or `min_height + (AGL ? base : 0)`. It is at least base + safety height in both modes, and equal to one of the two candidates. |
| `OrderedPoints.FinishPoint.SetOrderedTaskSettings` | src/Engine/Task/Ordered/Points/FinishPoint.cpp:55-60 | The finish constraints become those of the settings, and nothing else of the finish point changes. Entry is unaffected. |
| `OrderedPoints.FinishPoint.SetNeighbours` | src/Engine/Task/Ordered/Points/FinishPoint.cpp:62-69 | Requires no successor (the source asserts it). The previous point is stored, and there is still no next point. Afterwards entry is possible iff the new previous point exists and has been entered. |
| `OrderedPoints.FinishPoint.SetFaiFinishHeight` | src/Engine/Task/Ordered/Points/FinishPoint.cpp:71-75 | The stored height is `max(0, h)`: non-negative, at least `h`, and either 0 or `h`. It may be lower than before. Under FAI rules the required finish altitude is then at least `h`, and no sample at or below `h` is within the height limit. Entry is unaffected. |
| `OrderedPoints.SectorNeedsHeightLimit` | src/Engine/Task/Ordered/Points/FinishPoint.cpp:77-84 | The finish sector is the generic sector cut down by the height limit. A sample outside the limit is never in the sector. A sample in the sector passes `CheckHeight` and the generic sector test. Within the generic sector, being in the sector and being within the height limit coincide. |
| `OrderedPoints.FaiFinishGate` | src/Engine/Task/Ordered/Points/FinishPoint.cpp:86-96 | Under FAI rules, a sample at or below the FAI finish height is outside the height limit and the sector. It is also not part of an enter transition, as the current or the previous sample. |
| `OrderedPoints.HigherFaiHeightAdmitsLess` | src/Engine/Task/Ordered/Points/FinishPoint.cpp:86-96 | Of two finish points that differ only in the FAI finish height, the higher one admits a subset of the other's samples into the height limit and the sector. Without FAI rules the FAI finish height makes no difference. |
| `OrderedPoints.EnterTransitionWithinLimit` | src/Engine/Task/Ordered/Points/FinishPoint.cpp:98-110 | An enter transition implies the generic transition and that both samples pass `CheckHeight`. Under FAI rules both samples are also above the FAI finish height and, for a `Valid()` point, above zero. |

## Notes on the model

- FAI finish height: it is sometimes described as a ratchet that can
  only rise during a flight. The code of `SetFaiFinishHeight` stores
  `max(0, height)` and does not take the maximum with the previous value. The model
  follows the code. `OrderedPoints.FaiFinishHeightFollowsLastSetting` shows a lower
  value replacing a higher one.
- Thermal handling: `ProcessClimbEvents` always overwrites the stored thermal end
  time, also with an earlier one. "At most once per thermal" therefore holds for
  input streams described by `ThermalEndsNonDecreasing`. In such a stream, inputs
  without a last thermal may only come first. After that every input carries a
  thermal, and its end time never goes back, although it may repeat from fix to fix.
  `DepartedInOrder` and `EveryNewThermalDeparts` require this. If the last thermal
  becomes undefined and then reappears, the stored time is Undefined and that
  thermal is handled again. Such a stream is outside the predicate.

## Left out

- Computer.StartTaskState: `FlightStatistics::StartTask` is not part of this model.
  The model takes it to clear the task-specific series (task speed and thermal
  average) and keep the rest, so that part of the contract is an assumption about
  code that is not modelled.

- The `switch` at the head of `ProcessClimbEvents` only calls `OnClimbBase` and
  `OnClimbCeiling`. Both do nothing, so the switch has no effect on state and is not
  modelled.
- `GeoPoint::DistanceS`, `PeriodicClock::CheckAdvance`, `FinishConstraints::CheckHeight`,
  `OrderedTaskPoint::IsInSector` and `OrderedTaskPoint::CheckEnterTransition` are
  outside this model. They are function-valued parameters or fields, so no property
  of theirs is assumed.
  Examples: the "at most one periodic sample per period" bound, and the geometry of
  observation zones.
- The `PeriodicClock` state is a value threaded through `CheckAdvance`. Its internal
  rule is not modelled.
- `FlightStatistics` internals (its mutex, its bounded storage and the statistics it
  derives) are not modelled. Each series is an unbounded sequence of appended entries.
- Floating-point rounding: altitudes, times and distances are mathematical reals.
- The generic `OrderedTaskPoint` base behaviour (`Reset` beyond the entered/exited
  flags, `SetOrderedTaskSettings`, `SetNeighbours` beyond storing the neighbours)
  and the observation zone, waypoint and `boundary_scored` constructor arguments are
  not modelled.
- The `StatsComputer` constructor is not modelled. The model's
  constructor starts with no baseline, Undefined timestamps, empty statistics and an
  Undefined clock.
- `CirclingInfo` apart from the `CirclingMode` enumeration, and circling-mode
  detection itself, are not modelled. The mode, the climb/cruise start times and the
  last thermal record are inputs.
- Assertion failures in the source (`OnDepartedThermal` without a defined last
  thermal, `SetNeighbours` with a successor) are preconditions. A caller that breaks
  them is outside the model.
