// FinishPoint: the last point of an ordered task. It adds to the generic ordered
// task point a required finish altitude (safety height, minimum height, FAI finish
// height), a height limit that gates sector and transition tests, and the rule that
// the finish can only be entered once the previous point has been.

module OrderedPoints {
  import opened Geo

  datatype AltitudeReference = AGL | MSL

  /** Finish rules of the task: minimum height, its reference, and whether FAI finish rules apply. */
  datatype FinishConstraints = FinishConstraints(
    minHeight: real,
    minHeightRef: AltitudeReference,
    faiFinish: bool)

  /** The part of TaskBehaviour a finish point reads. */
  datatype TaskBehaviour = TaskBehaviour(safetyHeightArrival: real)

  /** The part of OrderedTaskSettings a finish point reads. */
  datatype OrderedTaskSettings = OrderedTaskSettings(finishConstraints: FinishConstraints)

  /** The aircraft as seen by the task points. */
  datatype AircraftState = AircraftState(location: GeoPoint, altitude: real)

  /** FinishConstraints::CheckHeight(state, base elevation), which is not part of this model. */
  type HeightCheck = (FinishConstraints, AircraftState, real) -> bool

  /** OrderedTaskPoint::IsInSector, the observation-zone test, which is not part of this model. */
  type SectorTest = AircraftState -> bool

  /** OrderedTaskPoint::CheckEnterTransition(now, last), which is not part of this model. */
  type TransitionTest = (AircraftState, AircraftState) -> bool

  /** A neighbouring point of the ordered task, as far as the finish point looks at it. */
  class OrderedTaskPoint {
    var hasEntered: bool

    constructor (entered: bool)
      ensures hasEntered == entered
    {
      hasEntered := entered;
    }
  }

  class FinishPoint {
    /** Elevation of the finish waypoint (GetBaseElevation). */
    const baseElevation: real
    const baseIsInSector: SectorTest
    const baseCheckEnterTransition: TransitionTest
    const checkHeight: HeightCheck

    var safetyHeight: real
    var constraints: FinishConstraints
    var faiFinishHeight: real
    var previous: OrderedTaskPoint?
    var next: OrderedTaskPoint?
    /** Entry/exit state of the generic ordered task point. */
    var hasEntered: bool
    var hasExited: bool

    /** The FAI finish height is never negative. */
    predicate Valid()
      reads this
    {
      faiFinishHeight >= 0.0
    }

    constructor (elevation: real, isInSector: SectorTest, checkEnterTransition: TransitionTest,
                 heightCheck: HeightCheck, tb: TaskBehaviour, finishConstraints: FinishConstraints)
      ensures baseElevation == elevation && baseIsInSector == isInSector
      ensures baseCheckEnterTransition == checkEnterTransition && checkHeight == heightCheck
      ensures safetyHeight == tb.safetyHeightArrival && constraints == finishConstraints
      ensures faiFinishHeight == 0.0
      ensures previous == null && next == null && !hasEntered && !hasExited
      ensures Valid()
    {
      baseElevation := elevation;
      baseIsInSector := isInSector;
      baseCheckEnterTransition := checkEnterTransition;
      checkHeight := heightCheck;
      safetyHeight := tb.safetyHeightArrival;
      constraints := finishConstraints;
      faiFinishHeight := 0.0;
      previous := null;
      next := null;
      hasEntered := false;
      hasExited := false;
    }

    method SetTaskBehaviour(tb: TaskBehaviour)
      requires Valid()
      modifies this
      ensures Valid()
      ensures safetyHeight == tb.safetyHeightArrival
      ensures constraints == old(constraints) && faiFinishHeight == old(faiFinishHeight)
      ensures previous == old(previous) && next == old(next)
      ensures hasEntered == old(hasEntered) && hasExited == old(hasExited)
      // the safety height moves the required altitude, not the height limit
      ensures forall st :: InInHeightLimit(st) == old(InInHeightLimit(st))
      ensures EntryPrecondition() == old(EntryPrecondition())
    {
      safetyHeight := tb.safetyHeightArrival;
    }

    /** Clears the generic entry/exit state, then the FAI finish height. */
    method Reset()
      modifies this
      ensures Valid()
      ensures faiFinishHeight == 0.0
      ensures !hasEntered && !hasExited
      ensures safetyHeight == old(safetyHeight) && constraints == old(constraints)
      ensures previous == old(previous) && next == old(next)
      // under FAI rules, any positive altitude passing CheckHeight is in the limit again
      ensures constraints.faiFinish ==>
                forall st :: InInHeightLimit(st) <==>
                               checkHeight(constraints, st, baseElevation) && st.altitude > 0.0
      // clearing the finish's own state does not touch its predecessor's
      ensures EntryPrecondition() == old(EntryPrecondition())
    {
      hasEntered := false;
      hasExited := false;
      faiFinishHeight := 0.0;
    }

    /** The finish may only be entered once the previous point has been entered. */
    function EntryPrecondition(): (r: bool)
      reads this, previous
      ensures r <==> previous != null && previous.hasEntered
      ensures r ==> previous != null
    {
      previous != null && previous.hasEntered
    }

    /**
     * The altitude required at the finish: at least the base elevation plus the
     * safety height, and at least the FAI finish height (FAI rules) or the
     * configured minimum height, taken above ground (AGL) or absolute.
     */
    function GetElevation(): (r: real)
      reads this
      ensures r >= baseElevation + safetyHeight
      ensures constraints.faiFinish ==>
                r >= faiFinishHeight && (r == baseElevation + safetyHeight || r == faiFinishHeight)
      ensures !constraints.faiFinish ==>
                var minimum := constraints.minHeight + (if constraints.minHeightRef == AGL then baseElevation else 0.0);
                r >= minimum && (r == baseElevation + safetyHeight || r == minimum)
    {
      var nominalElevation := baseElevation + safetyHeight;
      if constraints.faiFinish then
        Max(nominalElevation, faiFinishHeight)
      else
        Max(nominalElevation,
            constraints.minHeight + (if constraints.minHeightRef == AGL then baseElevation else 0.0))
    }

    method SetOrderedTaskSettings(otb: OrderedTaskSettings)
      requires Valid()
      modifies this
      ensures Valid()
      ensures constraints == otb.finishConstraints
      ensures safetyHeight == old(safetyHeight) && faiFinishHeight == old(faiFinishHeight)
      ensures previous == old(previous) && next == old(next)
      ensures hasEntered == old(hasEntered) && hasExited == old(hasExited)
      ensures EntryPrecondition() == old(EntryPrecondition())
    {
      constraints := otb.finishConstraints;
    }

    /** A finish point never has an outbound leg. */
    method SetNeighbours(prev: OrderedTaskPoint?, nxt: OrderedTaskPoint?)
      requires nxt == null
      requires Valid()
      modifies this
      ensures Valid()
      ensures previous == prev && next == null
      ensures safetyHeight == old(safetyHeight) && constraints == old(constraints)
      ensures faiFinishHeight == old(faiFinishHeight)
      ensures hasEntered == old(hasEntered) && hasExited == old(hasExited)
      // from now on entry waits for exactly this predecessor
      ensures EntryPrecondition() <==> prev != null && prev.hasEntered
    {
      previous := prev;
      next := nxt;
    }

    /**
     * Stores the FAI finish height, clamped to be non-negative. The new value
     * replaces the old one even when it is lower.
     */
    method SetFaiFinishHeight(height: real)
      modifies this
      ensures Valid()
      ensures faiFinishHeight >= 0.0 && faiFinishHeight >= height
      ensures faiFinishHeight == 0.0 || faiFinishHeight == height
      ensures constraints.faiFinish ==> GetElevation() >= height
      // under FAI rules no altitude at or below `height` is within the height limit
      ensures constraints.faiFinish ==> forall st: AircraftState :: st.altitude <= height ==> !InInHeightLimit(st)
      ensures safetyHeight == old(safetyHeight) && constraints == old(constraints)
      ensures previous == old(previous) && next == old(next)
      ensures hasEntered == old(hasEntered) && hasExited == old(hasExited)
      ensures EntryPrecondition() == old(EntryPrecondition())
    {
      faiFinishHeight := Max(0.0, height);
    }

    /** In the observation zone and within the height limit. */
    function IsInSector(state: AircraftState): (r: bool)
      reads this
      ensures r <==> baseIsInSector(state) && InInHeightLimit(state)
    {
      if !baseIsInSector(state) then false else InInHeightLimit(state)
    }

    /**
     * The aircraft satisfies the finish height constraint and, under FAI finish
     * rules, is strictly above the FAI finish height.
     */
    function InInHeightLimit(state: AircraftState): (r: bool)
      reads this
      ensures r ==> checkHeight(constraints, state, baseElevation)
      ensures r && constraints.faiFinish ==> state.altitude > faiFinishHeight
      ensures (checkHeight(constraints, state, baseElevation) &&
               (!constraints.faiFinish || state.altitude > faiFinishHeight)) ==> r
    {
      if !checkHeight(constraints, state, baseElevation) then false
      else if constraints.faiFinish then state.altitude > faiFinishHeight
      else true
    }

    /**
     * An enter transition is only considered when both the current and the
     * previous sample are within the height limit; then the generic test decides.
     */
    function CheckEnterTransition(now: AircraftState, last: AircraftState): (r: bool)
      reads this
      ensures r ==> InInHeightLimit(now) && InInHeightLimit(last)
      ensures InInHeightLimit(now) && InInHeightLimit(last) ==> (r <==> baseCheckEnterTransition(now, last))
    {
      var nowInHeight := InInHeightLimit(now);
      var lastInHeight := InInHeightLimit(last);
      if nowInHeight && lastInHeight then baseCheckEnterTransition(now, last) else false
    }
  }

  /**
   * Entry depends on the predecessor alone: two finish points with the same previous
   * point agree, whatever their own geometry, heights or entered state; without a
   * previous point the finish can never be entered.
   */
  lemma EntryDependsOnlyOnPredecessor(p: FinishPoint, q: FinishPoint)
    requires p.previous == q.previous
    ensures p.EntryPrecondition() == q.EntryPrecondition()
    ensures p.previous == null ==> !p.EntryPrecondition()
  {
  }

  /**
   * The finish sector is the generic sector cut down by the height limit: a sample
   * outside the limit is outside the sector whatever the observation zone says, and
   * a sample inside the sector passes CheckHeight and lies in the generic sector.
   */
  lemma SectorNeedsHeightLimit(p: FinishPoint, st: AircraftState)
    ensures !p.InInHeightLimit(st) ==> !p.IsInSector(st)
    ensures p.IsInSector(st) ==> p.baseIsInSector(st) && p.checkHeight(p.constraints, st, p.baseElevation)
    ensures p.baseIsInSector(st) ==> (p.IsInSector(st) <==> p.InInHeightLimit(st))
  {
  }

  /**
   * Under FAI finish rules a sample at or below the FAI finish height is neither in
   * the sector nor part of an enter transition, as the current or the previous sample.
   */
  lemma FaiFinishGate(p: FinishPoint, now: AircraftState, last: AircraftState)
    requires p.constraints.faiFinish && now.altitude <= p.faiFinishHeight
    ensures !p.InInHeightLimit(now) && !p.IsInSector(now)
    ensures !p.CheckEnterTransition(now, last) && !p.CheckEnterTransition(last, now)
  {
  }

  /**
   * Raising the FAI finish height never lets more samples through: a finish point
   * that differs from another only by a higher FAI finish height admits a subset of
   * its samples into the height limit and the sector.
   */
  lemma HigherFaiHeightAdmitsLess(p: FinishPoint, q: FinishPoint, st: AircraftState)
    requires p.checkHeight == q.checkHeight && p.baseIsInSector == q.baseIsInSector
    requires p.constraints == q.constraints && p.baseElevation == q.baseElevation
    requires p.faiFinishHeight <= q.faiFinishHeight
    ensures q.InInHeightLimit(st) ==> p.InInHeightLimit(st)
    ensures q.IsInSector(st) ==> p.IsInSector(st)
    ensures !p.constraints.faiFinish ==> q.InInHeightLimit(st) == p.InInHeightLimit(st)
  {
  }

  /**
   * An enter transition needs the generic transition and both samples above the
   * finish height limit: both pass CheckHeight and, under FAI rules, both are above
   * the FAI finish height and hence, that height being non-negative, above zero.
   */
  lemma EnterTransitionWithinLimit(p: FinishPoint, now: AircraftState, last: AircraftState)
    requires p.Valid()
    ensures p.CheckEnterTransition(now, last) ==>
              && p.baseCheckEnterTransition(now, last)
              && p.checkHeight(p.constraints, now, p.baseElevation)
              && p.checkHeight(p.constraints, last, p.baseElevation)
    ensures p.CheckEnterTransition(now, last) && p.constraints.faiFinish ==>
              now.altitude > p.faiFinishHeight && last.altitude > p.faiFinishHeight &&
              now.altitude > 0.0 && last.altitude > 0.0
  {
  }

  function Max(a: real, b: real): (r: real)
    ensures r >= a && r >= b && (r == a || r == b)
  {
    if a >= b then a else b
  }

  /** Client view: a lower FAI finish height replaces a higher one, and Reset zeroes it. */
  method FaiFinishHeightFollowsLastSetting(tb: TaskBehaviour, finishConstraints: FinishConstraints)
  {
    var finish := new FinishPoint(120.0, _ => true, (_, _) => true, (_, _, _) => true, tb, finishConstraints);
    finish.SetFaiFinishHeight(500.0);
    assert finish.faiFinishHeight == 500.0;
    finish.SetFaiFinishHeight(100.0);
    assert finish.faiFinishHeight == 100.0;
    finish.SetFaiFinishHeight(-50.0);
    assert finish.faiFinishHeight == 0.0;
    finish.SetFaiFinishHeight(300.0);
    finish.Reset();
    assert finish.faiFinishHeight == 0.0;
  }

  /** Client view: the finish is not entered before its predecessor, whatever the geometry says. */
  method EntryWaitsForPrevious(tb: TaskBehaviour, finishConstraints: FinishConstraints)
  {
    var finish := new FinishPoint(120.0, _ => true, (_, _) => true, (_, _, _) => true, tb, finishConstraints);
    assert !finish.EntryPrecondition();
    var turn := new OrderedTaskPoint(false);
    finish.SetNeighbours(turn, null);
    assert !finish.EntryPrecondition();
    turn.hasEntered := true;
    assert finish.EntryPrecondition();
  }
}
