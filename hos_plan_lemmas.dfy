/** What the planning rules of `Transformer.transform` guarantee
    (trip_eld_backend/core/transformer.py): the counter invariants every `record_*` call
    keeps, the stop each limit produces, and the accounting of driven time and distance. */
module HosPlanLemmas {
  import opened Wrappers
  import opened JsNumbers
  import opened HosClock
  import opened HosEvents
  import opened HosPlan

  /** Timeline stamps are non-negative, never later than the clock and never decrease;
      durations are non-negative. */
  predicate Stamped(evs: seq<HosEvent>, now: int) {
    && (forall i :: 0 <= i < |evs| ==> 0 <= evs[i].timeFromStartSeconds <= now && 0 <= evs[i].durationSeconds)
    && (forall i, j :: 0 <= i < j < |evs| ==> evs[i].timeFromStartSeconds <= evs[j].timeFromStartSeconds)
  }

  /** The invariant of the planner's state: the stops list is the non-drive part of the
      timeline, consecutive driving is part of the driving since the last rest, which is part
      of the on-duty time since then, and the clock and counters are non-negative. */
  predicate Inv(st: HosState) {
    && st.stops == StopsOf(st.hosEvents)
    && 0 <= st.consecutiveDriving <= st.cumulativeDriving <= st.cumulativeOnDuty
    && 0 <= st.totalCycleOnDuty
    && 0.0 <= st.secondsElapsed
    && 0.0 <= st.cumulativeDistance
    && Stamped(st.hosEvents, Trunc(st.secondsElapsed))
  }

  lemma StampedAppend(evs: seq<HosEvent>, e: HosEvent, now: int, later: int)
    requires Stamped(evs, now) && 0 <= now <= later
    requires e.timeFromStartSeconds == now && 0 <= e.durationSeconds
    ensures Stamped(evs + [e], later)
  {
  }

  lemma InitialInv(usedCycle: int)
    requires usedCycle >= 0
    ensures Inv(Initial(usedCycle))
  {
  }

  lemma AfterDriveKeepsInv(st: HosState, duration: real, distance: real, ref: StepRef, instruction: string)
    requires Inv(st) && 0.0 <= duration && 0.0 <= distance
    ensures Inv(AfterDrive(st, duration, distance, ref, instruction))
  {
    var r := AfterDrive(st, duration, distance, ref, instruction);
    StopsOfAppend(st.hosEvents, r.hosEvents[|r.hosEvents| - 1]);
    TruncMonotone(st.secondsElapsed, r.secondsElapsed);
    TruncMonotone(0.0, duration);
    StampedAppend(st.hosEvents, r.hosEvents[|r.hosEvents| - 1], Trunc(st.secondsElapsed), Trunc(r.secondsElapsed));
  }

  lemma AfterServiceKeepsInv(st: HosState, at: Coord, ref: StepRef, reason: string)
    requires Inv(st)
    ensures Inv(AfterService(st, at, ref, reason))
  {
    var r := AfterService(st, at, ref, reason);
    StopsOfAppend(st.hosEvents, r.hosEvents[|r.hosEvents| - 1]);
    TruncMonotone(st.secondsElapsed, r.secondsElapsed);
    StampedAppend(st.hosEvents, r.hosEvents[|r.hosEvents| - 1], Trunc(st.secondsElapsed), Trunc(r.secondsElapsed));
  }

  lemma AfterStopKeepsInv(st: HosState, at: Coord, kind: HosKind, duration: int, reason: string)
    requires Inv(st) && kind != Drive && 0 <= duration
    ensures Inv(AfterStop(st, at, kind, duration, reason))
  {
    var r := AfterStop(st, at, kind, duration, reason);
    var e := HosEvent(kind, duration, Trunc(st.secondsElapsed), Some(reason), Some(at), None, None, None);
    StopsOfAppend(st.hosEvents, e);
    assert StopOf(e) == e;
    TruncMonotone(st.secondsElapsed, r.secondsElapsed);
    StampedAppend(st.hosEvents, e, Trunc(st.secondsElapsed), Trunc(r.secondsElapsed));
  }

  /** The loop variables of a step stay within bounds: non-negative time and distance left. */
  predicate LegOk(leg: Leg) {
    Inv(leg.st) && 0.0 <= leg.duration && 0.0 <= leg.distance
  }

  lemma LimitPhaseKeepsInv(g: Geometry, st: HosState, step: Step, ref: StepRef)
    requires StepFits(g.coords, step) && Inv(st) && 0.0 <= step.duration && 0.0 <= step.distance
    ensures LegOk(LimitPhase(g, st, step, ref))
  {
    var start := Leg(st, step.duration, step.distance, g.coords[step.wayPoints[0]]);
    match LimitFor(st, step.duration)
    case None =>
    case Some(l) =>
      var driven := start;
      if l.remaining > 0 {
        var rd := PredictDistance(step.duration, step.distance, l.remaining as real);
        AfterDriveKeepsInv(st, l.remaining as real, rd, ref, step.instruction);
        driven := DrivePart(g, start, step, ref, l.remaining as real, rd);
      }
      AfterStopKeepsInv(driven.st, driven.at, l.kind, l.duration, l.reason);
  }

  lemma FuelPhaseKeepsInv(g: Geometry, leg: Leg, step: Step, ref: StepRef)
    requires StepFits(g.coords, step) && LegOk(leg)
    ensures LegOk(FuelPhase(g, leg, step, ref))
  {
    if leg.st.cumulativeDistance + leg.distance >= DistanceLimit {
      var left := DistanceLimit - leg.st.cumulativeDistance;
      var driven := leg;
      if left > 0.0 {
        var t := PredictDuration(leg.duration, leg.distance, left);
        AfterDriveKeepsInv(leg.st, t, left, ref, step.instruction);
        driven := DrivePart(g, leg, step, ref, t, left);
      }
      AfterStopKeepsInv(driven.st, driven.at, Fuel, BreakDuration, FuelReason);
    }
  }

  /** A step with non-negative time and distance keeps the invariant. */
  lemma AfterStepKeepsInv(g: Geometry, st: HosState, segIdx: int, stepIdx: int, step: Step)
    requires StepFits(g.coords, step) && Inv(st) && 0.0 <= step.duration && 0.0 <= step.distance
    ensures Inv(AfterStep(g, st, segIdx, stepIdx, step))
  {
    var ref := StepRef(segIdx, stepIdx);
    if step.distance == 0.0 {
      AfterServiceKeepsInv(st, g.coords[step.wayPoints[1]], ref, if segIdx == 0 then PickupReason else DropoffReason);
    } else {
      LimitPhaseKeepsInv(g, st, step, ref);
      var leg := LimitPhase(g, st, step, ref);
      FuelPhaseKeepsInv(g, leg, step, ref);
      var leg2 := FuelPhase(g, leg, step, ref);
      AfterDriveKeepsInv(leg2.st, leg2.duration, leg2.distance, ref, step.instruction);
    }
  }

  predicate StepsNonNegative(steps: seq<Step>) {
    forall j :: 0 <= j < |steps| ==> 0.0 <= steps[j].duration && 0.0 <= steps[j].distance
  }

  predicate RouteNonNegative(segments: seq<Segment>) {
    forall i :: 0 <= i < |segments| ==> StepsNonNegative(segments[i].steps)
  }

  lemma {:induction false} AfterStepsKeepsInv(g: Geometry, st: HosState, segIdx: int, steps: seq<Step>)
    requires forall j :: 0 <= j < |steps| ==> StepFits(g.coords, steps[j])
    requires Inv(st) && StepsNonNegative(steps)
    ensures Inv(AfterSteps(g, st, segIdx, steps))
  {
    if steps != [] {
      var n := |steps| - 1;
      AfterStepsKeepsInv(g, st, segIdx, steps[..n]);
      AfterStepKeepsInv(g, AfterSteps(g, st, segIdx, steps[..n]), segIdx, n, steps[n]);
    }
  }

  /** Planning a whole route of non-negative steps keeps the invariant. */
  lemma {:induction false} AfterSegmentsKeepsInv(g: Geometry, st: HosState, segments: seq<Segment>)
    requires RouteFits(g.coords, segments) && Inv(st) && RouteNonNegative(segments)
    ensures Inv(AfterSegments(g, st, segments))
  {
    if segments != [] {
      var n := |segments| - 1;
      RouteFitsPrefix(g.coords, segments, n);
      assert RouteNonNegative(segments[..n]) by {
        forall i | 0 <= i < n
          ensures StepsNonNegative(segments[..n][i].steps)
        {
          assert segments[..n][i] == segments[i];
        }
      }
      AfterSegmentsKeepsInv(g, st, segments[..n]);
      AfterStepsKeepsInv(g, AfterSegments(g, st, segments[..n]), n, segments[n].steps);
    }
  }

  /** A limit stop: when a limit governs the step, the planner drives exactly up to that
      limit if any time is left before it, then records the stop the limit calls for; after
      it, consecutive driving is 0, a rest also clears the driving and on-duty counters, and
      the 34-hour restart clears the cycle. */
  lemma LimitPhaseStops(g: Geometry, st: HosState, step: Step, ref: StepRef)
    requires StepFits(g.coords, step) && LimitFor(st, step.duration).Some?
    ensures var l := LimitFor(st, step.duration).value;
      var leg := LimitPhase(g, st, step, ref);
      var k := |st.hosEvents|;
      var evs := leg.st.hosEvents;
      && |evs| == k + (if l.remaining > 0 then 2 else 1)
      && evs[..k] == st.hosEvents
      && (l.remaining > 0 ==> evs[k].kind == Drive && evs[k].durationSeconds == l.remaining)
      && (l.remaining > 0 && OverCycle(st, step.duration) ==>
            st.totalCycleOnDuty + evs[k].durationSeconds == CycleDuration)
      && (l.remaining > 0 && !OverCycle(st, step.duration) && NeedsRest(st, step.duration) ==>
            st.cumulativeDriving + evs[k].durationSeconds == DriveLimit)
      && (l.remaining > 0 && l.kind == Break ==>
            st.consecutiveDriving + evs[k].durationSeconds == BreakAfterDrive)
      && evs[|evs| - 1].kind == l.kind && evs[|evs| - 1].durationSeconds == l.duration
      && evs[|evs| - 1].reason == Some(l.reason)
      && leg.st.stops == st.stops + [evs[|evs| - 1]]
      && leg.st.consecutiveDriving == 0
      && (l.kind == Rest ==> leg.st.cumulativeDriving == 0 && leg.st.cumulativeOnDuty == 0)
      && (OverCycle(st, step.duration) <==> l.duration == CycleRest)
      && (OverCycle(st, step.duration) ==> leg.st.totalCycleOnDuty == 0)
  {
    var l := LimitFor(st, step.duration).value;
    var start := Leg(st, step.duration, step.distance, g.coords[step.wayPoints[0]]);
    var k := |st.hosEvents|;
    if l.remaining > 0 {
      var rd := PredictDistance(step.duration, step.distance, l.remaining as real);
      var driven := DrivePart(g, start, step, ref, l.remaining as real, rd);
      assert Trunc(l.remaining as real) == l.remaining;
      assert driven.st.hosEvents[..k] == st.hosEvents;
      var leg := driven.(st := AfterStop(driven.st, driven.at, l.kind, l.duration, l.reason));
      assert leg.st.hosEvents[..k] == driven.st.hosEvents[..k];
    }
  }

  /** The fuel stop: once 1,000 miles would be passed, the planner drives exactly up to the
      1,000th mile if any distance is left, then records a 30-minute fuel stop, after which
      the distance counter and consecutive driving are 0. */
  lemma FuelPhaseStops(g: Geometry, leg: Leg, step: Step, ref: StepRef)
    requires StepFits(g.coords, step)
    requires leg.st.cumulativeDistance + leg.distance >= DistanceLimit
    ensures var r := FuelPhase(g, leg, step, ref);
      var k := |leg.st.hosEvents|;
      var left := DistanceLimit - leg.st.cumulativeDistance;
      var evs := r.st.hosEvents;
      && |evs| == k + (if left > 0.0 then 2 else 1)
      && evs[..k] == leg.st.hosEvents
      && (left > 0.0 ==> evs[k].kind == Drive && leg.st.cumulativeDistance + evs[k].distanceMeters.value == DistanceLimit)
      && evs[|evs| - 1].kind == Fuel && evs[|evs| - 1].durationSeconds == BreakDuration
      && evs[|evs| - 1].reason == Some(FuelReason)
      && r.st.cumulativeDistance == 0.0 && r.st.consecutiveDriving == 0
  {
    var k := |leg.st.hosEvents|;
    var left := DistanceLimit - leg.st.cumulativeDistance;
    if left > 0.0 {
      var driven := DrivePart(g, leg, step, ref, PredictDuration(leg.duration, leg.distance, left), left);
      assert driven.st.hosEvents[..k] == leg.st.hosEvents;
      var r := driven.(st := AfterStop(driven.st, driven.at, Fuel, BreakDuration, FuelReason));
      assert r.st.hosEvents[..k] == driven.st.hosEvents[..k];
    }
  }

  /** A zero-distance step is a one-hour service stop at the step's end point: a pickup on
      the first segment, a drop-off on any later one. Nothing is driven. */
  lemma ZeroDistanceStepIsService(g: Geometry, st: HosState, segIdx: int, stepIdx: int, step: Step)
    requires StepFits(g.coords, step) && step.distance == 0.0
    ensures var r := AfterStep(g, st, segIdx, stepIdx, step);
      var e := r.hosEvents[|r.hosEvents| - 1];
      && r.hosEvents == st.hosEvents + [e]
      && e.kind == Service && e.durationSeconds == PickupDropoffService
      && e.reason == Some(if segIdx == 0 then PickupReason else DropoffReason)
      && e.location == Some(g.coords[step.wayPoints[1]])
      && r.stops == st.stops + [StopOf(e)]
      && r.cumulativeDistance == st.cumulativeDistance
  {
  }

  /** The clock minus the time spent at stops: the time spent driving. */
  function DrivingSeconds(st: HosState): real {
    st.secondsElapsed - DurationSum(st.stops) as real
  }

  lemma AfterDriveAccounts(st: HosState, duration: real, distance: real, ref: StepRef, instruction: string)
    ensures var r := AfterDrive(st, duration, distance, ref, instruction);
      DrivingSeconds(r) == DrivingSeconds(st) + duration &&
      DrivenDistance(r.hosEvents) == DrivenDistance(st.hosEvents) + distance
  {
    var r := AfterDrive(st, duration, distance, ref, instruction);
    DrivenDistanceAppend(st.hosEvents, [r.hosEvents[|r.hosEvents| - 1]]);
  }

  lemma AfterStopAccounts(st: HosState, at: Coord, kind: HosKind, duration: int, reason: string)
    ensures var r := AfterStop(st, at, kind, duration, reason);
      DrivingSeconds(r) == DrivingSeconds(st) && DrivenDistance(r.hosEvents) == DrivenDistance(st.hosEvents)
  {
    var e := HosEvent(kind, duration, Trunc(st.secondsElapsed), Some(reason), Some(at), None, None, None);
    DrivenDistanceAppend(st.hosEvents, [e]);
    DurationSumAppend(st.stops, [e]);
    assert [e][..0] == [];
  }

  lemma AfterServiceAccounts(st: HosState, at: Coord, ref: StepRef, reason: string)
    ensures var r := AfterService(st, at, ref, reason);
      DrivingSeconds(r) == DrivingSeconds(st) && DrivenDistance(r.hosEvents) == DrivenDistance(st.hosEvents)
  {
    var r := AfterService(st, at, ref, reason);
    var e := r.hosEvents[|r.hosEvents| - 1];
    DrivenDistanceAppend(st.hosEvents, [e]);
    DurationSumAppend(st.stops, [StopOf(e)]);
    assert [e][..0] == [];
    assert [StopOf(e)][..0] == [];
  }

  /** What is driven of a step plus what is left of it is the whole step. */
  predicate LegAccounts(st: HosState, step: Step, leg: Leg) {
    && DrivingSeconds(leg.st) + leg.duration == DrivingSeconds(st) + step.duration
    && DrivenDistance(leg.st.hosEvents) + leg.distance == DrivenDistance(st.hosEvents) + step.distance
  }

  lemma LimitPhaseAccounts(g: Geometry, st: HosState, step: Step, ref: StepRef)
    requires StepFits(g.coords, step)
    ensures LegAccounts(st, step, LimitPhase(g, st, step, ref))
  {
    var start := Leg(st, step.duration, step.distance, g.coords[step.wayPoints[0]]);
    match LimitFor(st, step.duration)
    case None =>
    case Some(l) =>
      var driven := start;
      if l.remaining > 0 {
        var rd := PredictDistance(step.duration, step.distance, l.remaining as real);
        AfterDriveAccounts(st, l.remaining as real, rd, ref, step.instruction);
        driven := DrivePart(g, start, step, ref, l.remaining as real, rd);
      }
      AfterStopAccounts(driven.st, driven.at, l.kind, l.duration, l.reason);
  }

  lemma FuelPhaseAccounts(g: Geometry, st: HosState, leg: Leg, step: Step, ref: StepRef)
    requires StepFits(g.coords, step) && LegAccounts(st, step, leg)
    ensures LegAccounts(st, step, FuelPhase(g, leg, step, ref))
  {
    if leg.st.cumulativeDistance + leg.distance >= DistanceLimit {
      var left := DistanceLimit - leg.st.cumulativeDistance;
      var driven := leg;
      if left > 0.0 {
        var t := PredictDuration(leg.duration, leg.distance, left);
        AfterDriveAccounts(leg.st, t, left, ref, step.instruction);
        driven := DrivePart(g, leg, step, ref, t, left);
      }
      AfterStopAccounts(driven.st, driven.at, Fuel, BreakDuration, FuelReason);
    }
  }

  /** The time a step moves the truck: its duration, or none for a zero-distance step. */
  function MovingTime(step: Step): real {
    if step.distance == 0.0 then 0.0 else step.duration
  }

  /** A step's whole time and distance are driven, however the stops split it; a
      zero-distance step drives nothing. */
  lemma AfterStepAccounts(g: Geometry, st: HosState, segIdx: int, stepIdx: int, step: Step)
    requires StepFits(g.coords, step)
    ensures var r := AfterStep(g, st, segIdx, stepIdx, step);
      && DrivingSeconds(r) == DrivingSeconds(st) + MovingTime(step)
      && DrivenDistance(r.hosEvents) == DrivenDistance(st.hosEvents) + step.distance
  {
    var ref := StepRef(segIdx, stepIdx);
    if step.distance == 0.0 {
      AfterServiceAccounts(st, g.coords[step.wayPoints[1]], ref, if segIdx == 0 then PickupReason else DropoffReason);
    } else {
      LimitPhaseAccounts(g, st, step, ref);
      var leg := LimitPhase(g, st, step, ref);
      FuelPhaseAccounts(g, st, leg, step, ref);
      var leg2 := FuelPhase(g, leg, step, ref);
      AfterDriveAccounts(leg2.st, leg2.duration, leg2.distance, ref, step.instruction);
    }
  }

  function StepsMovingTime(steps: seq<Step>): real {
    if steps == [] then 0.0 else StepsMovingTime(steps[..|steps| - 1]) + MovingTime(steps[|steps| - 1])
  }

  function StepsDistance(steps: seq<Step>): real {
    if steps == [] then 0.0 else StepsDistance(steps[..|steps| - 1]) + steps[|steps| - 1].distance
  }

  /** The route's moving time: the durations of all steps that cover distance. */
  function RouteMovingTime(segments: seq<Segment>): real {
    if segments == [] then 0.0
    else RouteMovingTime(segments[..|segments| - 1]) + StepsMovingTime(segments[|segments| - 1].steps)
  }

  function RouteDistance(segments: seq<Segment>): real {
    if segments == [] then 0.0
    else RouteDistance(segments[..|segments| - 1]) + StepsDistance(segments[|segments| - 1].steps)
  }

  lemma {:induction false} AfterStepsAccounts(g: Geometry, st: HosState, segIdx: int, steps: seq<Step>)
    requires forall j :: 0 <= j < |steps| ==> StepFits(g.coords, steps[j])
    ensures var r := AfterSteps(g, st, segIdx, steps);
      && DrivingSeconds(r) == DrivingSeconds(st) + StepsMovingTime(steps)
      && DrivenDistance(r.hosEvents) == DrivenDistance(st.hosEvents) + StepsDistance(steps)
  {
    if steps != [] {
      var n := |steps| - 1;
      var init := steps[..n];
      assert forall j :: 0 <= j < |init| ==> StepFits(g.coords, init[j]) by {
        forall j | 0 <= j < |init| ensures StepFits(g.coords, init[j]) {
          assert init[j] == steps[j];
        }
      }
      AfterStepsAccounts(g, st, segIdx, init);
      var mid := AfterSteps(g, st, segIdx, init);
      AfterStepAccounts(g, mid, segIdx, n, steps[n]);
      assert AfterSteps(g, st, segIdx, steps) == AfterStep(g, mid, segIdx, n, steps[n]);
      assert StepsMovingTime(steps) == StepsMovingTime(init) + MovingTime(steps[n]);
      assert StepsDistance(steps) == StepsDistance(init) + steps[n].distance;
    }
  }

  lemma {:induction false} AfterSegmentsAccounts(g: Geometry, st: HosState, segments: seq<Segment>)
    requires RouteFits(g.coords, segments)
    ensures var r := AfterSegments(g, st, segments);
      && DrivingSeconds(r) == DrivingSeconds(st) + RouteMovingTime(segments)
      && DrivenDistance(r.hosEvents) == DrivenDistance(st.hosEvents) + RouteDistance(segments)
  {
    if segments != [] {
      var n := |segments| - 1;
      RouteFitsPrefix(g.coords, segments, n);
      AfterSegmentsAccounts(g, st, segments[..n]);
      AfterStepsAccounts(g, AfterSegments(g, st, segments[..n]), n, segments[n].steps);
    }
  }

  /** From a fresh planner, the clock at the end is the route's moving time plus the stop
      time, and the drive events cover the route's distance exactly. So when the summary
      duration is the route's moving time, `travel_seconds + total_stop_seconds` is the
      planner's own clock. */
  lemma ItineraryIsClock(g: Geometry, usedCycle: int, route: Route)
    requires RouteFits(g.coords, route.segments)
    requires route.summaryDuration == RouteMovingTime(route.segments)
    ensures var st := AfterSegments(g, Initial(usedCycle), route.segments);
      && route.summaryDuration + DurationSum(st.stops) as real == st.secondsElapsed
      && DrivenDistance(st.hosEvents) == RouteDistance(route.segments)
  {
    AfterSegmentsAccounts(g, Initial(usedCycle), route.segments);
  }
}
