/** The hours-of-service planning rules of `Transformer` (trip_eld_backend/core/transformer.py)
    as functions on its counter state: what each `record_*` call and each route step do to
    the timeline and the counters. The class in hos_transformer.dfy is proved against them. */
module HosPlan {
  import opened Wrappers
  import opened JsNumbers
  import opened HosClock
  import opened HosEvents

  /** A step of the routing response: metres, seconds, its instruction and the indices of its
      first and last point in the decoded geometry. */
  datatype Step = Step(distance: real, duration: real, instruction: string, wayPoints: seq<int>)

  datatype Segment = Segment(steps: seq<Step>)

  /** The first route: its segments (one per leg between the three locations) and summary. */
  datatype Route = Route(segments: seq<Segment>, summaryDuration: real, summaryDistance: real)

  /** The decoded route coordinates and `point_along_line`, a foreign interpolation. */
  datatype Geometry = Geometry(coords: seq<Coord>, pointAlongLine: (seq<Coord>, real) -> Coord)

  /** A step whose `way_points` name two points of the geometry. */
  predicate StepFits(coords: seq<Coord>, step: Step) {
    |step.wayPoints| >= 2 && 0 <= step.wayPoints[0] < |coords| && 0 <= step.wayPoints[1] < |coords|
  }

  predicate RouteFits(coords: seq<Coord>, segments: seq<Segment>) {
    forall i, j :: 0 <= i < |segments| && 0 <= j < |segments[i].steps| ==> StepFits(coords, segments[i].steps[j])
  }

  lemma RouteFitsPrefix(coords: seq<Coord>, segments: seq<Segment>, k: nat)
    requires RouteFits(coords, segments) && k <= |segments|
    ensures RouteFits(coords, segments[..k])
  {
    forall i, j | 0 <= i < k && 0 <= j < |segments[..k][i].steps|
      ensures StepFits(coords, segments[..k][i].steps[j])
    {
      assert segments[..k][i] == segments[i];
    }
  }

  /** `self.coords[start_idx : end_idx + 1]`: the step's stretch of the geometry. */
  function StepCoords(coords: seq<Coord>, step: Step): (c: seq<Coord>)
    requires StepFits(coords, step)
    ensures |c| == if step.wayPoints[0] <= step.wayPoints[1] then step.wayPoints[1] - step.wayPoints[0] + 1 else 0
  {
    if step.wayPoints[0] <= step.wayPoints[1] then coords[step.wayPoints[0]..step.wayPoints[1] + 1] else []
  }

  /** The fields of `Transformer` that the `record_*` methods change. */
  datatype HosState = HosState(
    hosEvents: seq<HosEvent>,
    stops: seq<HosEvent>,
    cumulativeDriving: int,
    consecutiveDriving: int,
    cumulativeOnDuty: int,
    totalCycleOnDuty: int,
    secondsElapsed: real,
    cumulativeDistance: real)

  /** The state `__init__` leaves: empty timeline, counters 0, the cycle at `used_cycle`. */
  function Initial(usedCycle: int): HosState {
    HosState([], [], 0, 0, 0, usedCycle, 0.0, 0.0)
  }

  const CycleReason: string := "Weekly 70 hour limit reached"
  const RestReason: string := "10-hour rest required (11h driving limit would be exceeded)"
  const BreakReason: string := "30-min break required (8h driving)"
  const FuelReason: string := "1,000 miles has been reached, truck needs fueling"
  const PickupReason: string := "Pickup Item"
  const DropoffReason: string := "Dropoff Item"

  /** `record_drive`: a drive event of the truncated duration; the counters grow by the
      truncated duration but the clock by the exact one. */
  function AfterDrive(st: HosState, duration: real, distance: real, ref: StepRef, instruction: string): (r: HosState)
    ensures |r.hosEvents| == |st.hosEvents| + 1
    ensures r.hosEvents == st.hosEvents + [r.hosEvents[|r.hosEvents| - 1]]
    ensures var e := r.hosEvents[|r.hosEvents| - 1];
      e.kind == Drive && e.durationSeconds == Trunc(duration) && e.timeFromStartSeconds == Trunc(st.secondsElapsed) &&
      e.distanceMeters == Some(distance) && e.stepRef == Some(ref)
    ensures r.stops == st.stops
    ensures r.cumulativeDriving == st.cumulativeDriving + Trunc(duration)
    ensures r.consecutiveDriving == st.consecutiveDriving + Trunc(duration)
    ensures r.cumulativeOnDuty == st.cumulativeOnDuty + Trunc(duration)
    ensures r.totalCycleOnDuty == st.totalCycleOnDuty + Trunc(duration)
    ensures r.secondsElapsed == st.secondsElapsed + duration
    ensures r.cumulativeDistance == st.cumulativeDistance + distance
  {
    var e := HosEvent(Drive, Trunc(duration), Trunc(st.secondsElapsed), None, None, Some(distance), Some(ref), Some(instruction));
    var t := Trunc(duration);
    HosState(st.hosEvents + [e], st.stops, st.cumulativeDriving + t, st.consecutiveDriving + t,
             st.cumulativeOnDuty + t, st.totalCycleOnDuty + t, st.secondsElapsed + duration,
             st.cumulativeDistance + distance)
  }

  /** `record_service`: a one-hour on-duty event, also listed as a stop; it adds to the
      on-duty and cycle counters and ends the consecutive driving stretch. */
  function AfterService(st: HosState, at: Coord, ref: StepRef, reason: string): (r: HosState)
    ensures |r.hosEvents| == |st.hosEvents| + 1
    ensures var e := r.hosEvents[|r.hosEvents| - 1];
      && r.hosEvents == st.hosEvents + [e]
      && e.kind == Service && e.durationSeconds == PickupDropoffService && e.reason == Some(reason)
      && e.location == Some(at) && e.stepRef == Some(ref) && e.timeFromStartSeconds == Trunc(st.secondsElapsed)
      && r.stops == st.stops + [StopOf(e)]
    ensures r.cumulativeDriving == st.cumulativeDriving && r.consecutiveDriving == 0
    ensures r.cumulativeOnDuty == st.cumulativeOnDuty + PickupDropoffService
    ensures r.totalCycleOnDuty == st.totalCycleOnDuty + PickupDropoffService
    ensures r.secondsElapsed == st.secondsElapsed + PickupDropoffService as real
    ensures r.cumulativeDistance == st.cumulativeDistance
  {
    var e := HosEvent(Service, PickupDropoffService, Trunc(st.secondsElapsed), Some(reason), Some(at), None, Some(ref), None);
    st.(hosEvents := st.hosEvents + [e], stops := st.stops + [StopOf(e)],
        cumulativeOnDuty := st.cumulativeOnDuty + PickupDropoffService,
        secondsElapsed := st.secondsElapsed + PickupDropoffService as real,
        totalCycleOnDuty := st.totalCycleOnDuty + PickupDropoffService,
        consecutiveDriving := 0)
  }

  /** `record_break_or_rest`: a stop event, listed in the timeline and the stops, then the
      counter effect of its kind. */
  function AfterStop(st: HosState, at: Coord, kind: HosKind, duration: int, reason: string): (r: HosState)
    ensures var e := HosEvent(kind, duration, Trunc(st.secondsElapsed), Some(reason), Some(at), None, None, None);
      r.hosEvents == st.hosEvents + [e] && r.stops == st.stops + [e]
    ensures r.secondsElapsed == st.secondsElapsed + duration as real
    ensures kind == Rest ==>
      r.cumulativeDriving == 0 && r.cumulativeOnDuty == 0 && r.consecutiveDriving == 0 &&
      r.totalCycleOnDuty == (if duration == CycleRest then 0 else st.totalCycleOnDuty) &&
      r.cumulativeDistance == st.cumulativeDistance
    ensures kind == Break ==>
      r.consecutiveDriving == 0 && r.cumulativeDriving == st.cumulativeDriving &&
      r.cumulativeOnDuty == st.cumulativeOnDuty && r.totalCycleOnDuty == st.totalCycleOnDuty &&
      r.cumulativeDistance == st.cumulativeDistance
    ensures kind == Fuel ==>
      r.consecutiveDriving == 0 && r.cumulativeDistance == 0.0 &&
      r.totalCycleOnDuty == st.totalCycleOnDuty + duration &&
      r.cumulativeDriving == st.cumulativeDriving && r.cumulativeOnDuty == st.cumulativeOnDuty
    ensures kind == Drive || kind == Service ==>
      r == st.(hosEvents := r.hosEvents, stops := r.stops, secondsElapsed := r.secondsElapsed)
  {
    var e := HosEvent(kind, duration, Trunc(st.secondsElapsed), Some(reason), Some(at), None, None, None);
    var st1 := st.(hosEvents := st.hosEvents + [e], stops := st.stops + [e],
                   secondsElapsed := st.secondsElapsed + duration as real);
    if kind == Rest then
      st1.(cumulativeDriving := 0, cumulativeOnDuty := 0, consecutiveDriving := 0,
           totalCycleOnDuty := if duration == CycleRest then 0 else st.totalCycleOnDuty)
    else if kind == Break then
      st1.(consecutiveDriving := 0)
    else if kind == Fuel then
      st1.(consecutiveDriving := 0, cumulativeDistance := 0.0, totalCycleOnDuty := st.totalCycleOnDuty + duration)
    else
      st1
  }

  /** The three limits `transform` checks before driving a step of `d` seconds. */
  predicate OverCycle(st: HosState, d: real) {
    st.totalCycleOnDuty as real + d >= CycleDuration as real
  }

  predicate NeedsRest(st: HosState, d: real) {
    st.cumulativeDriving as real + d >= DriveLimit as real
  }

  predicate NeedsBreak(st: HosState, d: real) {
    st.consecutiveDriving as real + d >= BreakAfterDrive as real
  }

  /** The stop a limit calls for and the driving time left before that limit. */
  datatype Limit = Limit(kind: HosKind, duration: int, reason: string, remaining: int)

  /** The limit that governs a step: the 70-hour cycle before the 11-hour driving limit
      before the 8-hour break rule. The time left before it never exceeds the step. */
  function LimitFor(st: HosState, d: real): (l: Option<Limit>)
    ensures l.None? <==> !OverCycle(st, d) && !NeedsRest(st, d) && !NeedsBreak(st, d)
    ensures OverCycle(st, d) ==>
      l == Some(Limit(Rest, CycleRest, CycleReason, CycleDuration - st.totalCycleOnDuty))
    ensures !OverCycle(st, d) && NeedsRest(st, d) ==>
      l == Some(Limit(Rest, TenHourRest, RestReason, DriveLimit - st.cumulativeDriving))
    ensures !OverCycle(st, d) && !NeedsRest(st, d) && NeedsBreak(st, d) ==>
      l == Some(Limit(Break, BreakDuration, BreakReason, BreakAfterDrive - st.consecutiveDriving))
    ensures l.Some? ==> l.value.remaining as real <= d
  {
    if OverCycle(st, d) then Some(Limit(Rest, CycleRest, CycleReason, CycleDuration - st.totalCycleOnDuty))
    else if NeedsRest(st, d) then Some(Limit(Rest, TenHourRest, RestReason, DriveLimit - st.cumulativeDriving))
    else if NeedsBreak(st, d) then Some(Limit(Break, BreakDuration, BreakReason, BreakAfterDrive - st.consecutiveDriving))
    else None
  }

  /** The local variables of one step of `transform`: the state, the step time and distance
      still to drive, and `prev_coord`, where the next stop is placed. */
  datatype Leg = Leg(st: HosState, duration: real, distance: real, at: Coord)

  /** Drives the first `time` seconds and `dist` metres of what is left of the step. */
  function DrivePart(g: Geometry, leg: Leg, step: Step, ref: StepRef, time: real, dist: real): (r: Leg)
    requires StepFits(g.coords, step)
    ensures r.st == AfterDrive(leg.st, time, dist, ref, step.instruction)
    ensures r.duration == leg.duration - time && r.distance == leg.distance - dist
  {
    Leg(AfterDrive(leg.st, time, dist, ref, step.instruction), leg.duration - time, leg.distance - dist,
        g.pointAlongLine(StepCoords(g.coords, step), dist))
  }

  /** The limit part of a step: if a limit is reached, drive up to it (when any time is left)
      and take the stop it calls for. */
  function LimitPhase(g: Geometry, st: HosState, step: Step, ref: StepRef): (leg: Leg)
    requires StepFits(g.coords, step)
    ensures LimitFor(st, step.duration).None? ==>
      leg == Leg(st, step.duration, step.distance, g.coords[step.wayPoints[0]])
    ensures st.hosEvents <= leg.st.hosEvents && st.stops <= leg.st.stops
  {
    var start := Leg(st, step.duration, step.distance, g.coords[step.wayPoints[0]]);
    match LimitFor(st, step.duration)
    case None => start
    case Some(l) =>
      var driven :=
        if l.remaining > 0 then
          DrivePart(g, start, step, ref, l.remaining as real,
                    PredictDistance(step.duration, step.distance, l.remaining as real))
        else start;
      driven.(st := AfterStop(driven.st, driven.at, l.kind, l.duration, l.reason))
  }

  /** The fuel part of a step: once the distance since the last fuel stop would reach 1,000
      miles, drive up to it (when any distance is left) and take a 30-minute fuel stop. */
  function FuelPhase(g: Geometry, leg: Leg, step: Step, ref: StepRef): (r: Leg)
    requires StepFits(g.coords, step)
    ensures leg.st.cumulativeDistance + leg.distance < DistanceLimit ==> r == leg
    ensures leg.st.hosEvents <= r.st.hosEvents && leg.st.stops <= r.st.stops
  {
    if leg.st.cumulativeDistance + leg.distance >= DistanceLimit then
      var left := DistanceLimit - leg.st.cumulativeDistance;
      var driven :=
        if left > 0.0 then DrivePart(g, leg, step, ref, PredictDuration(leg.duration, leg.distance, left), left)
        else leg;
      driven.(st := AfterStop(driven.st, driven.at, Fuel, BreakDuration, FuelReason))
    else leg
  }

  /** One step of `transform`'s inner loop. A zero-distance step is a pickup (first segment)
      or drop-off service stop; any other step passes the limit and fuel parts and drives
      what is left. */
  function AfterStep(g: Geometry, st: HosState, segIdx: int, stepIdx: int, step: Step): (r: HosState)
    requires StepFits(g.coords, step)
    ensures st.hosEvents < r.hosEvents && st.stops <= r.stops
  {
    var ref := StepRef(segIdx, stepIdx);
    if step.distance == 0.0 then
      AfterService(st, g.coords[step.wayPoints[1]], ref, if segIdx == 0 then PickupReason else DropoffReason)
    else
      var leg := FuelPhase(g, LimitPhase(g, st, step, ref), step, ref);
      AfterDrive(leg.st, leg.duration, leg.distance, ref, step.instruction)
  }

  /** The inner loop over a segment's steps. */
  function AfterSteps(g: Geometry, st: HosState, segIdx: int, steps: seq<Step>): (r: HosState)
    requires forall j :: 0 <= j < |steps| ==> StepFits(g.coords, steps[j])
    ensures st.hosEvents <= r.hosEvents && st.stops <= r.stops
    ensures |r.hosEvents| >= |st.hosEvents| + |steps|
  {
    if steps == [] then st
    else AfterStep(g, AfterSteps(g, st, segIdx, steps[..|steps| - 1]), segIdx, |steps| - 1, steps[|steps| - 1])
  }

  /** The outer loop over the route's segments. */
  function AfterSegments(g: Geometry, st: HosState, segments: seq<Segment>): (r: HosState)
    requires RouteFits(g.coords, segments)
    ensures st.hosEvents <= r.hosEvents && st.stops <= r.stops
  {
    if segments == [] then st
    else
      var n := |segments| - 1;
      RouteFitsPrefix(g.coords, segments, n);
      assert forall j :: 0 <= j < |segments[n].steps| ==> StepFits(g.coords, segments[n].steps[j]);
      AfterSteps(g, AfterSegments(g, st, segments[..n]), n, segments[n].steps)
  }
}
