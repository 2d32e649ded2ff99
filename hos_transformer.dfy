/** The `Transformer` class of trip_eld_backend/core/transformer.py: its counters are fields
    that the `record_*` methods update in place, `transform` walks the route with nested
    loops, and `get_eld` folds the timeline into day logs. Each method is proved against the
    functions of `HosPlan` and `EldBuilder`. */
module HosTransformer {
  import opened Wrappers
  import opened JsNumbers
  import opened HosClock
  import opened HosEvents
  import opened EldBuilder
  import opened HosPlan

  const SummaryNotes: string := "Stops placed at previous step boundary; 30-min breaks inserted when next step would exceed 8h driving; 10h rest inserted when next step would exceed 11h driving; 1h service at intermediate waypoints."

  datatype HosSummary = HosSummary(
    originalTravelSeconds: int,
    addedStopSeconds: int,
    totalItinerarySeconds: int,
    totalDistance: real,
    cyclesUsedEnd: int,
    cyclesRemaining: int,
    notes: string)

  /** The `hos_summary` of `transform`: the route's own travel time, the time the stops
      add, their sum as the itinerary, and the cycle hours used and left at the end. */
  function Summarize(travelSeconds: real, stops: seq<HosEvent>, distance: real, cycleUsed: int): (s: HosSummary)
    ensures s.addedStopSeconds == DurationSum(stops) && s.totalDistance == distance
    ensures s.totalItinerarySeconds == Trunc(travelSeconds + DurationSum(stops) as real)
    ensures s.cyclesUsedEnd + s.cyclesRemaining == CycleDuration && s.cyclesUsedEnd == cycleUsed
    ensures s.originalTravelSeconds == Trunc(travelSeconds) && s.notes == SummaryNotes
  {
    var totalStopSeconds := DurationSum(stops);
    var itinerary := travelSeconds + totalStopSeconds as real;
    HosSummary(Trunc(travelSeconds), totalStopSeconds, Trunc(itinerary), distance,
               cycleUsed, CycleDuration - cycleUsed, SummaryNotes)
  }

  /** Stops only add time: the itinerary is never shorter than the travel time. */
  lemma ItineraryCoversTravel(travelSeconds: real, stops: seq<HosEvent>, distance: real, cycleUsed: int)
    requires 0.0 <= travelSeconds && DurationSum(stops) >= 0
    ensures var s := Summarize(travelSeconds, stops, distance, cycleUsed);
      0 <= s.originalTravelSeconds <= s.totalItinerarySeconds
  {
    TruncMonotone(travelSeconds, travelSeconds + DurationSum(stops) as real);
  }

  /** The dict `transform` returns. */
  datatype TransformResult = TransformResult(
    bbox: seq<real>,
    stops: seq<HosEvent>,
    hosEvents: seq<HosEvent>,
    eld: seq<DayLog>,
    itineraryTotalSeconds: int,
    hosSummary: HosSummary)

  class Transformer {
    const initialTime: int
    const usedCycle: int
    const route: Route
    const bbox: seq<real>
    const coords: seq<Coord>
    const pointAlongLine: (seq<Coord>, real) -> Coord

    var hosEvents: seq<HosEvent>
    var stops: seq<HosEvent>
    var cumulativeDriving: int
    var consecutiveDriving: int
    var cumulativeOnDuty: int
    var totalCycleOnDuty: int
    var secondsElapsed: real
    var cumulativeDistance: real

    /** The fields the `record_*` methods change. */
    function State(): HosState
      reads this
    {
      HosState(hosEvents, stops, cumulativeDriving, consecutiveDriving, cumulativeOnDuty,
               totalCycleOnDuty, secondsElapsed, cumulativeDistance)
    }

    function Geom(): Geometry {
      Geometry(coords, pointAlongLine)
    }

    /** `__init__`, given the decoded geometry of the first route and the request time. */
    constructor(route: Route, bbox: seq<real>, coords: seq<Coord>, pointAlongLine: (seq<Coord>, real) -> Coord,
                usedCycle: int, requestTimestamp: int)
      ensures this.initialTime == SnapToNextDay(requestTimestamp)
      ensures this.route == route && this.bbox == bbox && this.coords == coords && this.usedCycle == usedCycle
      ensures this.pointAlongLine == pointAlongLine
      ensures State() == Initial(usedCycle)
    {
      this.initialTime := SnapToNextDay(requestTimestamp);
      this.route := route;
      this.bbox := bbox;
      this.coords := coords;
      this.pointAlongLine := pointAlongLine;
      this.usedCycle := usedCycle;
      hosEvents := [];
      stops := [];
      cumulativeDriving := 0;
      consecutiveDriving := 0;
      cumulativeOnDuty := 0;
      totalCycleOnDuty := usedCycle;
      secondsElapsed := 0.0;
      cumulativeDistance := 0.0;
    }

    /** `record_break_or_rest`. */
    method RecordBreakOrRest(at: Coord, kind: HosKind, duration: int, reason: string)
      modifies this
      ensures State() == AfterStop(old(State()), at, kind, duration, reason)
    {
      var ev := HosEvent(kind, duration, Trunc(secondsElapsed), Some(reason), Some(at), None, None, None);
      hosEvents := hosEvents + [ev];
      stops := stops + [ev];
      secondsElapsed := secondsElapsed + duration as real;
      if kind == Rest {
        cumulativeDriving := 0;
        cumulativeOnDuty := 0;
        consecutiveDriving := 0;
        if duration == CycleRest {
          totalCycleOnDuty := 0;
        }
      } else if kind == Break {
        consecutiveDriving := 0;
      } else if kind == Fuel {
        consecutiveDriving := 0;
        cumulativeDistance := 0.0;
        totalCycleOnDuty := totalCycleOnDuty + duration;
      }
    }

    /** `record_drive`. */
    method RecordDrive(duration: real, distance: real, segIdx: int, stepIdx: int, instruction: string)
      modifies this
      ensures State() == AfterDrive(old(State()), duration, distance, StepRef(segIdx, stepIdx), instruction)
    {
      var event := HosEvent(Drive, Trunc(duration), Trunc(secondsElapsed), None, None, Some(distance),
                            Some(StepRef(segIdx, stepIdx)), Some(instruction));
      hosEvents := hosEvents + [event];
      cumulativeDriving := cumulativeDriving + Trunc(duration);
      consecutiveDriving := consecutiveDriving + Trunc(duration);
      cumulativeOnDuty := cumulativeOnDuty + Trunc(duration);
      secondsElapsed := secondsElapsed + duration;
      cumulativeDistance := cumulativeDistance + distance;
      totalCycleOnDuty := totalCycleOnDuty + Trunc(duration);
    }

    /** `record_service`. */
    method RecordService(at: Coord, segIdx: int, stepIdx: int, reason: string)
      modifies this
      ensures State() == AfterService(old(State()), at, StepRef(segIdx, stepIdx), reason)
    {
      var event := HosEvent(Service, PickupDropoffService, Trunc(secondsElapsed), Some(reason), Some(at), None,
                            Some(StepRef(segIdx, stepIdx)), None);
      hosEvents := hosEvents + [event];
      stops := stops + [HosEvent(Service, PickupDropoffService, Trunc(secondsElapsed), Some(reason), Some(at),
                                 None, None, None)];
      cumulativeOnDuty := cumulativeOnDuty + PickupDropoffService;
      secondsElapsed := secondsElapsed + PickupDropoffService as real;
      totalCycleOnDuty := totalCycleOnDuty + PickupDropoffService;
      consecutiveDriving := 0;
    }

    /** The body of `transform`'s inner loop for one step. */
    method ProcessStep(segIdx: int, stepIdx: int, step: Step)
      requires StepFits(coords, step)
      modifies this
      ensures State() == AfterStep(Geom(), old(State()), segIdx, stepIdx, step)
    {
      if step.distance == 0.0 {
        var reason := if segIdx == 0 then PickupReason else DropoffReason;
        RecordService(coords[step.wayPoints[1]], segIdx, stepIdx, reason);
        return;
      }
      var stepDuration, stepDistance, prevCoord := DriveToLimit(segIdx, stepIdx, step);
      stepDuration, stepDistance, prevCoord := DriveToFuelStop(segIdx, stepIdx, step, stepDuration, stepDistance, prevCoord);
      RecordDrive(stepDuration, stepDistance, segIdx, stepIdx, step.instruction);
    }

    /** Lines of `transform` that check the three limits and, when one is reached, drive up
        to it and stop; returns the step time and distance left and where the truck is. */
    method DriveToLimit(segIdx: int, stepIdx: int, step: Step) returns (stepDuration: real, stepDistance: real, prevCoord: Coord)
      requires StepFits(coords, step)
      modifies this
      ensures Leg(State(), stepDuration, stepDistance, prevCoord) ==
        LimitPhase(Geom(), old(State()), step, StepRef(segIdx, stepIdx))
    {
      ghost var st0 := State();
      stepDistance := step.distance;
      stepDuration := step.duration;
      var needsRest := cumulativeDriving as real + stepDuration >= DriveLimit as real;
      var needs30mBreak := consecutiveDriving as real + stepDuration >= BreakAfterDrive as real;
      var isOverCycle := totalCycleOnDuty as real + stepDuration >= CycleDuration as real;
      prevCoord := coords[step.wayPoints[0]];
      var segmentCoords := StepCoords(coords, step);
      ghost var limit := LimitFor(st0, step.duration);

      if needsRest || needs30mBreak || isOverCycle {
        var remainingTime;
        if isOverCycle {
          remainingTime := CycleDuration - totalCycleOnDuty;
        } else if needsRest {
          remainingTime := DriveLimit - cumulativeDriving;
        } else {
          remainingTime := BreakAfterDrive - consecutiveDriving;
        }
        assert remainingTime == limit.value.remaining;
        if remainingTime > 0 {
          var durationAfterRest := stepDuration - remainingTime as real;
          var remainingDistance := PredictDistance(stepDuration, stepDistance, remainingTime as real);
          var distanceAfterRest := stepDistance - remainingDistance;
          RecordDrive(remainingTime as real, remainingDistance, segIdx, stepIdx, step.instruction);
          stepDuration := durationAfterRest;
          stepDistance := distanceAfterRest;
          prevCoord := pointAlongLine(segmentCoords, remainingDistance);
        }
      }
      if isOverCycle {
        RecordBreakOrRest(prevCoord, Rest, CycleRest, CycleReason);
      } else if needsRest {
        RecordBreakOrRest(prevCoord, Rest, TenHourRest, RestReason);
      } else if needs30mBreak {
        RecordBreakOrRest(prevCoord, Break, BreakDuration, BreakReason);
      }
    }

    /** Lines of `transform` that, once 1,000 miles would be passed, drive up to the 1,000th
        mile and take a fuel stop. */
    method DriveToFuelStop(segIdx: int, stepIdx: int, step: Step, duration: real, distance: real, at: Coord)
      returns (stepDuration: real, stepDistance: real, prevCoord: Coord)
      requires StepFits(coords, step)
      modifies this
      ensures Leg(State(), stepDuration, stepDistance, prevCoord) ==
        FuelPhase(Geom(), Leg(old(State()), duration, distance, at), step, StepRef(segIdx, stepIdx))
    {
      stepDuration, stepDistance, prevCoord := duration, distance, at;
      var segmentCoords := StepCoords(coords, step);
      var needsFueling := cumulativeDistance + stepDistance >= DistanceLimit;
      if needsFueling {
        var remainingDistance := DistanceLimit - cumulativeDistance;
        if remainingDistance > 0.0 {
          var distanceAfterRest := stepDistance - remainingDistance;
          var remainingTime := PredictDuration(stepDuration, stepDistance, remainingDistance);
          var durationAfterRest := stepDuration - remainingTime;
          RecordDrive(remainingTime, remainingDistance, segIdx, stepIdx, step.instruction);
          stepDuration := durationAfterRest;
          stepDistance := distanceAfterRest;
          prevCoord := pointAlongLine(segmentCoords, remainingDistance);
        }
        RecordBreakOrRest(prevCoord, Fuel, BreakDuration, FuelReason);
      }
    }

    /** `get_eld`: folds the timeline into day logs, one loop iteration per event. */
    method GetEld() returns (elds: seq<DayLog>)
      ensures elds == GetEldSpec(initialTime, hosEvents)
    {
      var evs, start := hosEvents, initialTime;
      if |evs| == 0 {
        return [];
      }
      elds := [EmptyDay(start)];
      var curTotal := 0;
      var i := 0;
      assert evs[..0] == [];
      while i < |evs|
        invariant 0 <= i <= |evs|
        invariant EldFold(elds, curTotal) == EldRun(start, evs[..i])
      {
        EldRunExtend(start, evs, i);
        elds, curTotal := FileEvent(elds, curTotal, evs[i]);
        i := i + 1;
      }
      assert evs[..i] == evs;
    }

    /** The inner loop of `transform`: plans the steps of one segment in order. */
    method ProcessSegment(segIdx: int, steps: seq<Step>)
      requires forall j :: 0 <= j < |steps| ==> StepFits(coords, steps[j])
      modifies this
      ensures State() == AfterSteps(Geom(), old(State()), segIdx, steps)
    {
      ghost var before := State();
      var stepIdx := 0;
      while stepIdx < |steps|
        invariant 0 <= stepIdx <= |steps|
        invariant State() == AfterSteps(Geom(), before, segIdx, steps[..stepIdx])
      {
        assert steps[..stepIdx + 1][..stepIdx] == steps[..stepIdx];
        ProcessStep(segIdx, stepIdx, steps[stepIdx]);
        stepIdx := stepIdx + 1;
      }
      assert steps[..stepIdx] == steps;
    }

    /** The outer loop of `transform`: plans the route's segments in order. */
    method PlanRoute()
      requires RouteFits(coords, route.segments)
      modifies this
      ensures State() == AfterSegments(Geom(), old(State()), route.segments)
    {
      ghost var st0 := State();
      var segments := route.segments;
      var segIdx := 0;
      while segIdx < |segments|
        invariant 0 <= segIdx <= |segments|
        invariant State() == AfterSegments(Geom(), st0, segments[..segIdx])
      {
        var steps := segments[segIdx].steps;
        assert forall j :: 0 <= j < |steps| ==> StepFits(coords, steps[j]);
        ghost var prefix := segments[..segIdx + 1];
        assert prefix[..segIdx] == segments[..segIdx];
        RouteFitsPrefix(coords, segments, segIdx + 1);
        RouteFitsPrefix(coords, segments, segIdx);
        assert AfterSegments(Geom(), st0, prefix) == AfterSteps(Geom(), AfterSegments(Geom(), st0, segments[..segIdx]), segIdx, steps);
        ProcessSegment(segIdx, steps);
        segIdx := segIdx + 1;
      }
      assert segments[..segIdx] == segments;
    }

    /** `transform`: plans every step of every segment, then reports the timeline, the day
        logs and the summary. */
    method Transform() returns (res: TransformResult)
      requires RouteFits(coords, route.segments)
      modifies this
      ensures State() == AfterSegments(Geom(), old(State()), route.segments)
      ensures res.bbox == bbox && res.stops == stops && res.hosEvents == hosEvents
      ensures res.eld == GetEldSpec(initialTime, hosEvents)
      ensures res.hosSummary == Summarize(route.summaryDuration, stops, route.summaryDistance, totalCycleOnDuty)
      ensures res.itineraryTotalSeconds == res.hosSummary.totalItinerarySeconds
    {
      PlanRoute();
      var eld := GetEld();
      var summary := Summarize(route.summaryDuration, stops, route.summaryDistance, totalCycleOnDuty);
      res := TransformResult(bbox, stops, hosEvents, eld, summary.totalItinerarySeconds, summary);
    }
  }

  /** The body of `get_eld`'s loop: files one timeline event into the logs, splitting it at
      midnight when it runs past the current log's day. */
  method FileEvent(elds: seq<DayLog>, curTotal: int, event: HosEvent) returns (logs: seq<DayLog>, total: int)
    requires elds != []
    ensures EldFold(logs, total) == EldStep(EldFold(elds, curTotal), event)
  {
    logs := elds;
    total := curTotal;
    var n := |logs| - 1;
    var eventType := StatusOf(event.kind);
    var logEvents := logs[n].logEvents;
    if CrossesDay(logs[n].startTime, total + event.durationSeconds) {
      var splittableSeconds := SecondsUntilMidnight(logs[n].startTime, total);
      var splittedEvent := event.durationSeconds > splittableSeconds;
      var newEld := EmptyDay(NextMidnight(logs[n].startTime));
      if splittedEvent {
        var evSeconds := event.durationSeconds - splittableSeconds;
        var day := logs[n].(logEvents := AddEvent(logEvents, eventType, total, splittableSeconds, event.reason));
        logs := logs[..n] + [AddTotalCounts(eventType, day, splittableSeconds)];
        newEld := newEld.(logEvents := AddEvent(newEld.logEvents, eventType, 0, evSeconds, event.reason));
        newEld := AddTotalCounts(eventType, newEld, evSeconds);
        logs := logs + [newEld];
        total := evSeconds;
        return;
      }
      logs := logs + [newEld];
      n := |logs| - 1;
      total := 0;
      logEvents := newEld.logEvents;
    }
    var updated := logs[n].(logEvents := AddEvent(logEvents, eventType, total, event.durationSeconds, event.reason));
    logs := logs[..n] + [AddTotalCounts(eventType, updated, event.durationSeconds)];
    total := total + event.durationSeconds;
  }
}
