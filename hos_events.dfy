/** The planner's timeline entries (`HosEvent`, `StopEvent` in
    trip_eld_backend/core/transformer.py). Optional fields are the keys a dict may lack. */
module HosEvents {
  import opened Wrappers

  /** A route coordinate in the routing service's [lon, lat] order. */
  datatype Coord = Coord(lon: real, lat: real)

  /** `HosEventType`. */
  datatype HosKind = Break | Rest | Service | Drive | Fuel

  /** The `segment_index` and `step_index` keys of a drive or service event. */
  datatype StepRef = StepRef(segmentIndex: int, stepIndex: int)

  datatype HosEvent = HosEvent(
    kind: HosKind,
    durationSeconds: int,
    timeFromStartSeconds: int,
    reason: Option<string>,
    location: Option<Coord>,
    distanceMeters: Option<real>,
    stepRef: Option<StepRef>,
    instruction: Option<string>)

  function Last<T>(s: seq<T>): T
    requires s != []
  {
    s[|s| - 1]
  }

  /** The `stops` entry recorded with a non-drive event: a break, rest or fuel stop is the
      event itself, a service stop is a copy without the step reference. */
  function StopOf(e: HosEvent): (s: HosEvent)
    ensures s.kind == e.kind && s.durationSeconds == e.durationSeconds
    ensures s.timeFromStartSeconds == e.timeFromStartSeconds
    ensures s.reason == e.reason && s.location == e.location
    ensures e.kind != Service ==> s == e
    ensures e.kind == Service ==> s.stepRef.None?
  {
    if e.kind == Service then e.(stepRef := None) else e
  }

  /** The stops a timeline records: one per non-drive event, in timeline order. */
  function StopsOf(evs: seq<HosEvent>): (stops: seq<HosEvent>)
    ensures |stops| <= |evs|
    ensures forall s :: s in stops ==> s.kind != Drive
  {
    if evs == [] then []
    else if Last(evs).kind == Drive then StopsOf(evs[..|evs| - 1])
    else StopsOf(evs[..|evs| - 1]) + [StopOf(Last(evs))]
  }

  lemma StopsOfAppend(evs: seq<HosEvent>, e: HosEvent)
    ensures StopsOf(evs + [e]) == StopsOf(evs) + (if e.kind == Drive then [] else [StopOf(e)])
  {
    assert (evs + [e])[..|evs|] == evs;
  }

  /** Sum of the `duration_seconds` of a list of events. */
  function DurationSum(evs: seq<HosEvent>): int {
    if evs == [] then 0 else DurationSum(evs[..|evs| - 1]) + Last(evs).durationSeconds
  }

  lemma DurationSumAppend(evs: seq<HosEvent>, more: seq<HosEvent>)
    ensures DurationSum(evs + more) == DurationSum(evs) + DurationSum(more)
  {
    if more == [] {
      assert evs + more == evs;
    } else {
      assert (evs + more)[..|evs + more| - 1] == evs + more[..|more| - 1];
      DurationSumAppend(evs, more[..|more| - 1]);
    }
  }

  /** Sum of the distances of the drive events of a list. */
  function DrivenDistance(evs: seq<HosEvent>): real {
    if evs == [] then 0.0
    else
      var last := Last(evs);
      DrivenDistance(evs[..|evs| - 1]) + (if last.kind == Drive then last.distanceMeters.GetOr(0.0) else 0.0)
  }

  lemma DrivenDistanceAppend(evs: seq<HosEvent>, more: seq<HosEvent>)
    ensures DrivenDistance(evs + more) == DrivenDistance(evs) + DrivenDistance(more)
  {
    if more == [] {
      assert evs + more == evs;
    } else {
      assert (evs + more)[..|evs + more| - 1] == evs + more[..|more| - 1];
      DrivenDistanceAppend(evs, more[..|more| - 1]);
    }
  }
}
