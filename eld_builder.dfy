/** Building the per-day ELD logs from the planner's timeline (`add_event`,
    `add_total_counts` and `Transformer.get_eld` in trip_eld_backend/core/transformer.py).
    A log dict is a `DayLog` value; an update in place is a function returning the new value. */
module EldBuilder {
  import opened Wrappers
  import opened HosClock
  import opened HosEvents

  /** `ELDEventType`: "off_duty", "on_duty" or "drive". */
  datatype DutyStatus = OffDuty | OnDuty | Driving

  /** The duty status `get_eld` files a timeline event under. */
  function StatusOf(k: HosKind): (s: DutyStatus)
    ensures s == OffDuty <==> (k == Break || k == Rest)
    ensures s == OnDuty <==> (k == Service || k == Fuel)
    ensures s == Driving <==> k == Drive
  {
    match k
    case Break => OffDuty
    case Rest => OffDuty
    case Service => OnDuty
    case Fuel => OnDuty
    case Drive => Driving
  }

  datatype LogEvent = LogEvent(
    status: DutyStatus,
    remark: Option<string>,
    timeFromStartSeconds: int,
    durationSeconds: int)

  datatype DayLog = DayLog(
    startTime: int,
    logEvents: seq<LogEvent>,
    totalDriving: int,
    totalOffDuty: int,
    totalOnDuty: int)

  /** The day total kept for one status. */
  function Total(day: DayLog, s: DutyStatus): int {
    match s
    case Driving => day.totalDriving
    case OffDuty => day.totalOffDuty
    case OnDuty => day.totalOnDuty
  }

  /** A fresh log: no events and all three totals 0. */
  function EmptyDay(startTime: int): (day: DayLog)
    ensures day.startTime == startTime && day.logEvents == []
    ensures forall s :: Total(day, s) == 0
  {
    DayLog(startTime, [], 0, 0, 0)
  }

  /** Sum of the durations of a day's events. */
  function EventSum(evs: seq<LogEvent>): int {
    if evs == [] then 0 else EventSum(evs[..|evs| - 1]) + evs[|evs| - 1].durationSeconds
  }

  /** Sum of the durations of a day's events of one status. */
  function StatusSum(evs: seq<LogEvent>, s: DutyStatus): int {
    if evs == [] then 0
    else
      var last := evs[|evs| - 1];
      StatusSum(evs[..|evs| - 1], s) + (if last.status == s then last.durationSeconds else 0)
  }

  /** The three status sums partition the day's time. */
  lemma {:induction false} StatusSumsPartition(evs: seq<LogEvent>)
    ensures StatusSum(evs, OffDuty) + StatusSum(evs, OnDuty) + StatusSum(evs, Driving) == EventSum(evs)
  {
    if evs != [] {
      StatusSumsPartition(evs[..|evs| - 1]);
    }
  }

  /** No two neighbouring events of a day share a status. */
  predicate NoAdjacentSame(evs: seq<LogEvent>) {
    forall i :: 0 < i < |evs| ==> evs[i - 1].status != evs[i].status
  }

  /** A new log event: the remark is kept only for off-duty and on-duty events. */
  function NewEvent(status: DutyStatus, timeFromStart: int, duration: int, remark: Option<string>): (e: LogEvent)
    ensures e.status == status && e.timeFromStartSeconds == timeFromStart && e.durationSeconds == duration
    ensures e.remark == (if status == Driving then None else remark)
  {
    LogEvent(status, if status == Driving then None else remark, timeFromStart, duration)
  }

  /** `add_event`: extends the last event when it has the same status, otherwise appends a
      new one. */
  function AddEvent(logEvents: seq<LogEvent>, status: DutyStatus, timeFromStart: int, duration: int,
                    remark: Option<string>): (r: seq<LogEvent>)
    ensures logEvents == [] ==> r == [NewEvent(status, timeFromStart, duration, remark)]
    ensures logEvents != [] && logEvents[|logEvents| - 1].status == status ==>
      var last := logEvents[|logEvents| - 1];
      |r| == |logEvents| && r[..|r| - 1] == logEvents[..|logEvents| - 1] &&
      r[|r| - 1] == last.(durationSeconds := last.durationSeconds + duration)
    ensures logEvents != [] && logEvents[|logEvents| - 1].status != status ==>
      r == logEvents + [NewEvent(status, timeFromStart, duration, remark)]
    ensures r != [] && r[|r| - 1].status == status
  {
    if logEvents == [] then
      [NewEvent(status, timeFromStart, duration, remark)]
    else
      var n := |logEvents| - 1;
      var prev := logEvents[n];
      if prev.status == status then
        var r := logEvents[..n] + [prev.(durationSeconds := prev.durationSeconds + duration)];
        assert r[..n] == logEvents[..n];
        r
      else
        var r := logEvents + [NewEvent(status, timeFromStart, duration, remark)];
        assert r[..|logEvents|] == logEvents;
        r
  }

  /** `add_event` adds exactly the duration to the day's time and to its status's time, and
      never makes two neighbouring events share a status. */
  lemma AddEventAccounts(logEvents: seq<LogEvent>, status: DutyStatus, timeFromStart: int, duration: int,
                         remark: Option<string>)
    ensures var r := AddEvent(logEvents, status, timeFromStart, duration, remark);
      && EventSum(r) == EventSum(logEvents) + duration
      && (forall s :: StatusSum(r, s) == StatusSum(logEvents, s) + (if s == status then duration else 0))
      && (NoAdjacentSame(logEvents) ==> NoAdjacentSame(r))
  {
    var r := AddEvent(logEvents, status, timeFromStart, duration, remark);
    if logEvents != [] {
      var n := |logEvents| - 1;
      if logEvents[n].status == status {
        assert r[..n] == logEvents[..n];
      } else {
        assert r[..|logEvents|] == logEvents;
      }
    }
  }

  /** `add_total_counts`: adds the duration to exactly the total of the event's status. */
  function AddTotalCounts(status: DutyStatus, day: DayLog, duration: int): (r: DayLog)
    ensures r.startTime == day.startTime && r.logEvents == day.logEvents
    ensures forall s :: Total(r, s) == Total(day, s) + (if s == status then duration else 0)
  {
    match status
    case Driving => day.(totalDriving := day.totalDriving + duration)
    case OffDuty => day.(totalOffDuty := day.totalOffDuty + duration)
    case OnDuty => day.(totalOnDuty := day.totalOnDuty + duration)
  }

  /** A day whose totals are its events' per-status sums and whose neighbouring events
      differ in status. */
  predicate DayConsistent(day: DayLog) {
    && (forall s :: Total(day, s) == StatusSum(day.logEvents, s))
    && NoAdjacentSame(day.logEvents)
  }

  /** `add_event` followed by `add_total_counts` on the same log. */
  function AddToDay(day: DayLog, status: DutyStatus, timeFromStart: int, duration: int,
                    remark: Option<string>): (r: DayLog)
    ensures r.startTime == day.startTime
    ensures r.logEvents == AddEvent(day.logEvents, status, timeFromStart, duration, remark)
    ensures DayConsistent(day) ==> DayConsistent(r)
    ensures EventSum(r.logEvents) == EventSum(day.logEvents) + duration
    ensures forall s :: Total(r, s) == Total(day, s) + (if s == status then duration else 0)
  {
    AddEventAccounts(day.logEvents, status, timeFromStart, duration, remark);
    AddTotalCounts(status, day.(logEvents := AddEvent(day.logEvents, status, timeFromStart, duration, remark)), duration)
  }

  /** The log `get_eld` opens after `day`: midnight of the following date. */
  function NextDay(day: DayLog): (r: DayLog)
    ensures r == EmptyDay(NextMidnight(day.startTime))
    ensures DayConsistent(r)
  {
    EmptyDay(NextMidnight(day.startTime))
  }

  /** The loop state of `get_eld`: the logs so far and `cur_total`, the offset of the next
      event in the last log. */
  datatype EldFold = EldFold(logs: seq<DayLog>, curTotal: int)

  /** One iteration of `get_eld`'s loop. An event that reaches the next midnight opens a new
      log; if it runs past midnight, the part up to midnight stays in the current log and the
      rest starts the new one; an event that ends exactly at midnight moves whole. */
  function EldStep(f: EldFold, e: HosEvent): (g: EldFold)
    requires f.logs != []
    ensures |f.logs| <= |g.logs| <= |f.logs| + 1
    ensures forall i :: 0 <= i < |f.logs| ==> g.logs[i].startTime == f.logs[i].startTime
    ensures g.logs[..|f.logs| - 1] == f.logs[..|f.logs| - 1]
    ensures |g.logs| == |f.logs| + 1 ==>
      g.logs[|g.logs| - 1].startTime == NextMidnight(f.logs[|f.logs| - 1].startTime)
  {
    var n := |f.logs| - 1;
    var day := f.logs[n];
    var status := StatusOf(e.kind);
    var d := e.durationSeconds;
    if CrossesDay(day.startTime, f.curTotal + d) then
      var splittable := SecondsUntilMidnight(day.startTime, f.curTotal);
      if d > splittable then
        var rest := d - splittable;
        EldFold(f.logs[..n] + [AddToDay(day, status, f.curTotal, splittable, e.reason),
                               AddToDay(NextDay(day), status, 0, rest, e.reason)], rest)
      else
        EldFold(f.logs + [AddToDay(NextDay(day), status, 0, d, e.reason)], d)
    else
      EldFold(f.logs[..n] + [AddToDay(day, status, f.curTotal, d, e.reason)], f.curTotal + d)
  }

  /** `get_eld`'s loop over the first events: one log at `initialTime`, then a step per event. */
  function EldRun(initialTime: int, evs: seq<HosEvent>): (f: EldFold)
    ensures f.logs != [] && f.logs[0].startTime == initialTime
  {
    if evs == [] then EldFold([EmptyDay(initialTime)], 0)
    else EldStep(EldRun(initialTime, evs[..|evs| - 1]), Last(evs))
  }

  /** Running one more event of a timeline is one more step of the fold. */
  lemma EldRunExtend(initialTime: int, evs: seq<HosEvent>, i: int)
    requires 0 <= i < |evs|
    ensures EldRun(initialTime, evs[..i + 1]) == EldStep(EldRun(initialTime, evs[..i]), evs[i])
  {
    assert evs[..i + 1][..i] == evs[..i];
  }

  /** `get_eld`: no logs for an empty timeline, otherwise the logs of the whole run. */
  function GetEldSpec(initialTime: int, evs: seq<HosEvent>): (logs: seq<DayLog>)
    ensures evs == [] <==> logs == []
    ensures logs != [] ==> logs[0].startTime == initialTime
  {
    if evs == [] then [] else EldRun(initialTime, evs).logs
  }

  /** Each log after the first starts at the midnight following the previous log's start. */
  predicate Chained(logs: seq<DayLog>) {
    forall i :: 0 < i < |logs| ==> logs[i].startTime == NextMidnight(logs[i - 1].startTime)
  }

  /** A day total summed over all logs. */
  function DaysTotal(logs: seq<DayLog>, s: DutyStatus): int {
    if logs == [] then 0 else DaysTotal(logs[..|logs| - 1], s) + Total(logs[|logs| - 1], s)
  }

  /** All logged event time summed over all logs. */
  function DaysEventSum(logs: seq<DayLog>): int {
    if logs == [] then 0 else DaysEventSum(logs[..|logs| - 1]) + EventSum(logs[|logs| - 1].logEvents)
  }

  /** The timeline time filed under one status. */
  function HosStatusSum(evs: seq<HosEvent>, s: DutyStatus): int {
    if evs == [] then 0
    else HosStatusSum(evs[..|evs| - 1], s) + (if StatusOf(Last(evs).kind) == s then Last(evs).durationSeconds else 0)
  }

  lemma DaysAppend(logs: seq<DayLog>, day: DayLog, s: DutyStatus)
    ensures DaysTotal(logs + [day], s) == DaysTotal(logs, s) + Total(day, s)
    ensures DaysEventSum(logs + [day]) == DaysEventSum(logs) + EventSum(day.logEvents)
  {
    assert (logs + [day])[..|logs|] == logs;
  }

  /** One loop iteration keeps the start chain: a log it opens starts at the midnight after
      the previous log's start. */
  lemma EldStepChained(f: EldFold, e: HosEvent)
    requires f.logs != [] && Chained(f.logs)
    ensures Chained(EldStep(f, e).logs)
  {
    var g := EldStep(f, e);
    forall i | 0 < i < |g.logs|
      ensures g.logs[i].startTime == NextMidnight(g.logs[i - 1].startTime)
    {
      if i < |f.logs| {
        assert g.logs[i - 1].startTime == f.logs[i - 1].startTime;
      }
    }
  }

  /** One loop iteration keeps every log consistent. */
  lemma EldStepConsistent(f: EldFold, e: HosEvent)
    requires f.logs != []
    requires forall i :: 0 <= i < |f.logs| ==> DayConsistent(f.logs[i])
    ensures forall i :: 0 <= i < |EldStep(f, e).logs| ==> DayConsistent(EldStep(f, e).logs[i])
  {
    var g := EldStep(f, e);
    var n := |f.logs| - 1;
    forall i | 0 <= i < |g.logs|
      ensures DayConsistent(g.logs[i])
    {
      if i < n {
        assert g.logs[i] == f.logs[..n][i];
      }
    }
  }

  /** Filing `d` seconds of `status` into a log adds them to that log's totals. */
  lemma AddToDayAccounts(prefix: seq<DayLog>, day: DayLog, status: DutyStatus, at: int, d: int,
                         remark: Option<string>, s: DutyStatus)
    ensures var a := AddToDay(day, status, at, d, remark);
      && DaysTotal(prefix + [a], s) == DaysTotal(prefix, s) + Total(day, s) + (if status == s then d else 0)
      && DaysEventSum(prefix + [a]) == DaysEventSum(prefix) + EventSum(day.logEvents) + d
  {
    var a := AddToDay(day, status, at, d, remark);
    assert Total(a, s) == Total(day, s) + (if s == status then d else 0);
    DaysAppend(prefix, a, s);
  }

  /** An event split at midnight: both parts are filed under its status. */
  lemma SplitConserves(prefix: seq<DayLog>, day: DayLog, status: DutyStatus, at: int, part: int, d: int,
                       remark: Option<string>, s: DutyStatus)
    ensures var logs := prefix + [AddToDay(day, status, at, part, remark), AddToDay(NextDay(day), status, 0, d - part, remark)];
      && DaysTotal(logs, s) == DaysTotal(prefix, s) + Total(day, s) + (if status == s then d else 0)
      && DaysEventSum(logs) == DaysEventSum(prefix) + EventSum(day.logEvents) + d
  {
    var a := AddToDay(day, status, at, part, remark);
    var b := AddToDay(NextDay(day), status, 0, d - part, remark);
    assert prefix + [a, b] == (prefix + [a]) + [b];
    AddToDayAccounts(prefix, day, status, at, part, remark, s);
    AddToDayAccounts(prefix + [a], NextDay(day), status, 0, d - part, remark, s);
  }

  /** An event running past midnight is split: the part up to midnight stays in the
      current log, the rest opens the next one. */
  lemma EldStepSplitLogs(f: EldFold, e: HosEvent)
    requires f.logs != []
    requires var day := f.logs[|f.logs| - 1];
      CrossesDay(day.startTime, f.curTotal + e.durationSeconds) &&
      e.durationSeconds > SecondsUntilMidnight(day.startTime, f.curTotal)
    ensures var n := |f.logs| - 1;
      var day := f.logs[n];
      var part := SecondsUntilMidnight(day.startTime, f.curTotal);
      EldStep(f, e).logs == f.logs[..n] + [AddToDay(day, StatusOf(e.kind), f.curTotal, part, e.reason),
                                           AddToDay(NextDay(day), StatusOf(e.kind), 0, e.durationSeconds - part, e.reason)]
  {
  }

  /** An event reaching midnight but not past it moves whole to a new log. */
  lemma EldStepMoveLogs(f: EldFold, e: HosEvent)
    requires f.logs != []
    requires var day := f.logs[|f.logs| - 1];
      CrossesDay(day.startTime, f.curTotal + e.durationSeconds) &&
      e.durationSeconds <= SecondsUntilMidnight(day.startTime, f.curTotal)
    ensures EldStep(f, e).logs == f.logs + [AddToDay(NextDay(f.logs[|f.logs| - 1]), StatusOf(e.kind), 0, e.durationSeconds, e.reason)]
  {
  }

  /** An event within the day is added to the current log. */
  lemma EldStepStayLogs(f: EldFold, e: HosEvent)
    requires f.logs != []
    requires !CrossesDay(f.logs[|f.logs| - 1].startTime, f.curTotal + e.durationSeconds)
    ensures var n := |f.logs| - 1;
      EldStep(f, e).logs == f.logs[..n] + [AddToDay(f.logs[n], StatusOf(e.kind), f.curTotal, e.durationSeconds, e.reason)]
  {
  }

  /** One loop iteration files the event's whole duration under its status and adds it to
      the logged time, split or not. */
  lemma EldStepConserves(f: EldFold, e: HosEvent, s: DutyStatus)
    requires f.logs != []
    ensures var g := EldStep(f, e);
      && DaysTotal(g.logs, s) == DaysTotal(f.logs, s) + (if StatusOf(e.kind) == s then e.durationSeconds else 0)
      && DaysEventSum(g.logs) == DaysEventSum(f.logs) + e.durationSeconds
  {
    var n := |f.logs| - 1;
    var day := f.logs[n];
    var prefix := f.logs[..n];
    assert f.logs == prefix + [day];
    DaysAppend(prefix, day, s);
    var status := StatusOf(e.kind);
    var d := e.durationSeconds;
    var part := SecondsUntilMidnight(day.startTime, f.curTotal);
    if CrossesDay(day.startTime, f.curTotal + d) && d > part {
      EldStepSplitLogs(f, e);
      SplitConserves(prefix, day, status, f.curTotal, part, d, e.reason, s);
    } else if CrossesDay(day.startTime, f.curTotal + d) {
      EldStepMoveLogs(f, e);
      AddToDayAccounts(f.logs, NextDay(day), status, 0, d, e.reason, s);
    } else {
      EldStepStayLogs(f, e);
      AddToDayAccounts(prefix, day, status, f.curTotal, d, e.reason, s);
    }
  }

  /** The shape invariant of `get_eld`'s loop after any number of events. */
  lemma {:induction false} EldRunShape(initialTime: int, evs: seq<HosEvent>)
    ensures var f := EldRun(initialTime, evs);
      && Chained(f.logs)
      && (forall i :: 0 <= i < |f.logs| ==> DayConsistent(f.logs[i]))
  {
    if evs != [] {
      EldRunShape(initialTime, evs[..|evs| - 1]);
      EldStepChained(EldRun(initialTime, evs[..|evs| - 1]), Last(evs));
      EldStepConsistent(EldRun(initialTime, evs[..|evs| - 1]), Last(evs));
    }
  }

  /** The conservation invariant of `get_eld`'s loop after any number of events. */
  lemma {:induction false} EldRunConserves(initialTime: int, evs: seq<HosEvent>, s: DutyStatus)
    ensures var f := EldRun(initialTime, evs);
      && DaysTotal(f.logs, s) == HosStatusSum(evs, s)
      && DaysEventSum(f.logs) == DurationSum(evs)
  {
    if evs == [] {
      assert EldRun(initialTime, evs).logs == [] + [EmptyDay(initialTime)];
      DaysAppend([], EmptyDay(initialTime), s);
    } else {
      EldRunConserves(initialTime, evs[..|evs| - 1], s);
      EldStepConserves(EldRun(initialTime, evs[..|evs| - 1]), Last(evs), s);
    }
  }

  /** `get_eld`'s result: the first log starts at the initial time, each further log at the
      midnight after its predecessor's start; every day's totals are the per-status sums of
      its events, no two neighbouring events share a status, and over all days the logs hold
      exactly the timeline's time, status by status. */
  lemma GetEldProperties(initialTime: int, evs: seq<HosEvent>, s: DutyStatus)
    requires evs != []
    ensures var logs := GetEldSpec(initialTime, evs);
      && logs[0].startTime == initialTime
      && Chained(logs)
      && (forall i :: 0 <= i < |logs| ==> DayConsistent(logs[i]))
      && DaysTotal(logs, s) == HosStatusSum(evs, s)
      && DaysEventSum(logs) == DurationSum(evs)
  {
    EldRunShape(initialTime, evs);
    EldRunConserves(initialTime, evs, s);
  }

  /** An event that runs past the next midnight is split there: the part up to midnight is
      filed at offset `curTotal` in the current log, the rest at offset 0 in a new log that
      starts at the following midnight, and the offset becomes the rest. */
  lemma EldStepSplitsAtMidnight(f: EldFold, e: HosEvent)
    requires f.logs != []
    requires var day := f.logs[|f.logs| - 1];
      CrossesDay(day.startTime, f.curTotal + e.durationSeconds) &&
      e.durationSeconds > SecondsUntilMidnight(day.startTime, f.curTotal)
    ensures var g := EldStep(f, e);
      var n := |f.logs| - 1;
      var day := f.logs[n];
      var part := SecondsUntilMidnight(day.startTime, f.curTotal);
      var status := StatusOf(e.kind);
      && |g.logs| == |f.logs| + 1
      && g.logs[n].logEvents == AddEvent(day.logEvents, status, f.curTotal, part, e.reason)
      && g.logs[n + 1].startTime == NextMidnight(day.startTime)
      && g.logs[n + 1].logEvents == [NewEvent(status, 0, e.durationSeconds - part, e.reason)]
      && Total(g.logs[n + 1], status) == e.durationSeconds - part
      && g.curTotal == e.durationSeconds - part
  {
  }

  /** An event that ends exactly at the next midnight is not split: it moves whole to a new
      log at offset 0, and the current log is left as it was. */
  lemma EndingAtMidnightMovesWhole(f: EldFold, e: HosEvent)
    requires f.logs != [] && e.durationSeconds > 0
    requires var day := f.logs[|f.logs| - 1];
      DayOf(day.startTime + f.curTotal) == DayOf(day.startTime) &&
      day.startTime + f.curTotal + e.durationSeconds == NextMidnight(day.startTime)
    ensures var g := EldStep(f, e);
      && |g.logs| == |f.logs| + 1
      && g.logs[..|f.logs|] == f.logs
      && g.logs[|f.logs|].logEvents == [NewEvent(StatusOf(e.kind), 0, e.durationSeconds, e.reason)]
      && g.curTotal == e.durationSeconds
  {
    var day := f.logs[|f.logs| - 1];
    var t := day.startTime + f.curTotal;
    assert NextMidnight(t) == NextMidnight(day.startTime) by {
      assert DayOf(t) == DayOf(day.startTime);
    }
    assert e.durationSeconds == SecondsUntilMidnight(day.startTime, f.curTotal);
    assert CrossesDay(day.startTime, f.curTotal + e.durationSeconds);
  }

  /** The rest of a split is not split again: a 200000-second rest starting at midnight
      leaves 113600 seconds, more than a day, in the second log, and no third log is made. */
  lemma LongRemainderStaysInOneLog()
    ensures var rest := HosEvent(Rest, 200000, 0, Some("rest"), None, None, None, None);
      var logs := GetEldSpec(0, [rest]);
      |logs| == 2 && logs[1].totalOffDuty == 113600 && logs[1].totalOffDuty > SecondsPerDay
  {
    var rest := HosEvent(Rest, 200000, 0, Some("rest"), None, None, None, None);
    assert [rest][..0] == [];
    DayOfIs(0, 0);
    DayOfIs(200000, 2);
    assert SecondsUntilMidnight(0, 0) == SecondsPerDay;
  }

  /** A log dict as `add_event` and `add_total_counts` see it: an object whose event list
      and totals they update in place. */
  class DayRecord {
    const startTime: int
    var logEvents: seq<LogEvent>
    var totalDriving: int
    var totalOffDuty: int
    var totalOnDuty: int

    function Log(): DayLog
      reads this
    {
      DayLog(startTime, logEvents, totalDriving, totalOffDuty, totalOnDuty)
    }

    constructor(startTime: int)
      ensures Log() == EmptyDay(startTime)
    {
      this.startTime := startTime;
      logEvents := [];
      totalDriving, totalOffDuty, totalOnDuty := 0, 0, 0;
    }

    /** `add_event` on this log's event list: the last event grows in place, or a new
        one is appended. */
    method AppendEvent(status: DutyStatus, timeFromStart: int, duration: int, remark: Option<string>)
      modifies this`logEvents
      ensures logEvents == AddEvent(old(logEvents), status, timeFromStart, duration, remark)
    {
      if logEvents != [] {
        var n := |logEvents| - 1;
        var prev := logEvents[n];
        if prev.status == status {
          logEvents := logEvents[n := prev.(durationSeconds := prev.durationSeconds + duration)];
          assert logEvents[..n] == old(logEvents)[..n];
          return;
        }
      }
      logEvents := logEvents + [NewEvent(status, timeFromStart, duration, remark)];
    }

    /** `add_total_counts` on this log. */
    method CountTotals(status: DutyStatus, duration: int)
      modifies this`totalDriving, this`totalOffDuty, this`totalOnDuty
      ensures Log() == AddTotalCounts(status, old(Log()), duration)
    {
      match status
      case Driving => totalDriving := totalDriving + duration;
      case OffDuty => totalOffDuty := totalOffDuty + duration;
      case OnDuty => totalOnDuty := totalOnDuty + duration;
    }

    /** The pair of calls `get_eld` makes for each piece of an event; a consistent log
        stays consistent. */
    method File(status: DutyStatus, timeFromStart: int, duration: int, remark: Option<string>)
      modifies this`logEvents, this`totalDriving, this`totalOffDuty, this`totalOnDuty
      ensures Log() == AddToDay(old(Log()), status, timeFromStart, duration, remark)
      ensures DayConsistent(old(Log())) ==> DayConsistent(Log())
    {
      AppendEvent(status, timeFromStart, duration, remark);
      CountTotals(status, duration);
    }
  }
}
