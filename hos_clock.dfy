/** Time, truncation and proportion helpers of the hours-of-service planner
    (trip_eld_backend/core/transformer.py). Timestamps are integer UTC seconds, so a
    calendar date is the timestamp divided by the length of a day. */
module HosClock {
  import opened JsNumbers

  const SecondsPerDay: int := 86400

  /** Python's `int()` of a float: truncation toward zero. */
  function Trunc(x: real): (r: int)
    ensures x >= 0.0 ==> r as real <= x < r as real + 1.0
    ensures x < 0.0 ==> r as real - 1.0 < x <= r as real
  {
    if x >= 0.0 then x.Floor else -((-x).Floor)
  }

  lemma TruncMonotone(x: real, y: real)
    requires 0.0 <= x <= y
    ensures 0 <= Trunc(x) <= Trunc(y)
  {
  }

  /** `hours_to_seconds`. */
  function HoursToSeconds(hours: int): int {
    hours * 60 * 60
  }

  const DriveLimit: int := HoursToSeconds(11)
  const BreakAfterDrive: int := HoursToSeconds(8)
  const BreakDuration: int := 30 * 60
  const TenHourRest: int := HoursToSeconds(10)
  const PickupDropoffService: int := 60 * 60
  const CycleDuration: int := HoursToSeconds(70)
  const CycleRest: int := HoursToSeconds(34)
  const MeterPerMile: real := 1609.344
  const DistanceLimit: real := 1000.0 * MeterPerMile

  /** The UTC calendar day a timestamp falls on (`.date()`). */
  function DayOf(t: int): int {
    t / SecondsPerDay
  }

  /** A timestamp lies on day `k` exactly when it is inside that day's 86400 seconds. */
  lemma DayOfIs(t: int, k: int)
    requires k * SecondsPerDay <= t < k * SecondsPerDay + SecondsPerDay
    ensures DayOf(t) == k
  {
    DivModUnique(t, SecondsPerDay, k, t - k * SecondsPerDay);
  }

  /** The first moment of the day after `t`'s day. */
  function NextMidnight(t: int): (m: int)
    ensures m % SecondsPerDay == 0
    ensures t < m <= t + SecondsPerDay
    ensures DayOf(m) == DayOf(t) + 1
  {
    var m := (DayOf(t) + 1) * SecondsPerDay;
    DayOfIs(m, DayOf(t) + 1);
    m
  }

  /** `snap_to_next_day`: moves a request time that is at most 30 minutes before midnight
      to that midnight; otherwise keeps it. */
  function SnapToNextDay(t: int): (r: int)
    ensures t <= r <= t + 30 * 60
    ensures r == NextMidnight(t) <==> NextMidnight(t) - t <= 30 * 60
    ensures r != NextMidnight(t) ==> r == t
  {
    var next := NextMidnight(t);
    if next - t <= 30 * 60 then next else t
  }

  /** A snapped time is a midnight, which is a whole day from the next one: snapping twice
      snaps once. */
  lemma SnapToNextDayIdempotent(t: int)
    ensures SnapToNextDay(SnapToNextDay(t)) == SnapToNextDay(t)
  {
    var r := SnapToNextDay(t);
    if r != t {
      DayOfIs(r, r / SecondsPerDay);
      assert NextMidnight(r) == r + SecondsPerDay;
    }
  }

  lemma SnapToNextDayExamples()
    ensures SnapToNextDay(23 * 3600 + 45 * 60) == SecondsPerDay
    ensures SnapToNextDay(23 * 3600 + 30 * 60) == SecondsPerDay
    ensures SnapToNextDay(23 * 3600) == 23 * 3600
    ensures SnapToNextDay(SecondsPerDay) == SecondsPerDay
  {
    DayOfIs(23 * 3600 + 45 * 60, 0);
    DayOfIs(23 * 3600 + 30 * 60, 0);
    DayOfIs(23 * 3600, 0);
    DayOfIs(SecondsPerDay, 1);
  }

  /** `seconds_until_midnight`: the seconds from `start + curTotal` to the next midnight. */
  function SecondsUntilMidnight(start: int, curTotal: int): (r: int)
    ensures 0 < r <= SecondsPerDay
    ensures (start + curTotal + r) % SecondsPerDay == 0
    ensures DayOf(start + curTotal + r) == DayOf(start + curTotal) + 1
    ensures DayOf(start + curTotal + r - 1) == DayOf(start + curTotal)
  {
    var now := start + curTotal;
    var r := NextMidnight(now) - now;
    DayOfIs(now + r - 1, DayOf(now));
    r
  }

  /** `does_adding_seconds_cross_day`: adding `secs` to `start` changes its date. */
  function CrossesDay(start: int, secs: int): (r: bool)
    ensures secs == 0 ==> !r
    ensures 0 <= secs < SecondsUntilMidnight(start, 0) ==> !r
    ensures secs >= SecondsPerDay ==> r
  {
    var d := DayOf(start + secs);
    assert 0 <= secs < SecondsUntilMidnight(start, 0) ==> d == DayOf(start) by {
      if 0 <= secs < SecondsUntilMidnight(start, 0) {
        DayOfIs(start + secs, DayOf(start));
      }
    }
    assert secs >= SecondsPerDay ==> d > DayOf(start) by {
      if secs >= SecondsPerDay {
        assert start + secs >= NextMidnight(start) == (DayOf(start) + 1) * SecondsPerDay;
        assert start + secs < d * SecondsPerDay + SecondsPerDay;
      }
    }
    d != DayOf(start)
  }

  /** For a forward move, the date changes exactly when the move reaches the next midnight. */
  lemma CrossesDayIffReachesMidnight(start: int, secs: int)
    requires secs >= 0
    ensures CrossesDay(start, secs) <==> secs >= SecondsUntilMidnight(start, 0)
  {
    var r := SecondsUntilMidnight(start, 0);
    if secs >= r {
      var m := start + r;
      assert DayOf(m) == DayOf(start) + 1;
      DayOfIs(m, DayOf(m));
      var q := (start + secs) / SecondsPerDay;
      DayOfIs(start + secs, q);
      assert m <= start + secs;
      assert q * SecondsPerDay + SecondsPerDay > m;
      assert DayOf(m) * SecondsPerDay == m;
      MulAtLeast(q - DayOf(m) + 1, SecondsPerDay);
      assert q >= DayOf(m);
    }
  }

  /** `predict_distance`: the distance covered in `newDuration` at the step's average speed;
      0 for a step of no duration. */
  function PredictDistance(prevDuration: real, prevDistance: real, newDuration: real): (r: real)
    ensures prevDuration == 0.0 ==> r == 0.0
    ensures prevDuration != 0.0 ==> r * prevDuration == prevDistance * newDuration
    ensures 0.0 < prevDuration && 0.0 <= prevDistance && 0.0 <= newDuration <= prevDuration ==>
      0.0 <= r <= prevDistance
  {
    if prevDuration == 0.0 then 0.0
    else
      var r := (prevDistance * newDuration) / prevDuration;
      if 0.0 < prevDuration && 0.0 <= prevDistance && 0.0 <= newDuration <= prevDuration then
        assert prevDistance * newDuration <= prevDistance * prevDuration;
        r
      else r
  }

  /** `predict_duration`: the time needed for `newDistance` at the step's average speed;
      0 for a step of no distance. */
  function PredictDuration(prevDuration: real, prevDistance: real, newDistance: real): (r: real)
    ensures prevDistance == 0.0 ==> r == 0.0
    ensures prevDistance != 0.0 ==> r * prevDistance == newDistance * prevDuration
    ensures 0.0 < prevDistance && 0.0 <= prevDuration && 0.0 <= newDistance <= prevDistance ==>
      0.0 <= r <= prevDuration
  {
    if prevDistance == 0.0 then 0.0
    else
      var r := (newDistance * prevDuration) / prevDistance;
      if 0.0 < prevDistance && 0.0 <= prevDuration && 0.0 <= newDistance <= prevDistance then
        assert newDistance * prevDuration <= prevDistance * prevDuration;
        r
      else r
  }
}
