/** The 24-hour timeline of the daily log sheets
    (trip-eld-frontend/src/components/ELDLogSheets.tsx): `secToHms`, the position and
    width of each event bar, its colour and whether it carries a label. */
module EldTimeline {
  import opened JsNumbers
  import opened TripTypes

  const DayTotalSeconds: int := 24 * 3600

  datatype Hms = Hms(h: int, m: int, s: int)

  /** The three numbers `secToHms` prints: `Math.floor(seconds / 3600)`,
      `Math.floor((seconds % 3600) / 60)` and `Math.floor(seconds % 60)`. */
  function HmsParts(seconds: int): (p: Hms)
    ensures seconds >= 0 ==>
      && p.h == seconds / 3600
      && 0 <= p.m <= 59 && 0 <= p.s <= 59
      && p.h * 3600 + p.m * 60 + p.s == seconds
  {
    if seconds >= 0 then HmsDecomposition(seconds); Hms(seconds / 3600, JsRem(seconds, 3600) / 60, JsRem(seconds, 60))
    else Hms(seconds / 3600, JsRem(seconds, 3600) / 60, JsRem(seconds, 60))
  }

  lemma HmsDecomposition(n: nat)
    ensures n == (n / 3600) * 3600 + ((n % 3600) / 60) * 60 + n % 60
    ensures 0 <= (n % 3600) / 60 <= 59
  {
    var q, r := n / 3600, n % 3600;
    var m, s := r / 60, r % 60;
    assert r == m * 60 + s && 0 <= m <= 59;
    var k := q * 60 + m;
    assert n == k * 60 + s;
    DivModUnique(n, 60, k, s);
  }

  /** Hours, minutes and seconds are recovered from any duration built from them. */
  lemma HmsPartsOfParts(h: nat, m: nat, s: nat)
    requires m <= 59 && s <= 59
    ensures HmsParts(h * 3600 + m * 60 + s) == Hms(h, m, s)
  {
    var total := h * 3600 + m * 60 + s;
    var p := HmsParts(total);
    assert p.h == h by {
      assert h * 3600 <= total < h * 3600 + 3600;
      assert p.h * 3600 <= total < p.h * 3600 + 3600;
    }
    assert p.m * 60 + p.s == m * 60 + s;
    assert p.m == m;
  }

  /** `secToHms`: "<h>h <m>m", followed by " <s>s" only when the seconds part is not 0. */
  function SecToHms(seconds: int): (s: string)
    ensures seconds >= 0 ==> IntToString(seconds / 3600) + "h " <= s
    ensures seconds >= 0 ==> (s[|s| - 1] == 's' <==> seconds % 60 != 0)
  {
    var p := HmsParts(seconds);
    IntToString(p.h) + "h " + IntToString(p.m) + "m" + (if p.s != 0 then " " + IntToString(p.s) + "s" else "")
  }

  /** The seconds part is printed exactly when it is not 0. */
  lemma SecToHmsOmitsZeroSeconds(seconds: int)
    ensures var p := HmsParts(seconds);
      && (p.s == 0 ==> SecToHms(seconds) == IntToString(p.h) + "h " + IntToString(p.m) + "m")
      && (SecToHms(seconds)[|SecToHms(seconds)| - 1] == 's' <==> p.s != 0)
  {
  }

  /** Seconds from the UTC midnight of the log's start to the start itself. */
  function OffsetFromMidnight(startTime: int): (o: int)
    ensures 0 <= o < DayTotalSeconds
    ensures (startTime - o) % DayTotalSeconds == 0
  {
    startTime % DayTotalSeconds
  }

  /** The bar's left edge, in percent of the day, clamped at 0. */
  function LeftPct(startTime: int, timeFromStart: int): (r: real)
    ensures r >= 0.0
    ensures var at := OffsetFromMidnight(startTime) + timeFromStart;
      && (at >= 0 ==> r * 864.0 == at as real)
      && (at <= 0 ==> r == 0.0)
  {
    var eventStartSec := OffsetFromMidnight(startTime) + timeFromStart;
    MaxReal(0.0, (eventStartSec as real / DayTotalSeconds as real) * 100.0)
  }

  /** The bar's width, in percent of the day, never below 0.5. */
  function WidthPct(duration: int): (r: real)
    ensures r >= 0.5
    ensures duration >= 432 ==> r * 864.0 == duration as real
    ensures duration <= 432 ==> r == 0.5
  {
    MaxReal(0.5, (duration as real / DayTotalSeconds as real) * 100.0)
  }

  /** A bar spanning the whole day is exactly 100 percent wide. */
  lemma FullDayIsFullWidth()
    ensures WidthPct(DayTotalSeconds) == 100.0
  {
  }

  const ColorMap: map<string, string> :=
    map["drive" := "bg-red-600", "off_duty" := "bg-green-600", "on_duty" := "bg-yellow-400"]

  const BorderMap: map<string, string> :=
    map["drive" := "ring-1 ring-red-700", "off_duty" := "ring-1 ring-green-700", "on_duty" := "ring-1 ring-yellow-600"]

  /** The bar colour: red for driving, green for off duty, yellow for on duty, grey
      for anything else. */
  function ColorClass(eventType: string): (c: string)
    ensures c == "bg-red-600" <==> eventType == "drive"
    ensures c == "bg-green-600" <==> eventType == "off_duty"
    ensures c == "bg-yellow-400" <==> eventType == "on_duty"
    ensures eventType !in ColorMap ==> c == "bg-gray-600"
  {
    if eventType in ColorMap then ColorMap[eventType] else "bg-gray-600"
  }

  /** The bar's ring, in the darker shade of its colour; none for an unknown status. */
  function RingClass(eventType: string): (c: string)
    ensures c == "ring-1 ring-red-700" <==> eventType == "drive"
    ensures c == "ring-1 ring-green-700" <==> eventType == "off_duty"
    ensures c == "ring-1 ring-yellow-600" <==> eventType == "on_duty"
    ensures c == "" <==> eventType !in BorderMap
  {
    if eventType in BorderMap then BorderMap[eventType] else ""
  }

  /** A status outside drive / off_duty / on_duty is drawn grey with no ring. */
  lemma UnknownStatusFallsBack(eventType: string)
    requires eventType != "drive" && eventType != "off_duty" && eventType != "on_duty"
    ensures ColorClass(eventType) == "bg-gray-600" && RingClass(eventType) == ""
  {
  }

  /** The status label is drawn only on bars wider than 6 percent. */
  function ShowsLabel(widthPct: real): (r: bool)
    ensures r <==> widthPct * 864.0 > 5184.0
  {
    widthPct > 6.0
  }

  /** A bar is labelled exactly when its event lasts longer than 5184 s (6 % of a day). */
  lemma LabelledExactlyWhenLonger(duration: int)
    ensures ShowsLabel(WidthPct(duration)) <==> duration > 5184
  {
  }

  datatype EventBar = EventBar(leftPct: real, widthPct: real, colorClass: string, ringClass: string, showsLabel: bool)

  /** The bar of one event: placed and sized by its times, coloured by its status, and
      labelled when the event lasts over 5184 s. */
  function BarOf(startTime: int, ev: EldEvent): (bar: EventBar)
    ensures bar.leftPct >= 0.0 && bar.widthPct >= 0.5
    ensures ev.durationSeconds >= 432 ==> bar.widthPct * 864.0 == ev.durationSeconds as real
    ensures OffsetFromMidnight(startTime) + ev.timeFromStartSeconds >= 0 ==>
      bar.leftPct * 864.0 == (OffsetFromMidnight(startTime) + ev.timeFromStartSeconds) as real
    ensures bar.showsLabel <==> ev.durationSeconds > 5184
    ensures bar.colorClass == ColorClass(ev.eventType) && bar.ringClass == RingClass(ev.eventType)
  {
    LabelledExactlyWhenLonger(ev.durationSeconds);
    var width := WidthPct(ev.durationSeconds);
    EventBar(LeftPct(startTime, ev.timeFromStartSeconds), width,
             ColorClass(ev.eventType), RingClass(ev.eventType), ShowsLabel(width))
  }

  /** One bar per event of the day, in the events' order, each at least 0.5 % wide and
      never left of the day's start. */
  function LayoutDay(day: EldLog): (bars: seq<EventBar>)
    ensures |bars| == |day.logEvents|
    ensures forall i :: 0 <= i < |bars| ==>
      && bars[i] == BarOf(day.startTime, day.logEvents[i])
      && bars[i].leftPct >= 0.0 && bars[i].widthPct >= 0.5
  {
    seq(|day.logEvents|, i requires 0 <= i < |day.logEvents| => BarOf(day.startTime, day.logEvents[i]))
  }

  datatype DayHeader = DayHeader(driving: string, offDuty: string, onDuty: string)

  /** The day's header shows the three totals stored in the log. */
  function DayTotalsText(day: EldLog): (hd: DayHeader)
    ensures day.totalDriving >= 0 ==> IntToString(day.totalDriving / 3600) + "h " <= hd.driving
    ensures day.totalOffDuty >= 0 ==> IntToString(day.totalOffDuty / 3600) + "h " <= hd.offDuty
    ensures day.totalOnDuty >= 0 ==> IntToString(day.totalOnDuty / 3600) + "h " <= hd.onDuty
  {
    DayHeader(SecToHms(day.totalDriving), SecToHms(day.totalOffDuty), SecToHms(day.totalOnDuty))
  }

  /** The header does not look at the events: two logs with the same stored totals show
      the same header whatever their events are. */
  lemma TotalsNotRecomputed(d1: EldLog, d2: EldLog)
    requires d1.totalDriving == d2.totalDriving
    requires d1.totalOffDuty == d2.totalOffDuty
    requires d1.totalOnDuty == d2.totalOnDuty
    ensures DayTotalsText(d1) == DayTotalsText(d2)
  {
  }
}
