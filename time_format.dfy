/** Duration formatting of the frontend (trip-eld-frontend/src/lib/utils.ts):
    `toHour` and `secondsToHourString`. Seconds arrive as integers. */
module TimeFormat {
  import opened JsNumbers

  /** `toHour`: the whole hours contained in `seconds` (`Math.floor(seconds / 3600)`). */
  function ToHour(seconds: int): (h: int)
    ensures h * 3600 <= seconds < h * 3600 + 3600
  {
    seconds / 3600
  }

  datatype HourParts = HourParts(hrs: int, mins: int)

  /** The two numbers `secondsToHourString` prints: `Math.floor(seconds / 3600)` and
      `Math.floor((seconds % 3600) / 60)` with JavaScript's truncating `%`. */
  function SplitHours(seconds: int): (p: HourParts)
    ensures p.hrs == ToHour(seconds)
    ensures seconds >= 0 ==>
      && 0 <= p.mins <= 59
      && p.hrs * 3600 + p.mins * 60 <= seconds < p.hrs * 3600 + p.mins * 60 + 60
  {
    HourParts(seconds / 3600, JsRem(seconds, 3600) / 60)
  }

  /** Whole hours and minutes are recovered from any duration built from them. */
  lemma SplitHoursOfParts(hrs: nat, mins: nat, secs: nat)
    requires mins <= 59 && secs <= 59
    ensures SplitHours(hrs * 3600 + mins * 60 + secs) == HourParts(hrs, mins)
  {
    var total := hrs * 3600 + mins * 60 + secs;
    var p := SplitHours(total);
    assert p.hrs == hrs by {
      assert hrs * 3600 <= total < hrs * 3600 + 3600;
      assert p.hrs * 3600 <= total < p.hrs * 3600 + 3600;
    }
    assert p.mins == mins;
  }

  function HoursPart(hrs: int): string {
    IntToString(hrs) + " hr" + (if hrs != 1 then "s" else "")
  }

  function MinutesPart(mins: int): string {
    IntToString(mins) + " minute" + (if mins != 1 then "s" else "")
  }

  /** The `parts` array: an hours entry unless the hours are 0, then a minutes entry
      unless the minutes are 0. */
  function Parts(p: HourParts): seq<string> {
    (if p.hrs != 0 then [HoursPart(p.hrs)] else []) + (if p.mins != 0 then [MinutesPart(p.mins)] else [])
  }

  /** `Array.prototype.join`. */
  function Join(parts: seq<string>, sep: string): string
    decreases |parts|
  {
    if |parts| == 0 then ""
    else if |parts| == 1 then parts[0]
    else Join(parts[..|parts| - 1], sep) + sep + parts[|parts| - 1]
  }

  /** The joined parts: hours first, " and " between, nothing for a part that is 0. */
  lemma JoinedParts(p: HourParts)
    ensures Join(Parts(p), " and ") ==
      if p.hrs != 0 && p.mins != 0 then HoursPart(p.hrs) + " and " + MinutesPart(p.mins)
      else if p.hrs != 0 then HoursPart(p.hrs)
      else if p.mins != 0 then MinutesPart(p.mins)
      else ""
  {
    var parts := Parts(p);
    if p.hrs != 0 && p.mins != 0 {
      assert parts == [HoursPart(p.hrs), MinutesPart(p.mins)];
      assert parts[..1] == [HoursPart(p.hrs)];
      assert Join(parts[..1], " and ") == HoursPart(p.hrs);
    } else if p.hrs != 0 {
      assert parts == [HoursPart(p.hrs)];
    } else if p.mins != 0 {
      assert parts == [MinutesPart(p.mins)];
    } else {
      assert parts == [];
    }
  }

  /** `secondsToHourString`: `parts.join(' and ') || '0 minutes'`. The text opens with
      the hours when there are any and closes with the minutes when there are any. */
  function SecondsToHourString(seconds: int): (s: string)
    ensures s != ""
    ensures var p := SplitHours(seconds);
      && (p.hrs != 0 ==> HoursPart(p.hrs) <= s)
      && (p.mins != 0 ==> |MinutesPart(p.mins)| <= |s| && s[|s| - |MinutesPart(p.mins)|..] == MinutesPart(p.mins))
      && (p.hrs == 0 && p.mins == 0 ==> s == "0 minutes")
  {
    JoinedParts(SplitHours(seconds));
    var joined := Join(Parts(SplitHours(seconds)), " and ");
    if joined != "" then joined else "0 minutes"
  }

  /** A part that is zero is omitted; present parts are joined by " and ", hours first;
      with neither part the text is "0 minutes". */
  lemma SecondsToHourStringShape(seconds: int)
    ensures var p := SplitHours(seconds);
      SecondsToHourString(seconds) ==
        if p.hrs != 0 && p.mins != 0 then HoursPart(p.hrs) + " and " + MinutesPart(p.mins)
        else if p.hrs != 0 then HoursPart(p.hrs)
        else if p.mins != 0 then MinutesPart(p.mins)
        else "0 minutes"
  {
    JoinedParts(SplitHours(seconds));
  }

  /** For a non-negative duration the text is "0 minutes" exactly when it is shorter than
      a minute. */
  lemma ZeroMinutesExactlyBelowOneMinute(seconds: int)
    requires seconds >= 0
    ensures SecondsToHourString(seconds) == "0 minutes" <==> seconds < 60
  {
    var p := SplitHours(seconds);
    SecondsToHourStringShape(seconds);
    var r := SecondsToHourString(seconds);
    if p.hrs != 0 {
      assert p.hrs > 0;
      assert r[0] == NatToString(p.hrs)[0] != '0';
    } else if p.mins != 0 {
      assert p.mins > 0;
      assert r[0] == NatToString(p.mins)[0] != '0';
    }
  }

  /** The unit is singular ("hr", "minute") exactly when its count is 1. */
  lemma UnitPluralUnlessOne(n: int)
    ensures HoursPart(n)[|HoursPart(n)| - 1] == 's' <==> n != 1
    ensures MinutesPart(n)[|MinutesPart(n)| - 1] == 's' <==> n != 1
  {
  }

  lemma OneHourOneMinuteExample()
    ensures SecondsToHourString(3661) == "1 hr and 1 minute"
  {
    SecondsToHourStringShape(3661);
    assert SplitHours(3661) == HourParts(1, 1);
    assert NatToString(1) == "1";
  }

  lemma TwoHoursExample()
    ensures SecondsToHourString(7200) == "2 hrs"
  {
    SecondsToHourStringShape(7200);
    assert SplitHours(7200) == HourParts(2, 0);
    assert NatToString(2) == "2";
  }

  lemma ZeroSecondsExample()
    ensures SecondsToHourString(0) == "0 minutes"
  {
    SecondsToHourStringShape(0);
  }
}
