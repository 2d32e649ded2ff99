/** The progress bar's fill (trip-eld-frontend/src/components/ui-helpers.tsx, `ProgressBar`). */
module UiHelpers {
  import opened Wrappers
  import opened JsNumbers

  /** `max` when the caller does not give one. */
  const DefaultMax: real := 70.0

  /** `Math.min(100, Math.round((value / max) * 100))`: the rounded share of `max`, capped
      at 100. A `max` of 0 (JavaScript's Infinity or NaN) is outside the model. */
  function ProgressPct(value: real, max: Option<real>): (pct: int)
    requires max.GetOr(DefaultMax) != 0.0
    ensures pct <= 100
    ensures var m := max.GetOr(DefaultMax);
      && (pct < 100 ==> pct == JsRound(value / m * 100.0))
      && (pct == 100 <==> JsRound(value / m * 100.0) >= 100)
      && (0.0 < m <= value ==> pct == 100)
    ensures value == 0.0 ==> pct == 0
  {
    var m := max.GetOr(DefaultMax);
    if 0.0 < m <= value then
      assert value / m >= 1.0 by { DivAtLeastOne(value, m); }
      Min(100, JsRound((value / m) * 100.0))
    else
      Min(100, JsRound((value / m) * 100.0))
  }

  lemma DivAtLeastOne(v: real, m: real)
    requires 0.0 < m <= v
    ensures v / m >= 1.0
  {
    assert v / m * m == v;
  }

  /** For a fixed positive `max` the fill never shrinks as the value grows. */
  lemma ProgressPctMonotone(v1: real, v2: real, m: real)
    requires 0.0 < m && v1 <= v2
    ensures ProgressPct(v1, Some(m)) <= ProgressPct(v2, Some(m))
  {
    assert v1 / m <= v2 / m by {
      assert v2 / m - v1 / m == (v2 - v1) / m;
    }
    var x1, x2 := v1 / m * 100.0 + 0.5, v2 / m * 100.0 + 0.5;
    assert x1 <= x2;
    assert x1.Floor <= x2.Floor;
  }

  /** Without a `max` the bar measures against 70: 35 fills half of it. */
  lemma DefaultMaxIsSeventy()
    ensures ProgressPct(35.0, None) == 50
    ensures ProgressPct(70.0, None) == 100
  {
    assert 35.0 / 70.0 * 100.0 == 50.0;
  }
}
