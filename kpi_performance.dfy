/** `calculate_performance` of the KPI tracker: every row's performance is
    its actual value as a percentage of its target, and its status says
    whether that percentage reaches 100. */
module KpiPerformance {
  import opened Frames

  const ON_TRACK: string := "On Track"
  const NEEDS_IMPROVEMENT: string := "Needs Improvement"

  /** `(Actual / Target) * 100` for one row. */
  function Performance(actual: real, target: real): (p: real)
    requires target != 0.0
    ensures p * target == actual * 100.0
  {
    assert (actual / target) * target == actual;
    (actual / target) * 100.0
  }

  /** The status label of a performance: "On Track" exactly when it is at
      least 100, "Needs Improvement" otherwise. */
  function StatusOf(p: real): (v: Value)
    ensures v == Text(ON_TRACK) <==> p >= 100.0
    ensures v == Text(ON_TRACK) || v == Text(NEEDS_IMPROVEMENT)
  {
    if p >= 100.0 then Text(ON_TRACK) else Text(NEEDS_IMPROVEMENT)
  }

  /** With a positive target a row is on track exactly when the actual value
      reaches the target. */
  lemma OnTrackIffTargetMet(actual: real, target: real)
    requires target > 0.0
    ensures StatusOf(Performance(actual, target)) == Text(ON_TRACK) <==> actual >= target
  {
    var p := Performance(actual, target);
    assert p * target == actual * 100.0;
    if p >= 100.0 {
      assert p * target >= 100.0 * target;
    } else {
      assert p * target < 100.0 * target;
    }
  }

  /** With a negative target the comparison turns round: a row is on track
      exactly when the actual value is at most the target. */
  lemma OnTrackIffBelowNegativeTarget(actual: real, target: real)
    requires target < 0.0
    ensures StatusOf(Performance(actual, target)) == Text(ON_TRACK) <==> actual <= target
  {
    var p := Performance(actual, target);
    assert p * target == actual * 100.0;
    if p >= 100.0 {
      assert p * target <= 100.0 * target;
    } else {
      assert p * target > 100.0 * target;
    }
  }

  /** The status of every performance, in row order. */
  function Statuses(perf: seq<real>): (r: seq<Value>)
    ensures |r| == |perf| && forall i | 0 <= i < |perf| :: r[i] == StatusOf(perf[i])
  {
    seq(|perf|, i requires 0 <= i < |perf| => StatusOf(perf[i]))
  }

  predicate NonZero(s: seq<real>)
  {
    forall i | 0 <= i < |s| :: s[i] != 0.0
  }

  /** What the division needs: numeric Actual and Target columns and no zero
      target. */
  predicate Calculable(f: Frame)
  {
    && WellFormed(f)
    && IsNumericColumn(f, "Actual")
    && IsNumericColumn(f, "Target")
    && NonZero(Reals(f.cols["Target"]))
  }

  /** The Performance column, row by row. */
  function PerformanceColumn(f: Frame): (r: seq<real>)
    requires Calculable(f)
    ensures |r| == f.height
    ensures forall i | 0 <= i < f.height ::
      r[i] == Performance(Reals(f.cols["Actual"])[i], Reals(f.cols["Target"])[i])
  {
    var actual, target := Reals(f.cols["Actual"]), Reals(f.cols["Target"]);
    seq(f.height, i requires 0 <= i < f.height => Performance(actual[i], target[i]))
  }

  /** The table after `calculate_performance`: the Performance and Status
      columns are added or overwritten and nothing else changes. */
  function WithPerformance(f: Frame): (r: Frame)
    requires Calculable(f)
    ensures WellFormed(r) && r.height == f.height
    ensures r.cols.Keys == f.cols.Keys + {"Performance", "Status"}
    ensures forall n | n in f.cols && n != "Performance" && n != "Status" :: r.cols[n] == f.cols[n]
    ensures IsNumericColumn(r, "Performance") && Reals(r.cols["Performance"]) == PerformanceColumn(f)
    ensures r.cols["Status"] == Statuses(PerformanceColumn(f))
  {
    var perf := PerformanceColumn(f);
    var g := SetColumn(f, "Performance", Nums(perf));
    SetColumn(g, "Status", Statuses(perf))
  }

  /** One row of the calculated table: its performance is the percentage of
      its target, and it is on track exactly when that reaches 100. */
  lemma CalculatedRow(f: Frame, i: nat)
    requires Calculable(f) && i < f.height
    ensures var r := WithPerformance(f);
      var actual, target := Reals(f.cols["Actual"])[i], Reals(f.cols["Target"])[i];
      && r.cols["Performance"][i] == Num(Performance(actual, target))
      && (r.cols["Status"][i] == Text(ON_TRACK) <==> Performance(actual, target) >= 100.0)
  {
    var r := WithPerformance(f);
    assert r.cols["Performance"][i] == Num(Reals(r.cols["Performance"])[i]);
  }

  /** Calculating again changes nothing: Actual and Target are untouched, so
      the same two columns are written again. */
  lemma WithPerformanceIdempotent(f: Frame)
    requires Calculable(f)
    ensures Calculable(WithPerformance(f))
    ensures WithPerformance(WithPerformance(f)) == WithPerformance(f)
  {
    var r := WithPerformance(f);
    assert r.cols["Actual"] == f.cols["Actual"] && r.cols["Target"] == f.cols["Target"];
    assert Calculable(r);
    assert PerformanceColumn(r) == PerformanceColumn(f);
    var rr := WithPerformance(r);
    assert rr.cols == r.cols;
  }
}
