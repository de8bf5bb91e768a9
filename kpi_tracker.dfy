/** `SustainabilityKPITracker`: validates a KPI table, adds every row's
    performance and status, and summarizes, charts, exports and follows
    the trend of those performances. */
module KpiTracker {
  import opened Wrappers
  import opened Frames
  import opened KpiPerformance
  import opened KpiGroups
  import Validation

  const REQUIRED: seq<string> := ["KPI", "Target", "Actual", "Date"]

  predicate HasRequired(f: Frame)
  {
    forall c | c in REQUIRED :: c in f.cols
  }

  /** A Performance column that is there is numeric, as `mean` needs; the
      table may arrive with any Performance column, which
      `calculate_performance` overwrites. */
  predicate NumericPerformance(f: Frame)
  {
    "Performance" in f.cols ==> IsNumeric(f.cols["Performance"])
  }

  /** The summary, trend and export of one run of the script. */
  datatype Report = Report(summary: map<Value, KpiSummary>, trend: map<(Value, Value), real>, exported: Frame)

  class Tracker {
    var data: Frame

    ghost predicate Valid()
      reads this
    {
      WellFormed(data) && HasRequired(data)
    }

    constructor (frame: Frame)
      requires WellFormed(frame) && HasRequired(frame)
      ensures Valid() && data == frame
    {
      data := frame;
    }

    /** `__init__` on an already-read table: validation fails with the first
        missing required column, or yields a tracker over the table. */
    static method Load(frame: Frame) returns (r: Result<Tracker, Error>)
      requires WellFormed(frame)
      ensures r.Failure? <==> exists c | c in REQUIRED :: c !in frame.cols
      ensures r.Failure? ==> exists k | 0 <= k < |REQUIRED| ::
                               && REQUIRED[k] !in frame.cols
                               && (forall j | 0 <= j < k :: REQUIRED[j] in frame.cols)
                               && r.error == MissingColumn(REQUIRED[k])
      ensures r.Success? ==> fresh(r.value) && r.value.Valid() && r.value.data == frame
    {
      var o := Validation.CheckRequired(REQUIRED, frame.cols.Keys);
      if o.Fail? {
        return Failure(o.error);
      }
      var t := new Tracker(frame);
      return Success(t);
    }

    /** `calculate_performance`: writes the Performance and Status columns. */
    method CalculatePerformance()
      requires Valid() && Calculable(data)
      modifies this
      ensures Valid() && NumericPerformance(data) && data == WithPerformance(old(data))
    {
      data := WithPerformance(data);
    }

    /** `display_summary`: fails before `calculate_performance`; a table
        with a Performance column but no Status column fails in the
        aggregation with a `KeyError`; otherwise the per-KPI summary. */
    method DisplaySummary() returns (r: Result<map<Value, KpiSummary>, Error>)
      requires Valid() && NumericPerformance(data)
      ensures "Performance" !in data.cols ==> r == Failure(NotCalculated("displaying summary"))
      ensures "Performance" in data.cols && "Status" !in data.cols ==> r == Failure(ColumnKeyError("Status"))
      ensures r.Success? <==> "Performance" in data.cols && "Status" in data.cols
      ensures r.Success? ==> Summarizable(data) && r.value == Summary(data)
    {
      if "Performance" !in data.cols {
        return Failure(NotCalculated("displaying summary"));
      }
      if "Status" !in data.cols {
        return Failure(ColumnKeyError("Status"));
      }
      return Success(Summary(data));
    }

    /** `visualize_performance`: the bar chart needs the Performance column. */
    method VisualizePerformance() returns (o: Outcome<Error>)
      ensures o.Pass? <==> "Performance" in data.cols
      ensures o.Fail? ==> o.error == NotCalculated("visualizing performance")
    {
      if "Performance" !in data.cols {
        return Fail(NotCalculated("visualizing performance"));
      }
      return Pass;
    }

    /** `visualize_interactive`: the same guard and message. */
    method VisualizeInteractive() returns (o: Outcome<Error>)
      ensures o.Pass? <==> "Performance" in data.cols
      ensures o.Fail? ==> o.error == NotCalculated("visualizing performance")
    {
      if "Performance" !in data.cols {
        return Fail(NotCalculated("visualizing performance"));
      }
      return Pass;
    }

    /** `export_results`: the whole table, once it has a Performance column. */
    method ExportResults() returns (r: Result<Frame, Error>)
      ensures "Performance" !in data.cols ==> r == Failure(NotCalculated("exporting results"))
      ensures "Performance" in data.cols ==> r == Success(data)
    {
      if "Performance" !in data.cols {
        return Failure(NotCalculated("exporting results"));
      }
      return Success(data);
    }

    /** `add_trend_analysis`: no guard of its own, so a missing Performance
        column surfaces as the `KeyError` of the group-by. */
    method AddTrendAnalysis() returns (r: Result<map<(Value, Value), real>, Error>)
      requires Valid() && NumericPerformance(data)
      ensures "Performance" !in data.cols ==> r == Failure(ColumnKeyError("Performance"))
      ensures "Performance" in data.cols ==> Trendable(data) && r == Success(TrendOf(data))
    {
      if "Performance" !in data.cols {
        return Failure(ColumnKeyError("Performance"));
      }
      return Success(TrendOf(data));
    }
  }

  /** The script's main flow on an already-read table: load it, calculate,
      then summarize, draw both charts, follow the trend and export. Loading
      fails exactly when a required column is missing; otherwise every later
      step goes through on the calculated table. */
  method RunTracker(frame: Frame) returns (r: Result<Report, Error>)
    requires WellFormed(frame)
    requires HasRequired(frame) ==> Calculable(frame)
    ensures r.Failure? <==> !HasRequired(frame)
    ensures r.Failure? ==> r.error.MissingColumn?
    ensures r.Success? ==>
              && Calculable(frame)
              && Summarizable(WithPerformance(frame))
              && Trendable(WithPerformance(frame))
              && r.value == Report(Summary(WithPerformance(frame)), TrendOf(WithPerformance(frame)), WithPerformance(frame))
  {
    var loaded := Tracker.Load(frame);
    if loaded.Failure? {
      return Failure(loaded.error);
    }
    var t := loaded.value;
    t.CalculatePerformance();
    var summary := t.DisplaySummary();
    var chart := t.VisualizePerformance();
    var interactive := t.VisualizeInteractive();
    var trend := t.AddTrendAnalysis();
    var exported := t.ExportResults();
    assert chart.Pass? && interactive.Pass?;
    return Success(Report(summary.value, trend.value, exported.value));
  }
}
