/** The two group-bys of the KPI tracker: the per-KPI summary of
    `display_summary` and the per-(Date, KPI) trend of `add_trend_analysis`. */
module KpiGroups {
  import opened Frames
  import opened Stats
  import opened KpiPerformance

  /** One row of the summary: `Average Performance` and `On Track Count`. */
  datatype KpiSummary = KpiSummary(average: real, onTrack: nat)

  /** One group of `groupby('KPI')`: the mean of its performances and the
      number of its "On Track" statuses. The average lies between the
      group's smallest and largest performance, and the count is at most
      the number of rows of the KPI. */
  function GroupSummary(kpis: seq<Value>, perf: seq<real>, status: seq<Value>, k: Value): (s: KpiSummary)
    requires |kpis| == |perf| == |status| && k in kpis
    ensures Min(Select(kpis, perf, k)) <= s.average <= Max(Select(kpis, perf, k))
    ensures s.onTrack <= multiset(kpis)[k]
  {
    KpiSummary(Mean(Select(kpis, perf, k)), Count(Select(kpis, status, k), Text(ON_TRACK)))
  }

  /** The summary table: one entry per KPI that occurs, and no other. */
  function Summarize(kpis: seq<Value>, perf: seq<real>, status: seq<Value>): (r: map<Value, KpiSummary>)
    requires |kpis| == |perf| == |status|
    ensures forall k :: k in r <==> k in kpis
    ensures forall k | k in r :: r[k] == GroupSummary(kpis, perf, status, k)
  {
    map k | k in kpis :: GroupSummary(kpis, perf, status, k)
  }

  /** What the summary reads: the KPI column, a numeric Performance column
      and a Status column. */
  predicate Summarizable(f: Frame)
  {
    && WellFormed(f)
    && "KPI" in f.cols
    && IsNumericColumn(f, "Performance")
    && "Status" in f.cols
  }

  /** `display_summary`'s table: an entry for exactly the KPIs of the
      table, each the summary of that KPI's rows. */
  function Summary(f: Frame): (r: map<Value, KpiSummary>)
    requires Summarizable(f)
    ensures forall k :: k in r <==> k in f.cols["KPI"]
    ensures forall k | k in r ::
      r[k] == GroupSummary(f.cols["KPI"], Reals(f.cols["Performance"]), f.cols["Status"], k)
  {
    Summarize(f.cols["KPI"], Reals(f.cols["Performance"]), f.cols["Status"])
  }

  /** How many entries of `s` are at least `t`. */
  function CountAtLeast(s: seq<real>, t: real): (n: nat)
    ensures n <= |s|
  {
    if s == [] then 0 else (if s[0] >= t then 1 else 0) + CountAtLeast(s[1..], t)
  }

  /** The count is the whole length exactly when every entry reaches `t`. */
  lemma {:induction false} AllAtLeast(s: seq<real>, t: real)
    ensures CountAtLeast(s, t) == |s| <==> forall i | 0 <= i < |s| :: s[i] >= t
  {
    if s != [] {
      AllAtLeast(s[1..], t);
      assert forall i | 1 <= i < |s| :: s[i] == s[1..][i - 1];
    }
  }

  /** Labelling and then grouping is grouping and then labelling. */
  lemma {:induction false} SelectStatuses(kpis: seq<Value>, perf: seq<real>, k: Value)
    requires |kpis| == |perf|
    ensures Select(kpis, Statuses(perf), k) == Statuses(Select(kpis, perf, k))
  {
    if kpis != [] {
      var head := if kpis[0] == k then [perf[0]] else [];
      var rest := Select(kpis[1..], perf[1..], k);
      calc {
        Select(kpis, Statuses(perf), k);
        Statuses(head) + Select(kpis[1..], Statuses(perf)[1..], k);
        { assert Statuses(perf)[1..] == Statuses(perf[1..]); }
        Statuses(head) + Select(kpis[1..], Statuses(perf[1..]), k);
        { SelectStatuses(kpis[1..], perf[1..], k); }
        Statuses(head) + Statuses(rest);
        { StatusesAppend(head, rest); }
        Statuses(head + rest);
      }
    }
  }

  lemma StatusesAppend(a: seq<real>, b: seq<real>)
    ensures Statuses(a + b) == Statuses(a) + Statuses(b)
  {
  }

  /** The "On Track" labels of a group are its performances of at least 100. */
  lemma {:induction false} CountOnTrack(g: seq<real>)
    ensures Count(Statuses(g), Text(ON_TRACK)) == CountAtLeast(g, 100.0)
  {
    if g != [] {
      assert Statuses(g)[1..] == Statuses(g[1..]);
      CountOnTrack(g[1..]);
    }
  }

  /** Summarizing freshly computed statuses: a KPI's average is the mean
      of its rows' percentages and its count is the number of them that
      reach 100. */
  lemma SummarizeCalculated(kpis: seq<Value>, perf: seq<real>, k: Value)
    requires |kpis| == |perf| && k in kpis
    ensures var s := GroupSummary(kpis, perf, Statuses(perf), k);
      var g := Select(kpis, perf, k);
      && s.average == Mean(g)
      && s.onTrack == CountAtLeast(g, 100.0)
  {
    SelectStatuses(kpis, perf, k);
    CountOnTrack(Select(kpis, perf, k));
  }

  /** The summary of the table after `calculate_performance`: one entry
      per KPI, whose average is the mean of its rows' percentages and whose
      count is the number of them that reach 100, which is the number of
      rows of the KPI exactly when every row of it does. */
  lemma SummaryOfCalculated(f: Frame, k: Value)
    requires Calculable(f) && "KPI" in f.cols && k in f.cols["KPI"]
    ensures Summarizable(WithPerformance(f))
    ensures var s := Summary(WithPerformance(f));
      var g := Select(f.cols["KPI"], PerformanceColumn(f), k);
      && k in s
      && s[k].average == Mean(g)
      && s[k].onTrack == CountAtLeast(g, 100.0)
      && (s[k].onTrack == |g| <==> forall i | 0 <= i < |g| :: g[i] >= 100.0)
  {
    var r := WithPerformance(f);
    var kpis, perf := f.cols["KPI"], PerformanceColumn(f);
    assert r.cols["KPI"] == kpis;
    assert Summary(r) == Summarize(kpis, perf, Statuses(perf));
    SummarizeCalculated(kpis, perf, k);
    AllAtLeast(Select(kpis, perf, k), 100.0);
  }

  /** The `(Date, KPI)` key of every row. */
  function Pairs(dates: seq<Value>, kpis: seq<Value>): (r: seq<(Value, Value)>)
    requires |dates| == |kpis|
    ensures |r| == |dates| && forall i | 0 <= i < |dates| :: r[i] == (dates[i], kpis[i])
  {
    seq(|dates|, i requires 0 <= i < |dates| => (dates[i], kpis[i]))
  }

  /** `groupby(['Date', 'KPI'])['Performance'].mean()`: one entry per
      (Date, KPI) pair that occurs in some row, holding a value between the
      smallest and largest performance of those rows. */
  function Trend(dates: seq<Value>, kpis: seq<Value>, perf: seq<real>): (r: map<(Value, Value), real>)
    requires |dates| == |kpis| == |perf|
    ensures forall p :: p in r <==> p in Pairs(dates, kpis)
    ensures forall p | p in r ::
      Min(Select(Pairs(dates, kpis), perf, p)) <= r[p] <= Max(Select(Pairs(dates, kpis), perf, p))
  {
    var keys := Pairs(dates, kpis);
    map p | p in keys :: Mean(Select(keys, perf, p))
  }

  /** What the trend reads: Date and KPI columns and a numeric Performance
      column. */
  predicate Trendable(f: Frame)
  {
    && WellFormed(f)
    && "Date" in f.cols
    && "KPI" in f.cols
    && IsNumericColumn(f, "Performance")
  }

  /** `add_trend_analysis`'s `trend_data`: an entry for exactly the
      (Date, KPI) pairs of the table's rows. */
  function TrendOf(f: Frame): (r: map<(Value, Value), real>)
    requires Trendable(f)
    ensures forall p :: p in r <==> p in Pairs(f.cols["Date"], f.cols["KPI"])
  {
    Trend(f.cols["Date"], f.cols["KPI"], Reals(f.cols["Performance"]))
  }

  /** Every trend key names a KPI of the summary. */
  lemma TrendKeysNameKpis(dates: seq<Value>, kpis: seq<Value>, perf: seq<real>, d: Value, k: Value)
    requires |dates| == |kpis| == |perf|
    ensures (d, k) in Trend(dates, kpis, perf) <==> exists i | 0 <= i < |dates| :: dates[i] == d && kpis[i] == k
    ensures (d, k) in Trend(dates, kpis, perf) ==> k in kpis
  {
    var keys := Pairs(dates, kpis);
    if (d, k) in keys {
      var i :| 0 <= i < |keys| && keys[i] == (d, k);
      assert kpis[i] == k;
    }
  }

  /** A KPI recorded on one date only has a single trend point, equal to its
      summary average. */
  lemma {:induction false} SingleDateTrend(dates: seq<Value>, kpis: seq<Value>, perf: seq<real>, d: Value, k: Value)
    requires |dates| == |kpis| == |perf|
    requires forall i | 0 <= i < |kpis| && kpis[i] == k :: dates[i] == d
    ensures Select(Pairs(dates, kpis), perf, (d, k)) == Select(kpis, perf, k)
  {
    if kpis != [] {
      assert Pairs(dates, kpis)[1..] == Pairs(dates[1..], kpis[1..]);
      SingleDateTrend(dates[1..], kpis[1..], perf[1..], d, k);
    }
  }

  lemma SingleDateTrendIsAverage(dates: seq<Value>, kpis: seq<Value>, perf: seq<real>, status: seq<Value>, d: Value, k: Value)
    requires |dates| == |kpis| == |perf| == |status|
    requires k in kpis
    requires forall i | 0 <= i < |kpis| && kpis[i] == k :: dates[i] == d
    ensures (d, k) in Trend(dates, kpis, perf)
    ensures Trend(dates, kpis, perf)[(d, k)] == GroupSummary(kpis, perf, status, k).average
  {
    SingleDateTrend(dates, kpis, perf, d, k);
    var i :| 0 <= i < |kpis| && kpis[i] == k;
    assert Pairs(dates, kpis)[i] == (d, k);
  }
}
