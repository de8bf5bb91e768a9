/** `PackagingSustainabilityOptimizer`: validates a packaging table,
    normalizes its four numeric columns, scores every material with the
    minimum of the linear objective over the unit box, and ranks the
    materials by score. Display, export and the two results charts need
    that ranking; the metric-breakdown chart needs the normalized columns. */
module Packaging {
  import opened Wrappers
  import opened Frames
  import opened Objective
  import opened Ranking
  import opened Normalization
  import Validation

  const REQUIRED: seq<string> := ["Material", "Cost_per_unit", "Recyclability", "Carbon_Footprint", "Durability"]

  /** Every required column is present. */
  predicate HasRequired(f: Frame)
  {
    forall c | c in REQUIRED :: c in f.cols
  }

  /** The table after `normalize_columns`. */
  function NormalizedData(f: Frame): (r: Frame)
    requires WellFormed(f) && Normalizable(f, TO_NORMALIZE)
    ensures WellFormed(r) && r.height == f.height && Normalizable(r, TO_NORMALIZE)
  {
    ToNormalizeIsPlan();
    Normalized(f, TO_NORMALIZE)
  }

  /** What the per-row loop reads: the Material column and the four numeric
      normalized columns. */
  predicate Scorable(f: Frame)
  {
    && WellFormed(f)
    && "Material" in f.cols
    && (forall c | c in TO_NORMALIZE :: IsNumericColumn(f, NormalizedName(c)))
  }

  /** `x0` for row `i`: its four normalized values. */
  function StartPoint(f: Frame, i: nat): Point
    requires Scorable(f) && i < f.height
  {
    assert forall c | c in TO_NORMALIZE :: |f.cols[NormalizedName(c)]| == f.height;
    Point(f.cols[NormalizedName(TO_NORMALIZE[0])][i].x,
          f.cols[NormalizedName(TO_NORMALIZE[1])][i].x,
          f.cols[NormalizedName(TO_NORMALIZE[2])][i].x,
          f.cols[NormalizedName(TO_NORMALIZE[3])][i].x)
  }

  /** The `results` list before sorting: one (Material, minimum) pair per
      row, in row order. */
  function RowResults(f: Frame, w: Weights): (r: seq<Scored>)
    requires Scorable(f)
    ensures |r| == f.height && Materials(r) == f.cols["Material"]
  {
    seq(f.height, i requires 0 <= i < f.height && Scorable(f) =>
      Scored(f.cols["Material"][i], BoxMinimum(w, StartPoint(f, i))))
  }

  /** The four `<column>_normalized` columns the breakdown chart reads. */
  predicate HasNormalized(f: Frame)
  {
    forall c | c in TO_NORMALIZE :: NormalizedName(c) in f.cols
  }

  /** The normalized names are not required column names. */
  lemma RequiredNotNormalized(n: string, c: string)
    requires n in REQUIRED && c in TO_NORMALIZE
    ensures n != NormalizedName(c)
  {
    assert n in {"Material", "Cost_per_unit", "Recyclability", "Carbon_Footprint", "Durability"};
    assert |NormalizedName(c)| == |c| + 11 > |n|;
  }

  /** A required column survives normalization unchanged. */
  lemma NormalizedKeepsRequired(f: Frame, n: string)
    requires WellFormed(f) && Normalizable(f, TO_NORMALIZE) && n in REQUIRED && n in f.cols
    ensures n in NormalizedData(f).cols && NormalizedData(f).cols[n] == f.cols[n]
  {
    ToNormalizeIsPlan();
    forall c | c in TO_NORMALIZE
      ensures n != NormalizedName(c)
    {
      RequiredNotNormalized(n, c);
    }
    NormalizedKeeps(f, TO_NORMALIZE, n);
  }

  /** Normalization adds a numeric `<c>_normalized` for a present column `c`. */
  lemma NormalizedAddsNumeric(f: Frame, c: string)
    requires WellFormed(f) && Normalizable(f, TO_NORMALIZE) && c in TO_NORMALIZE && c in f.cols
    ensures IsNumericColumn(NormalizedData(f), NormalizedName(c))
  {
    ToNormalizeIsPlan();
    NormalizedAdds(f, TO_NORMALIZE, c);
  }

  /** Normalizing a validated table keeps the required columns and adds the
      four normalized ones, numeric. */
  lemma NormalizedIsScorable(f: Frame)
    requires WellFormed(f) && Normalizable(f, TO_NORMALIZE) && HasRequired(f)
    ensures Scorable(NormalizedData(f)) && HasRequired(NormalizedData(f))
    ensures NormalizedData(f).cols["Material"] == f.cols["Material"]
  {
    var r := NormalizedData(f);
    forall n | n in REQUIRED
      ensures n in r.cols
    {
      NormalizedKeepsRequired(f, n);
    }
    NormalizedKeepsRequired(f, "Material");
    forall c | c in TO_NORMALIZE
      ensures IsNumericColumn(r, NormalizedName(c))
    {
      assert c in REQUIRED;
      NormalizedAddsNumeric(f, c);
    }
  }

  /** Every row gets the same score, the box minimum, so the stable sort
      leaves the results in row order. */
  lemma {:induction false} RankedResultsInRowOrder(f: Frame, w: Weights)
    requires Scorable(f)
    ensures Rank(RowResults(f, w)) == RowResults(f, w)
    ensures forall i | 0 <= i < f.height ::
      RowResults(f, w)[i].score == NegativeWeightSum(w)
  {
    var s := RowResults(f, w);
    var m := NegativeWeightSum(w);
    forall i | 0 <= i < f.height
      ensures s[i].score == m
    {
      MinimumIsNegativeWeightSum(w, s[i].score);
    }
    RankOfTies(s, m);
  }

  /** The ranked materials are a permutation of the Material column. */
  lemma RankedMaterialsPermuteColumn(f: Frame, w: Weights)
    requires Scorable(f)
    ensures multiset(Materials(Rank(RowResults(f, w)))) == multiset(f.cols["Material"])
  {
    RankPermutesMaterials(RowResults(f, w));
  }

  /** The `(Material, Score)` DataFrame built from the results. */
  function ResultsFrame(results: seq<Scored>): (r: Frame)
    ensures WellFormed(r) && r.cols.Keys == {"Material", "Score"} && r.height == |results|
    ensures r.cols["Material"] == Materials(results)
    ensures IsNumeric(r.cols["Score"]) && forall i | 0 <= i < |results| :: r.cols["Score"][i] == Num(results[i].score)
  {
    Frame(map["Material" := Materials(results), "Score" := Nums(seq(|results|, i requires 0 <= i < |results| => results[i].score))],
          |results|)
  }

  /** The loop over the rows in `optimize`: one (Material, minimum) pair per
      row, starting the minimization from the row's normalized values. */
  method ScoreRows(f: Frame, w: Weights) returns (rows: seq<Scored>)
    requires Scorable(f)
    ensures rows == RowResults(f, w)
  {
    rows := [];
    for i := 0 to f.height
      invariant |rows| == i
      invariant forall j | 0 <= j < i :: rows[j] == RowResults(f, w)[j]
    {
      var x0 := StartPoint(f, i);
      rows := rows + [Scored(f.cols["Material"][i], BoxMinimum(w, x0))];
    }
  }

  class Optimizer {
    var data: Frame
    /** `self.optimized_results`; None until `optimize` has run. */
    var optimizedResults: Option<seq<Scored>>

    ghost predicate Valid()
      reads this
    {
      WellFormed(data) && HasRequired(data)
    }

    constructor (frame: Frame)
      requires WellFormed(frame) && HasRequired(frame)
      ensures Valid() && data == frame && optimizedResults == None
    {
      data := frame;
      optimizedResults := None;
    }

    /** `__init__` on an already-read table: validation either fails with
        the first missing required column, or yields an optimizer that has
        not optimized yet. */
    static method Load(frame: Frame) returns (r: Result<Optimizer, Error>)
      requires WellFormed(frame)
      ensures r.Failure? <==> exists c | c in REQUIRED :: c !in frame.cols
      ensures r.Failure? ==> exists k | 0 <= k < |REQUIRED| ::
                               && REQUIRED[k] !in frame.cols
                               && (forall j | 0 <= j < k :: REQUIRED[j] in frame.cols)
                               && r.error == MissingColumn(REQUIRED[k])
      ensures r.Success? ==> fresh(r.value) && r.value.Valid() && r.value.data == frame && r.value.optimizedResults == None
    {
      var o := Validation.CheckRequired(REQUIRED, frame.cols.Keys);
      if o.Fail? {
        return Failure(o.error);
      }
      var opt := new Optimizer(frame);
      return Success(opt);
    }

    /** `normalize_columns`. */
    method NormalizeColumns()
      requires Valid() && Normalizable(data, TO_NORMALIZE)
      modifies this
      ensures Valid() && Normalizable(data, TO_NORMALIZE)
      ensures data == NormalizedData(old(data)) && optimizedResults == old(optimizedResults)
    {
      ghost var f := data;
      ToNormalizeIsPlan();
      for k := 0 to |TO_NORMALIZE|
        invariant data == NormalizeFirst(f, TO_NORMALIZE, k) && optimizedResults == old(optimizedResults)
      {
        NormalizeStep(f, TO_NORMALIZE, k + 1);
        var c := TO_NORMALIZE[k];
        if c in data.cols {
          data := SetColumn(data, NormalizedName(c), ScaledColumn(data, c));
        }
      }
      NormalizedIsScorable(f);
    }

    /** `optimize`: normalizes, then scores every row with the minimum over
        the box and stores the results sorted by score. */
    method Optimize(w: Weights) returns (results: seq<Scored>)
      requires Valid() && Normalizable(data, TO_NORMALIZE)
      modifies this
      ensures Valid() && Scorable(data)
      ensures data == NormalizedData(old(data))
      ensures results == Rank(RowResults(data, w)) && optimizedResults == Some(results)
      ensures |results| == data.height && SortedByScore(results)
      ensures multiset(results) == multiset(RowResults(data, w))
      ensures multiset(Materials(results)) == multiset(old(data).cols["Material"])
    {
      NormalizeColumns();
      NormalizedIsScorable(old(data));
      var rows := ScoreRows(data, w);
      results := Rank(rows);
      RankedMaterialsPermuteColumn(data, w);
      optimizedResults := Some(results);
    }

    /** `display_results`: the pairs it prints. */
    method DisplayResults() returns (r: Result<seq<Scored>, Error>)
      ensures optimizedResults.None? ==> r == Failure(NotOptimized("displaying"))
      ensures optimizedResults.Some? ==> r == Success(optimizedResults.value)
    {
      if optimizedResults.None? {
        return Failure(NotOptimized("displaying"));
      }
      return Success(optimizedResults.value);
    }

    /** `export_results`: the table written to the output file. */
    method ExportResults() returns (r: Result<Frame, Error>)
      ensures optimizedResults.None? ==> r == Failure(NotOptimized("exporting"))
      ensures optimizedResults.Some? ==> r.Success? && r.value.height == |optimizedResults.value|
      ensures optimizedResults.Some? ==> r == Success(ResultsFrame(optimizedResults.value))
    {
      if optimizedResults.None? {
        return Failure(NotOptimized("exporting"));
      }
      return Success(ResultsFrame(optimizedResults.value));
    }

    /** `visualize_results`: the materials and scores it plots, in ranking
        order. */
    method VisualizeResults() returns (r: Result<(seq<Value>, seq<real>), Error>)
      ensures optimizedResults.None? ==> r == Failure(NotOptimized("visualizing"))
      ensures optimizedResults.Some? ==> r.Success?
      ensures r.Success? ==> var res := optimizedResults.value;
        && r.value.0 == Materials(res)
        && |r.value.1| == |res|
        && forall i | 0 <= i < |res| :: r.value.1[i] == res[i].score
    {
      if optimizedResults.None? {
        return Failure(NotOptimized("visualizing"));
      }
      var res := optimizedResults.value;
      return Success((Materials(res), seq(|res|, i requires 0 <= i < |res| => res[i].score)));
    }

    /** `visualize_metric_breakdown`: needs the four normalized columns. */
    method VisualizeMetricBreakdown() returns (o: Outcome<Error>)
      requires Valid()
      ensures o.Pass? <==> HasNormalized(data)
      ensures o.Fail? ==> o.error == NormalizedColumnsMissing
    {
      if HasNormalized(data) {
        return Pass;
      }
      return Fail(NormalizedColumnsMissing);
    }

    /** `visualize_results_interactive`: the DataFrame it plots. */
    method VisualizeResultsInteractive() returns (r: Result<Frame, Error>)
      ensures optimizedResults.None? ==> r == Failure(NotOptimized("visualizing"))
      ensures optimizedResults.Some? ==> r == Success(ResultsFrame(optimizedResults.value))
    {
      if optimizedResults.None? {
        return Failure(NotOptimized("visualizing"));
      }
      return Success(ResultsFrame(optimizedResults.value));
    }
  }

  /** The script's main flow on an already-read table: load it, optimize,
      then display, export and draw the three charts. Loading fails exactly
      when a required column is missing, whatever the other columns hold;
      otherwise every later step goes through and the displayed ranking is
      the optimized one. */
  method RunScript(frame: Frame, w: Weights) returns (r: Result<seq<Scored>, Error>)
    requires WellFormed(frame) && (HasRequired(frame) ==> Normalizable(frame, TO_NORMALIZE))
    ensures r.Failure? <==> !HasRequired(frame)
    ensures r.Failure? ==> r.error.MissingColumn?
    ensures r.Success? ==> Scorable(NormalizedData(frame)) && r.value == Rank(RowResults(NormalizedData(frame), w))
  {
    var loaded := Optimizer.Load(frame);
    if loaded.Failure? {
      return Failure(loaded.error);
    }
    var opt := loaded.value;
    var ranked := opt.Optimize(w);
    var shown := opt.DisplayResults();
    var exported := opt.ExportResults();
    var chart := opt.VisualizeResults();
    var breakdown := opt.VisualizeMetricBreakdown();
    var interactive := opt.VisualizeResultsInteractive();
    assert exported.Success? && chart.Success? && interactive.Success?;
    assert breakdown.Pass?;
    return Success(shown.value);
  }
}
