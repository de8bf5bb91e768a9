/** `normalize_columns`: min-max scaling of the four numeric packaging
    columns into new `<column>_normalized` columns. */
module Normalization {
  import opened Frames
  import Stats

  const TO_NORMALIZE: seq<string> := ["Cost_per_unit", "Recyclability", "Carbon_Footprint", "Durability"]

  function NormalizedName(c: string): string
  {
    c + "_normalized"
  }

  lemma NormalizedNameInjective(c: string, d: string)
    requires NormalizedName(c) == NormalizedName(d)
    ensures c == d
  {
    assert c == NormalizedName(c)[..|c|];
    assert d == NormalizedName(d)[..|d|];
  }

  /** A column min-max scaling is defined on: either it is empty, or its
      maximum exceeds its minimum (a constant column would divide by zero). */
  predicate Scalable(rs: seq<real>)
  {
    |rs| > 0 ==> Stats.Min(rs) < Stats.Max(rs)
  }

  /** `(col - col.min()) / (col.max() - col.min())`. */
  function Scale(rs: seq<real>): (r: seq<real>)
    requires Scalable(rs)
    ensures |r| == |rs|
  {
    if rs == [] then []
    else
      var lo, hi := Stats.Min(rs), Stats.Max(rs);
      seq(|rs|, i requires 0 <= i < |rs| => Unit(rs[i], lo, hi))
  }

  /** `v` placed on the unit scale of the range `[lo, hi]`. */
  function Unit(v: real, lo: real, hi: real): real
    requires lo < hi
  {
    (v - lo) / (hi - lo)
  }

  /** The inverse of `Unit`: a point of [0, 1] mapped back onto `[lo, hi]`. */
  function Rescale(p: real, lo: real, hi: real): real
  {
    lo + p * (hi - lo)
  }

  lemma UnitPoint(v: real, lo: real, hi: real)
    requires lo <= v <= hi && lo < hi
    ensures 0.0 <= Unit(v, lo, hi) <= 1.0
    ensures Rescale(Unit(v, lo, hi), lo, hi) == v
    ensures Unit(v, lo, hi) == 0.0 <==> v == lo
    ensures Unit(v, lo, hi) == 1.0 <==> v == hi
  {
    var d := hi - lo;
    var p := (v - lo) / d;
    assert p * d == v - lo;
    Stats.QuotientAtLeast(v - lo, d, 0.0);
    Stats.QuotientAtMost(v - lo, d, 1.0);
    assert (1.0 - p) * d == hi - v;
    assert d / d == 1.0;
  }

  lemma UnitOrder(v: real, u: real, lo: real, hi: real)
    requires lo < hi
    ensures v <= u <==> Unit(v, lo, hi) <= Unit(u, lo, hi)
  {
    var d := hi - lo;
    var p, q := (v - lo) / d, (u - lo) / d;
    assert p * d == v - lo && q * d == u - lo;
    assert u - v == (q - p) * d;
  }

  /** Every scaled value lies in [0, 1]; scaling back with the column's
      range recovers the original value; the column minimum, and only it,
      maps to 0 and the column maximum, and only it, maps to 1; and the order
      of the values is kept in both directions. So the scaled column has
      minimum 0 and maximum 1. */
  lemma ScaleProperties(rs: seq<real>)
    requires |rs| > 0 && Scalable(rs)
    ensures var r, lo, hi := Scale(rs), Stats.Min(rs), Stats.Max(rs);
      && (forall i | 0 <= i < |rs| :: 0.0 <= r[i] <= 1.0)
      && (forall i | 0 <= i < |rs| :: Rescale(r[i], lo, hi) == rs[i])
      && (forall i | 0 <= i < |rs| :: r[i] == 0.0 <==> rs[i] == lo)
      && (forall i | 0 <= i < |rs| :: r[i] == 1.0 <==> rs[i] == hi)
      && (forall i, j | 0 <= i < |rs| && 0 <= j < |rs| :: rs[i] <= rs[j] <==> r[i] <= r[j])
      && Stats.Min(r) == 0.0 && Stats.Max(r) == 1.0
  {
    var r, lo, hi := Scale(rs), Stats.Min(rs), Stats.Max(rs);
    forall i, j | 0 <= i < |rs| && 0 <= j < |rs|
      ensures 0.0 <= r[i] <= 1.0 && Rescale(r[i], lo, hi) == rs[i]
      ensures rs[i] <= rs[j] <==> r[i] <= r[j]
      ensures r[i] == 0.0 <==> rs[i] == lo
      ensures r[i] == 1.0 <==> rs[i] == hi
    {
      ScaleAt(rs, i, j);
    }
    ScaledRange(rs);
  }

  lemma ScaleIndex(rs: seq<real>, i: nat)
    requires |rs| > 0 && Scalable(rs) && i < |rs|
    ensures Scale(rs)[i] == Unit(rs[i], Stats.Min(rs), Stats.Max(rs))
  {
  }

  lemma ScaleAt(rs: seq<real>, i: nat, j: nat)
    requires |rs| > 0 && Scalable(rs) && i < |rs| && j < |rs|
    ensures var r, lo, hi := Scale(rs), Stats.Min(rs), Stats.Max(rs);
      && 0.0 <= r[i] <= 1.0
      && Rescale(r[i], lo, hi) == rs[i]
      && (rs[i] <= rs[j] <==> r[i] <= r[j])
      && (r[i] == 0.0 <==> rs[i] == lo)
      && (r[i] == 1.0 <==> rs[i] == hi)
  {
    var lo, hi := Stats.Min(rs), Stats.Max(rs);
    ScaleIndex(rs, i);
    ScaleIndex(rs, j);
    UnitPoint(rs[i], lo, hi);
    UnitOrder(rs[i], rs[j], lo, hi);
  }

  lemma ScaledRange(rs: seq<real>)
    requires |rs| > 0 && Scalable(rs)
    ensures Stats.Min(Scale(rs)) == 0.0 && Stats.Max(Scale(rs)) == 1.0
  {
    var r := Scale(rs);
    var a :| 0 <= a < |rs| && rs[a] == Stats.Min(rs);
    var b :| 0 <= b < |rs| && rs[b] == Stats.Max(rs);
    forall i | 0 <= i < |rs|
      ensures 0.0 <= r[i] <= 1.0
    {
      ScaleAt(rs, i, i);
    }
    ScaleAt(rs, a, a);
    ScaleAt(rs, b, b);
  }

  /** The numeric column `c` can be scaled, if it is present at all. */
  predicate NormalizableColumn(f: Frame, c: string)
  {
    c in f.cols ==> IsNumeric(f.cols[c]) && Scalable(Reals(f.cols[c]))
  }

  predicate Normalizable(f: Frame, cs: seq<string>)
  {
    forall c | c in cs :: NormalizableColumn(f, c)
  }

  /** A list of columns to normalize: no repeats, and no normalized name
      is itself a column of the list. */
  predicate Plan(cs: seq<string>)
  {
    && Distinct(cs)
    && forall i, j | 0 <= i < |cs| && 0 <= j < |cs| :: NormalizedName(cs[i]) != cs[j]
  }

  lemma ToNormalizeIsPlan()
    ensures Plan(TO_NORMALIZE)
  {
    forall i, j | 0 <= i < |TO_NORMALIZE| && 0 <= j < |TO_NORMALIZE|
      ensures NormalizedName(TO_NORMALIZE[i]) != TO_NORMALIZE[j]
    {
      assert |NormalizedName(TO_NORMALIZE[i])| == |TO_NORMALIZE[i]| + 11 >= 21 && |TO_NORMALIZE[j]| <= 16;
    }
  }

  /** The scaled version of column `c`. */
  function ScaledColumn(f: Frame, c: string): (col: seq<Value>)
    requires WellFormed(f) && c in f.cols && NormalizableColumn(f, c)
    ensures |col| == f.height
  {
    Nums(Scale(Reals(f.cols[c])))
  }

  /** One pass of the loop body: add `<c>_normalized` when `c` is a column.
      A column scaling is not defined on is passed over; `NormalizeStep`
      shows this never happens on a table `Normalized` accepts. */
  function NormalizeOne(f: Frame, c: string): (r: Frame)
    requires WellFormed(f)
    ensures WellFormed(r) && r.height == f.height
  {
    if c in f.cols && NormalizableColumn(f, c) then SetColumn(f, NormalizedName(c), ScaledColumn(f, c)) else f
  }

  /** The table after the first `k` passes of the loop over `cs`. */
  function NormalizeFirst(f: Frame, cs: seq<string>, k: nat): (r: Frame)
    requires WellFormed(f) && k <= |cs|
    ensures WellFormed(r) && r.height == f.height
  {
    if k == 0 then f else NormalizeOne(NormalizeFirst(f, cs, k - 1), cs[k - 1])
  }

  /** The passes write only normalized names, so every column of `cs`
      keeps its presence and its cells. */
  lemma {:induction false} KeepsPlanColumn(f: Frame, cs: seq<string>, k: nat, j: nat)
    requires WellFormed(f) && Plan(cs) && k <= |cs| && j < |cs|
    ensures var r := NormalizeFirst(f, cs, k);
      && (cs[j] in r.cols <==> cs[j] in f.cols)
      && (cs[j] in f.cols ==> r.cols[cs[j]] == f.cols[cs[j]])
  {
    if k > 0 {
      KeepsPlanColumn(f, cs, k - 1, j);
      PassKeeps(f, cs, k, cs[j]);
    }
  }

  /** Pass `k` of the loop, as `normalize_columns` performs it: the column
      it reads is still the original one, so it can be scaled. */
  lemma NormalizeStep(f: Frame, cs: seq<string>, k: nat)
    requires WellFormed(f) && Plan(cs) && Normalizable(f, cs) && 0 < k <= |cs|
    ensures var d, c := NormalizeFirst(f, cs, k - 1), cs[k - 1];
      && (c in d.cols <==> c in f.cols)
      && NormalizableColumn(d, c)
      && (c in d.cols ==> NormalizeFirst(f, cs, k) == SetColumn(d, NormalizedName(c), ScaledColumn(d, c)))
      && (c !in d.cols ==> NormalizeFirst(f, cs, k) == d)
  {
    KeepsPlanColumn(f, cs, k - 1, k - 1);
    assert cs[k - 1] in cs;
  }

  /** `normalize_columns` applied to a table: every column of `cs` passed. */
  function Normalized(f: Frame, cs: seq<string>): (r: Frame)
    requires WellFormed(f) && Plan(cs) && Normalizable(f, cs)
    ensures WellFormed(r) && r.height == f.height && Normalizable(r, cs)
  {
    NormalizedNormalizable(f, cs);
    NormalizeFirst(f, cs, |cs|)
  }

  lemma NormalizedNormalizable(f: Frame, cs: seq<string>)
    requires WellFormed(f) && Plan(cs) && Normalizable(f, cs)
    ensures Normalizable(NormalizeFirst(f, cs, |cs|), cs)
  {
    forall c | c in cs
      ensures NormalizableColumn(NormalizeFirst(f, cs, |cs|), c)
    {
      var j :| 0 <= j < |cs| && cs[j] == c;
      KeepsPlanColumn(f, cs, |cs|, j);
    }
  }

  /** `n` is the normalized name of one of the first `k` columns of `cs`
      that are columns of `f`: a name one of the first `k` passes writes. */
  predicate AddedBy(f: Frame, cs: seq<string>, k: nat, n: string)
    requires k <= |cs|
  {
    k > 0 && (AddedBy(f, cs, k - 1, n) || (cs[k - 1] in f.cols && n == NormalizedName(cs[k - 1])))
  }

  lemma {:induction false} AddedByIff(f: Frame, cs: seq<string>, k: nat, n: string)
    requires k <= |cs|
    ensures AddedBy(f, cs, k, n) <==> exists j | 0 <= j < k :: cs[j] in f.cols && n == NormalizedName(cs[j])
  {
    if k > 0 {
      AddedByIff(f, cs, k - 1, n);
    }
  }

  /** Column `n` after the first `k` passes: present iff it was, or a pass
      wrote it; and a column no pass writes keeps its cells. */
  lemma {:induction false} NormalizeFirstKeeps(f: Frame, cs: seq<string>, k: nat, n: string)
    requires WellFormed(f) && Plan(cs) && Normalizable(f, cs) && k <= |cs|
    ensures var r := NormalizeFirst(f, cs, k);
      && (n in r.cols <==> n in f.cols || AddedBy(f, cs, k, n))
      && (n in f.cols && !AddedBy(f, cs, k, n) ==> r.cols[n] == f.cols[n])
  {
    if k > 0 {
      NormalizeFirstKeeps(f, cs, k - 1, n);
      NormalizeStep(f, cs, k);
    }
  }

  /** The pass for column `i` writes its scaled `<column>_normalized`. */
  lemma ScaledByOwnPass(f: Frame, cs: seq<string>, i: nat)
    requires WellFormed(f) && Plan(cs) && Normalizable(f, cs) && i < |cs| && cs[i] in f.cols
    ensures var r := NormalizeFirst(f, cs, i + 1);
      NormalizedName(cs[i]) in r.cols && r.cols[NormalizedName(cs[i])] == ScaledColumn(f, cs[i])
  {
    NormalizeStep(f, cs, i + 1);
    KeepsPlanColumn(f, cs, i, i);
  }

  lemma PlanNamesDiffer(cs: seq<string>, j: nat, i: nat)
    requires Plan(cs) && i < |cs| && j < |cs| && i != j
    ensures NormalizedName(cs[j]) != NormalizedName(cs[i])
  {
    if NormalizedName(cs[j]) == NormalizedName(cs[i]) {
      NormalizedNameInjective(cs[j], cs[i]);
    }
  }

  /** A pass leaves every column but the one it writes as it was. */
  lemma PassKeeps(f: Frame, cs: seq<string>, k: nat, n: string)
    requires WellFormed(f) && 0 < k <= |cs| && n != NormalizedName(cs[k - 1])
    ensures var g, r := NormalizeFirst(f, cs, k - 1), NormalizeFirst(f, cs, k);
      && (n in r.cols <==> n in g.cols)
      && (n in g.cols ==> r.cols[n] == g.cols[n])
  {
  }

  /** After the pass for column `i`, and every later one, `<column>_normalized`
      holds the scaled column. */
  lemma {:induction false} NormalizeFirstScaled(f: Frame, cs: seq<string>, k: nat, i: nat)
    requires WellFormed(f) && Plan(cs) && Normalizable(f, cs) && i < k <= |cs| && cs[i] in f.cols
    ensures var r := NormalizeFirst(f, cs, k);
      NormalizedName(cs[i]) in r.cols && r.cols[NormalizedName(cs[i])] == ScaledColumn(f, cs[i])
  {
    if i == k - 1 {
      ScaledByOwnPass(f, cs, i);
    } else {
      NormalizeFirstScaled(f, cs, k - 1, i);
      PlanNamesDiffer(cs, k - 1, i);
      PassKeeps(f, cs, k, NormalizedName(cs[i]));
    }
  }

  /** A column whose name is no normalized name keeps its cells. */
  lemma NormalizedKeeps(f: Frame, cs: seq<string>, n: string)
    requires WellFormed(f) && Plan(cs) && Normalizable(f, cs) && n in f.cols
    requires forall c | c in cs :: n != NormalizedName(c)
    ensures n in Normalized(f, cs).cols && Normalized(f, cs).cols[n] == f.cols[n]
  {
    NormalizeFirstKeeps(f, cs, |cs|, n);
    AddedByIff(f, cs, |cs|, n);
  }

  /** Each present column of `cs` gets its scaled `<column>_normalized`. */
  lemma NormalizedAdds(f: Frame, cs: seq<string>, c: string)
    requires WellFormed(f) && Plan(cs) && Normalizable(f, cs) && c in cs && c in f.cols
    ensures NormalizedName(c) in Normalized(f, cs).cols
    ensures Normalized(f, cs).cols[NormalizedName(c)] == ScaledColumn(f, c)
  {
    var i :| 0 <= i < |cs| && cs[i] == c;
    NormalizeFirstScaled(f, cs, |cs|, i);
  }

  /** Normalization only adds columns: the row count is unchanged, every
      original column other than a `<column>_normalized` one keeps its
      cells, each present column to normalize gets its scaled
      `<column>_normalized` column, no other column appears, and every
      column no pass writes (an existing `<column>_normalized` whose column
      is absent among them) keeps its cells. */
  lemma NormalizedSpec(f: Frame, cs: seq<string>)
    requires WellFormed(f) && Plan(cs) && Normalizable(f, cs)
    ensures var r := Normalized(f, cs);
      && r.height == f.height
      && (forall n | n in f.cols && (forall c | c in cs :: n != NormalizedName(c)) ::
            n in r.cols && r.cols[n] == f.cols[n])
      && (forall c | c in cs && c in f.cols ::
            NormalizedName(c) in r.cols && r.cols[NormalizedName(c)] == ScaledColumn(f, c))
      && (forall n | n in r.cols ::
            n in f.cols || exists c | c in cs && c in f.cols :: n == NormalizedName(c))
      && (forall n | n in f.cols && !AddedBy(f, cs, |cs|, n) :: n in r.cols && r.cols[n] == f.cols[n])
  {
    var r := Normalized(f, cs);
    forall n | n in f.cols && (forall c | c in cs :: n != NormalizedName(c))
      ensures n in r.cols && r.cols[n] == f.cols[n]
    {
      NormalizedKeeps(f, cs, n);
    }
    forall c | c in cs && c in f.cols
      ensures NormalizedName(c) in r.cols && r.cols[NormalizedName(c)] == ScaledColumn(f, c)
    {
      NormalizedAdds(f, cs, c);
    }
    forall n | n in r.cols
      ensures n in f.cols || exists c | c in cs && c in f.cols :: n == NormalizedName(c)
    {
      NormalizeFirstKeeps(f, cs, |cs|, n);
      AddedByIff(f, cs, |cs|, n);
    }
    forall n | n in f.cols && !AddedBy(f, cs, |cs|, n)
      ensures n in r.cols && r.cols[n] == f.cols[n]
    {
      NormalizeFirstKeeps(f, cs, |cs|, n);
    }
  }

  /** Running `normalize_columns` a second time changes nothing. */
  lemma NormalizedIdempotent(f: Frame, cs: seq<string>)
    requires WellFormed(f) && Plan(cs) && Normalizable(f, cs)
    ensures Normalized(Normalized(f, cs), cs) == Normalized(f, cs)
  {
    var g := Normalized(f, cs);
    var h := Normalized(g, cs);
    forall n
      ensures n in h.cols <==> n in g.cols
      ensures n in h.cols ==> h.cols[n] == g.cols[n]
    {
      RenormalizedAt(f, cs, n);
    }
    assert h.cols == g.cols;
  }

  lemma RenormalizedAt(f: Frame, cs: seq<string>, n: string)
    requires WellFormed(f) && Plan(cs) && Normalizable(f, cs)
    ensures var g := Normalized(f, cs); var h := Normalized(g, cs);
      (n in h.cols <==> n in g.cols) && (n in h.cols ==> h.cols[n] == g.cols[n])
  {
    var g := Normalized(f, cs);
    NormalizeFirstKeeps(g, cs, |cs|, n);
    AddedByIff(g, cs, |cs|, n);
    if AddedBy(g, cs, |cs|, n) {
      var j :| 0 <= j < |cs| && cs[j] in g.cols && n == NormalizedName(cs[j]);
      KeepsPlanColumn(f, cs, |cs|, j);
      NormalizeFirstScaled(f, cs, |cs|, j);
      NormalizeFirstScaled(g, cs, |cs|, j);
    }
  }
}
