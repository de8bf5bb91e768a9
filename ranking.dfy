/** `sorted(results, key=lambda x: x[1])`: Python's stable sort of
    (material, score) pairs by score, written as an insertion sort. */
module Ranking {
  import opened Frames

  /** One `(row['Material'], res.fun)` pair. */
  datatype Scored = Scored(material: Value, score: real)

  predicate SortedByScore(s: seq<Scored>)
  {
    forall i, j | 0 <= i < j < |s| :: s[i].score <= s[j].score
  }

  /** The entries whose score is `v`, in their order in `s`. */
  function WithScore(s: seq<Scored>, v: real): seq<Scored>
  {
    if s == [] then []
    else (if s[0].score == v then [s[0]] else []) + WithScore(s[1..], v)
  }

  function Materials(s: seq<Scored>): (m: seq<Value>)
    ensures |m| == |s| && forall i | 0 <= i < |s| :: m[i] == s[i].material
  {
    seq(|s|, i requires 0 <= i < |s| => s[i].material)
  }

  /** Places `x` in front of the first entry whose score is not smaller, so
      that `x` stays ahead of the entries it ties with. */
  function Insert(x: Scored, s: seq<Scored>): (r: seq<Scored>)
    requires SortedByScore(s)
    ensures SortedByScore(r) && |r| == |s| + 1
    ensures multiset(r) == multiset(s) + multiset{x}
  {
    if s == [] || x.score <= s[0].score then
      [x] + s
    else
      var t := Insert(x, s[1..]);
      assert s == [s[0]] + s[1..];
      assert t[0] in multiset(s[1..]) + multiset{x};
      [s[0]] + t
  }

  function Rank(s: seq<Scored>): (r: seq<Scored>)
    ensures SortedByScore(r) && |r| == |s|
    ensures multiset(r) == multiset(s)
  {
    if s == [] then []
    else
      assert s == [s[0]] + s[1..];
      Insert(s[0], Rank(s[1..]))
  }

  lemma {:induction false} WithScoreAppend(a: seq<Scored>, b: seq<Scored>, v: real)
    ensures WithScore(a + b, v) == WithScore(a, v) + WithScore(b, v)
  {
    if a == [] {
      assert a + b == b;
    } else {
      assert (a + b)[1..] == a[1..] + b;
      WithScoreAppend(a[1..], b, v);
    }
  }

  lemma WithScoreSingle(y: Scored, v: real)
    ensures WithScore([y], v) == if y.score == v then [y] else []
  {
    assert [y][1..] == [];
  }

  lemma {:induction false} InsertKeepsTies(x: Scored, s: seq<Scored>, v: real)
    requires SortedByScore(s)
    ensures WithScore(Insert(x, s), v) == WithScore([x] + s, v)
  {
    if s != [] && x.score > s[0].score {
      var s0, rest := s[0], s[1..];
      assert s == [s0] + rest;
      var t := Insert(x, rest);
      assert Insert(x, s) == [s0] + t;
      WithScoreSingle(x, v);
      WithScoreSingle(s0, v);
      calc {
        WithScore(Insert(x, s), v);
        { WithScoreAppend([s0], t, v); }
        WithScore([s0], v) + WithScore(t, v);
        { InsertKeepsTies(x, rest, v); WithScoreAppend([x], rest, v); }
        WithScore([s0], v) + (WithScore([x], v) + WithScore(rest, v));
        { SwapSingles(s0, x, WithScore(rest, v), v); }
        WithScore([x], v) + (WithScore([s0], v) + WithScore(rest, v));
        { WithScoreAppend([s0], rest, v); }
        WithScore([x], v) + WithScore(s, v);
        { WithScoreAppend([x], s, v); }
        WithScore([x] + s, v);
      }
    }
  }

  /** Entries with different scores never both survive one filter. */
  lemma SwapSingles(a: Scored, b: Scored, t: seq<Scored>, v: real)
    requires a.score != b.score
    ensures WithScore([a], v) + (WithScore([b], v) + t) == WithScore([b], v) + (WithScore([a], v) + t)
  {
    WithScoreSingle(a, v);
    WithScoreSingle(b, v);
  }

  /** Stability: for every score, the entries with that score appear in the
      ranking in the same relative order as in the input. */
  lemma {:induction false} RankIsStable(s: seq<Scored>, v: real)
    ensures WithScore(Rank(s), v) == WithScore(s, v)
  {
    if s != [] {
      var s0, rest := s[0], s[1..];
      assert s == [s0] + rest;
      calc {
        WithScore(Rank(s), v);
        WithScore(Insert(s0, Rank(rest)), v);
        { InsertKeepsTies(s0, Rank(rest), v); }
        WithScore([s0] + Rank(rest), v);
        { WithScoreAppend([s0], Rank(rest), v); }
        WithScore([s0], v) + WithScore(Rank(rest), v);
        { RankIsStable(rest, v); }
        WithScore([s0], v) + WithScore(rest, v);
        { WithScoreAppend([s0], rest, v); }
        WithScore(s, v);
      }
    }
  }

  lemma MaterialsCons(x: Scored, s: seq<Scored>)
    ensures multiset(Materials([x] + s)) == multiset{x.material} + multiset(Materials(s))
  {
    assert Materials([x] + s) == [x.material] + Materials(s);
  }

  /** Inserting adds the entry's material to the materials. */
  lemma {:induction false} MaterialsOfInsert(x: Scored, s: seq<Scored>)
    requires SortedByScore(s)
    ensures multiset(Materials(Insert(x, s))) == multiset(Materials(s)) + multiset{x.material}
  {
    if s == [] || x.score <= s[0].score {
      MaterialsCons(x, s);
    } else {
      var y, rest := s[0], s[1..];
      assert s == [y] + rest;
      calc {
        multiset(Materials(Insert(x, s)));
        multiset(Materials([y] + Insert(x, rest)));
        { MaterialsCons(y, Insert(x, rest)); }
        multiset{y.material} + multiset(Materials(Insert(x, rest)));
        { MaterialsOfInsert(x, rest); }
        multiset{y.material} + multiset(Materials(rest)) + multiset{x.material};
        { MaterialsCons(y, rest); }
        multiset(Materials([y] + rest)) + multiset{x.material};
      }
    }
  }

  /** The ranked materials are a permutation of the input materials. */
  lemma {:induction false} RankPermutesMaterials(s: seq<Scored>)
    ensures multiset(Materials(Rank(s))) == multiset(Materials(s))
  {
    if s != [] {
      var x, rest := s[0], s[1..];
      assert s == [x] + rest;
      calc {
        multiset(Materials(Rank(s)));
        multiset(Materials(Insert(x, Rank(rest))));
        { MaterialsOfInsert(x, Rank(rest)); }
        multiset(Materials(Rank(rest))) + multiset{x.material};
        { RankPermutesMaterials(rest); }
        multiset(Materials(rest)) + multiset{x.material};
        { MaterialsCons(x, rest); }
        multiset(Materials([x] + rest));
      }
    }
  }

  /** When every score is the same the ranking is the input order. */
  lemma {:induction false} RankOfTies(s: seq<Scored>, v: real)
    requires forall i | 0 <= i < |s| :: s[i].score == v
    ensures Rank(s) == s
  {
    if s != [] {
      RankOfTies(s[1..], v);
      assert s == [s[0]] + s[1..];
    }
  }
}
