/** Column statistics and the group-by selection used by pandas `min`,
    `max`, `mean`, `sum` and `groupby`. */
module Stats {

  function Min(s: seq<real>): (m: real)
    requires |s| > 0
    ensures m in s && forall i | 0 <= i < |s| :: m <= s[i]
  {
    if |s| == 1 then s[0]
    else
      var t := Min(s[1..]);
      if s[0] <= t then s[0] else t
  }

  function Max(s: seq<real>): (m: real)
    requires |s| > 0
    ensures m in s && forall i | 0 <= i < |s| :: s[i] <= m
  {
    if |s| == 1 then s[0]
    else
      var t := Max(s[1..]);
      if t <= s[0] then s[0] else t
  }

  function Sum(s: seq<real>): real
  {
    if s == [] then 0.0 else s[0] + Sum(s[1..])
  }

  /** A lower bound of every entry bounds the sum by `|s|` times itself. */
  lemma {:induction false} SumAtLeast(s: seq<real>, lo: real)
    requires forall i | 0 <= i < |s| :: lo <= s[i]
    ensures (|s| as real) * lo <= Sum(s)
  {
    if s != [] {
      SumAtLeast(s[1..], lo);
    }
  }

  lemma {:induction false} SumAtMost(s: seq<real>, hi: real)
    requires forall i | 0 <= i < |s| :: s[i] <= hi
    ensures Sum(s) <= (|s| as real) * hi
  {
    if s != [] {
      SumAtMost(s[1..], hi);
    }
  }

  /** The arithmetic mean; it lies between the smallest and largest value. */
  function Mean(s: seq<real>): (m: real)
    requires |s| > 0
    ensures Min(s) <= m <= Max(s)
  {
    SumAtLeast(s, Min(s));
    SumAtMost(s, Max(s));
    QuotientAtLeast(Sum(s), |s| as real, Min(s));
    QuotientAtMost(Sum(s), |s| as real, Max(s));
    Sum(s) / (|s| as real)
  }

  lemma QuotientAtLeast(a: real, n: real, lo: real)
    requires n > 0.0 && n * lo <= a
    ensures lo <= a / n
  {
    assert (a / n) * n == a;
  }

  lemma QuotientAtMost(a: real, n: real, hi: real)
    requires n > 0.0 && a <= n * hi
    ensures a / n <= hi
  {
    assert (a / n) * n == a;
  }

  /** The values whose key equals `k`, in row order: one group of a
      `groupby`. It has one entry per occurrence of `k` among the keys. */
  function Select<K(==), T>(keys: seq<K>, vals: seq<T>, k: K): (r: seq<T>)
    requires |keys| == |vals|
    ensures |r| == multiset(keys)[k]
    ensures |r| > 0 <==> k in keys
  {
    if keys == [] then []
    else
      assert keys == [keys[0]] + keys[1..];
      (if keys[0] == k then [vals[0]] else []) + Select(keys[1..], vals[1..], k)
  }

  /** How many entries of `s` equal `v`. */
  function Count<T(==)>(s: seq<T>, v: T): (n: nat)
    ensures n <= |s| && n == multiset(s)[v]
  {
    if s == [] then 0
    else
      assert s == [s[0]] + s[1..];
      (if s[0] == v then 1 else 0) + Count(s[1..], v)
  }
}
