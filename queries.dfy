/** What the SQL queries of the services do after filtering: `ORDER BY`
    a key (ascending or `desc(...)`), `LIMIT n`, and the averages the
    handlers compute over ratings. Rows are ordered by pairing each with its
    key; ties keep no particular order in SQL, and the model's insertion
    sort picks one of the admissible orders. */
module Queries {

  /** `a` may come before `b` in the requested direction. */
  predicate InOrder(a: int, b: int, descending: bool)
  {
    if descending then a >= b else a <= b
  }

  predicate SortedByKey<T>(s: seq<(int, T)>, descending: bool)
  {
    forall i, j :: 0 <= i < j < |s| ==> InOrder(s[i].0, s[j].0, descending)
  }

  /** Inserts one keyed row into a sorted run, before the first row it
      may precede. */
  function Insert<T(==)>(x: (int, T), s: seq<(int, T)>, descending: bool): (r: seq<(int, T)>)
    ensures multiset(r) == multiset(s) + multiset{x}
    ensures forall i :: 0 <= i < |r| ==> r[i] == x || r[i] in s
    decreases |s|
  {
    if s == [] then [x]
    else if InOrder(x.0, s[0].0, descending) then [x] + s
    else
      assert s == [s[0]] + s[1..];
      [s[0]] + Insert(x, s[1..], descending)
  }

  /** Inserting into a sorted run keeps it sorted. */
  lemma {:induction false} InsertSorted<T>(x: (int, T), s: seq<(int, T)>, descending: bool)
    requires SortedByKey(s, descending)
    ensures SortedByKey(Insert(x, s, descending), descending)
    decreases |s|
  {
    if s != [] && !InOrder(x.0, s[0].0, descending) {
      var tail := s[1..];
      InsertSorted(x, tail, descending);
      var rest := Insert(x, tail, descending);
      forall i | 0 <= i < |rest|
        ensures InOrder(s[0].0, rest[i].0, descending)
      {
        if rest[i] != x {
          var k :| 0 <= k < |tail| && tail[k] == rest[i];
          assert s[k + 1] == rest[i];
        }
      }
      var r := Insert(x, s, descending);
      assert r == [s[0]] + rest;
      forall i, j | 0 <= i < j < |r|
        ensures InOrder(r[i].0, r[j].0, descending)
      {
        if i > 0 {
          assert r[i] == rest[i - 1] && r[j] == rest[j - 1];
        } else {
          assert r[j] == rest[j - 1];
        }
      }
    }
  }

  /** `ORDER BY key` (or `ORDER BY key DESC`) over keyed rows: a sorted
      permutation of the input. */
  function SortByKey<T(==)>(s: seq<(int, T)>, descending: bool): (r: seq<(int, T)>)
    ensures SortedByKey(r, descending)
    ensures multiset(r) == multiset(s)
    decreases |s|
  {
    if s == [] then []
    else
      var rest := SortByKey(s[1..], descending);
      InsertSorted(s[0], rest, descending);
      assert s == [s[0]] + s[1..];
      Insert(s[0], rest, descending)
  }

  /** The rows of keyed pairs, in order. */
  function Rows<T>(s: seq<(int, T)>): (r: seq<T>)
    ensures |r| == |s|
    ensures forall i :: 0 <= i < |s| ==> r[i] == s[i].1
  {
    seq(|s|, i requires 0 <= i < |s| => s[i].1)
  }

  /** Sorting keeps the rows: every sorted row is an input row, and every
      input row's value appears among the sorted values. */
  lemma SortedRowsSameMembers<T>(s: seq<(int, T)>, descending: bool)
    ensures forall k :: 0 <= k < |SortByKey(s, descending)| ==> SortByKey(s, descending)[k] in s
    ensures forall x :: x in s ==> x.1 in Rows(SortByKey(s, descending))
  {
    var sorted := SortByKey(s, descending);
    forall k | 0 <= k < |sorted|
      ensures sorted[k] in s
    {
      assert sorted[k] in multiset(sorted);
    }
    forall x | x in s
      ensures x.1 in Rows(sorted)
    {
      assert x in multiset(sorted);
      var k :| 0 <= k < |sorted| && sorted[k] == x;
      assert Rows(sorted)[k] == x.1;
    }
  }

  /** The values of a concatenation are the values of its parts. */
  lemma RowsAppend<T>(a: seq<(int, T)>, b: seq<(int, T)>)
    ensures Rows(a + b) == Rows(a) + Rows(b)
  {
  }

  /** Inserting a keyed row adds its value once and keeps every other
      value as often as it was there. */
  lemma {:induction false} InsertKeepsRows<T>(x: (int, T), s: seq<(int, T)>, descending: bool)
    ensures multiset(Rows(Insert(x, s, descending))) == multiset(Rows(s)) + multiset{x.1}
    decreases |s|
  {
    if s == [] {
      assert Rows([x]) == [x.1];
    } else if InOrder(x.0, s[0].0, descending) {
      RowsAppend([x], s);
      assert Rows([x]) == [x.1];
    } else {
      InsertKeepsRows(x, s[1..], descending);
      RowsAppend([s[0]], Insert(x, s[1..], descending));
      RowsAppend([s[0]], s[1..]);
      assert s == [s[0]] + s[1..];
      assert Rows([s[0]]) == [s[0].1];
    }
  }

  /** Sorting keeps each value exactly as many times as it occurs. */
  lemma {:induction false} SortKeepsRows<T>(s: seq<(int, T)>, descending: bool)
    ensures multiset(Rows(SortByKey(s, descending))) == multiset(Rows(s))
    decreases |s|
  {
    if s != [] {
      SortKeepsRows(s[1..], descending);
      InsertKeepsRows(s[0], SortByKey(s[1..], descending), descending);
      RowsAppend([s[0]], s[1..]);
      assert s == [s[0]] + s[1..];
      assert Rows([s[0]]) == [s[0].1];
    }
  }

  /** `LIMIT n`: the first `n` rows, or all of them when there are fewer. */
  function Take<T>(s: seq<T>, n: nat): (r: seq<T>)
    ensures |r| <= n && |r| <= |s|
    ensures |r| == if |s| <= n then |s| else n
    ensures r == s[..|r|]
    ensures |r| == n || r == s
  {
    if n < |s| then s[..n] else s
  }

  /** A sub-multiset is no larger. */
  lemma {:induction false} SubMultisetNoLarger<T>(a: multiset<T>, b: multiset<T>)
    requires a <= b
    ensures |a| <= |b|
    decreases |a|
  {
    if |a| > 0 {
      var x :| x in a;
      assert a == (a - multiset{x}) + multiset{x};
      assert b == (b - multiset{x}) + multiset{x};
      SubMultisetNoLarger(a - multiset{x}, b - multiset{x});
    }
  }

  /** A row the limit leaves out sits at or after position `n`, so `n`
      rows were kept, all of them before it. */
  lemma TakeCutsOnlyTail<T>(s: seq<T>, n: nat, j: nat)
    requires j < |s|
    ensures s[j] !in Take(s, n) ==> |Take(s, n)| == n && n <= j
    ensures forall k :: 0 <= k < |Take(s, n)| ==> Take(s, n)[k] == s[k]
  {
    if j < |Take(s, n)| {
      assert Take(s, n)[j] == s[j];
    }
  }

  function Sum(xs: seq<int>): int
    decreases |xs|
  {
    if xs == [] then 0 else xs[0] + Sum(xs[1..])
  }

  /** The arithmetic mean used for package ratings: 0 when there is no
      rating, the sum over the count otherwise. */
  function Mean(xs: seq<int>): real
  {
    if |xs| == 0 then 0.0 else Sum(xs) as real / |xs| as real
  }

  /** SQL Server's `AVG` over an integer column: the integer quotient of
      the sum by the count, truncated toward zero, and 0 when there is no
      value (the caller's `or 0`). */
  function IntAverage(xs: seq<int>): (r: int)
    ensures |xs| == 0 ==> r == 0
    ensures |xs| > 0 && Sum(xs) >= 0 ==> 0 <= r && r * |xs| <= Sum(xs) < (r + 1) * |xs|
    ensures |xs| > 0 && Sum(xs) < 0 ==> r <= 0 && (r - 1) * |xs| < Sum(xs) <= r * |xs|
  {
    if |xs| == 0 then 0
    else if Sum(xs) >= 0 then Sum(xs) / |xs|
    else -((-Sum(xs)) / |xs|)
  }

  lemma {:induction false} SumWithin(xs: seq<int>, lo: int, hi: int)
    requires forall i :: 0 <= i < |xs| ==> lo <= xs[i] <= hi
    ensures |xs| * lo <= Sum(xs) <= |xs| * hi
    decreases |xs|
  {
    if xs != [] {
      SumWithin(xs[1..], lo, hi);
    }
  }

  /** Dividing a total bounded by `n * lo` and `n * hi` by `n`. */
  lemma QuotientWithin(total: real, n: real, lo: real, hi: real)
    requires n > 0.0
    requires n * lo <= total <= n * hi
    ensures lo <= total / n <= hi
  {
    assert total == (total / n) * n;
  }

  lemma ProductAsReal(a: int, b: int)
    ensures (a * b) as real == a as real * b as real
  {
  }

  /** A mean of ratings that all lie in `[lo, hi]` lies in `[lo, hi]`. */
  lemma MeanWithin(xs: seq<int>, lo: int, hi: int)
    requires |xs| > 0
    requires forall i :: 0 <= i < |xs| ==> lo <= xs[i] <= hi
    ensures lo as real <= Mean(xs) <= hi as real
  {
    SumWithin(xs, lo, hi);
    ProductAsReal(|xs|, lo);
    ProductAsReal(|xs|, hi);
    QuotientWithin(Sum(xs) as real, |xs| as real, lo as real, hi as real);
  }

  /** The SQL average of values that all lie in `[lo, hi]`, with `lo`
      non-negative, lies in `[lo, hi]` too. */
  lemma IntAverageWithin(xs: seq<int>, lo: int, hi: int)
    requires |xs| > 0 && 0 <= lo
    requires forall i :: 0 <= i < |xs| ==> lo <= xs[i] <= hi
    ensures lo <= IntAverage(xs) <= hi
  {
    SumWithin(xs, lo, hi);
    var q, n := IntAverage(xs), |xs|;
    CancelFactor(lo, q + 1, n);
    CancelFactorLe(q, hi, n);
  }

  /** Cancelling a positive factor from a strict product inequality. */
  lemma CancelFactor(a: int, b: int, n: int)
    requires n > 0 && a * n < b * n
    ensures a < b
  {
  }

  /** Cancelling a positive factor from a product inequality. */
  lemma CancelFactorLe(a: int, b: int, n: int)
    requires n > 0 && a * n <= b * n
    ensures a <= b
  {
  }

  /** A total between `q * n` and `(q + 1) * n` divided by `n` as a real
      lies in `[q, q + 1)`, and is `q` exactly when the total is `q * n`. */
  lemma TruncatedQuotient(t: int, n: int, q: int)
    requires n > 0 && q * n <= t < (q + 1) * n
    ensures q as real <= t as real / n as real < (q + 1) as real
    ensures q as real == t as real / n as real <==> t == q * n
  {
    var m := t as real / n as real;
    assert m * n as real == t as real;
    ProductAsReal(q, n);
    ProductAsReal(q + 1, n);
    assert q as real * n as real <= m * n as real;
    assert m * n as real < (q + 1) as real * n as real;
    CancelRealLe(q as real, m, n as real);
    CancelReal(m, (q + 1) as real, n as real);
    if t == q * n {
      assert (q as real * n as real) / n as real == q as real;
    }
  }

  /** Cancelling a positive real factor from a product inequality. */
  lemma CancelRealLe(a: real, b: real, n: real)
    requires n > 0.0 && a * n <= b * n
    ensures a <= b
  {
  }

  /** Cancelling a positive real factor from a strict product inequality. */
  lemma CancelReal(a: real, b: real, n: real)
    requires n > 0.0 && a * n < b * n
    ensures a < b
  {
  }

  /** The SQL average never exceeds the exact mean of non-negative values
      and falls short of it by less than one; it equals the mean exactly
      when the count divides the sum. */
  lemma IntAverageTruncates(xs: seq<int>)
    requires |xs| > 0 && Sum(xs) >= 0
    ensures IntAverage(xs) as real <= Mean(xs) < IntAverage(xs) as real + 1.0
    ensures IntAverage(xs) as real == Mean(xs) <==> Sum(xs) % |xs| == 0
  {
    var q, n, t := IntAverage(xs), |xs|, Sum(xs);
    TruncatedQuotient(t, n, q);
    assert t == q * n + t % n;
  }
}
