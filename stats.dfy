/** Statistics over sequences of reals: the pandas/numpy reductions the engine
    uses (`sum`, `mean`, `quantile(0.25)`) and an order-by-key sort, which the
    quantile and the high-risk triage view both need. All arithmetic is exact. */
module Stats {

  /** `Series.sum()`: the sum of the values, 0 for no values. */
  function Sum(s: seq<real>): real
  {
    if s == [] then 0.0 else s[0] + Sum(s[1..])
  }

  /** `Series.mean()` over a non-empty series. */
  function Mean(s: seq<real>): real
    requires |s| > 0
  {
    Sum(s) / (|s| as real)
  }

  lemma {:induction false} SumAppend(a: seq<real>, b: seq<real>)
    ensures Sum(a + b) == Sum(a) + Sum(b)
  {
    if a == [] {
      assert a + b == b;
    } else {
      assert (a + b)[1..] == a[1..] + b;
      SumAppend(a[1..], b);
    }
  }

  /** A series whose every value is `c` sums to `|s| * c`. */
  lemma {:induction false} SumConstant(s: seq<real>, c: real)
    requires forall i :: 0 <= i < |s| ==> s[i] == c
    ensures Sum(s) == (|s| as real) * c
  {
    if s != [] {
      SumConstant(s[1..], c);
    }
  }

  /** The mean of a constant series is that constant. */
  lemma MeanConstant(s: seq<real>, c: real)
    requires |s| > 0
    requires forall i :: 0 <= i < |s| ==> s[i] == c
    ensures Mean(s) == c
  {
    SumConstant(s, c);
  }

  /** Comparing a mean with a bound is comparing the sum with `|s|` times it. */
  lemma MeanCompare(s: seq<real>, c: real)
    requires |s| > 0
    ensures Mean(s) > c <==> Sum(s) > c * (|s| as real)
    ensures Mean(s) < c <==> Sum(s) < c * (|s| as real)
  {
    var n := |s| as real;
    assert Sum(s) == Mean(s) * n;
    if Mean(s) > c { assert Mean(s) * n > c * n; }
    if Mean(s) < c { assert Mean(s) * n < c * n; }
    if Sum(s) > c * n { assert Mean(s) * n > c * n; }
    if Sum(s) < c * n { assert Mean(s) * n < c * n; }
  }

  /** Means over windows of equal length compare as their sums do. */
  lemma MeanCompareSameLength(a: seq<real>, b: seq<real>)
    requires |a| == |b| > 0
    ensures Mean(a) > Mean(b) <==> Sum(a) > Sum(b)
  {
    DivideCompare(Sum(a), Sum(b), |a| as real);
  }

  /** Dividing by the same positive number keeps a strict order. */
  lemma DivideCompare(x: real, y: real, n: real)
    requires n > 0.0
    ensures x / n > y / n <==> x > y
  {
    var p, q := x / n, y / n;
    assert x == p * n && y == q * n;
    if p > q { assert p * n > q * n; }
    if x > y { assert p * n > q * n; }
  }

  lemma SumOfThree(s: seq<real>)
    requires |s| == 3
    ensures Sum(s) == s[0] + s[1] + s[2]
  {
    assert Sum(s[2..]) == s[2] + Sum(s[3..]);
    assert Sum(s[1..]) == s[1] + Sum(s[2..]);
  }

  lemma SumOfFour(s: seq<real>)
    requires |s| == 4
    ensures Sum(s) == s[0] + s[1] + s[2] + s[3]
  {
    assert Sum(s[3..]) == s[3] + Sum(s[4..]);
    assert Sum(s[2..]) == s[2] + Sum(s[3..]);
    assert Sum(s[1..]) == s[1] + Sum(s[2..]);
  }

  /** `s` is in non-decreasing order of `key`. */
  predicate SortedBy<T>(s: seq<T>, key: T -> real)
  {
    forall i, j :: 0 <= i < j < |s| ==> key(s[i]) <= key(s[j])
  }

  /** Inserts `x` into a sequence already sorted by `key`. */
  function Insert<T(==)>(x: T, s: seq<T>, key: T -> real): (r: seq<T>)
    requires SortedBy(s, key)
    ensures |r| == |s| + 1
    ensures SortedBy(r, key)
    ensures multiset(r) == multiset(s) + multiset{x}
    ensures r[0] == x || (s != [] && r[0] == s[0])
  {
    if s == [] then [x]
    else if key(x) <= key(s[0]) then [x] + s
    else
      var r := Insert(x, s[1..], key);
      InsertStep(x, s, r, key);
      [s[0]] + r
  }

  /** Putting the smallest element back in front of the insertion into the
      rest keeps the order and the elements. */
  lemma InsertStep<T>(x: T, s: seq<T>, r: seq<T>, key: T -> real)
    requires s != [] && SortedBy(s, key) && key(s[0]) < key(x)
    requires SortedBy(r, key) && r != []
    requires multiset(r) == multiset(s[1..]) + multiset{x}
    requires r[0] == x || (s[1..] != [] && r[0] == s[1..][0])
    ensures SortedBy([s[0]] + r, key)
    ensures multiset([s[0]] + r) == multiset(s) + multiset{x}
  {
    if r[0] != x {
      assert key(s[0]) <= key(s[1]);
    }
    SortedCons(s[0], r, key);
    assert s == [s[0]] + s[1..];
  }

  /** Putting a key no larger than the first in front keeps a sequence sorted. */
  lemma SortedCons<T>(h: T, r: seq<T>, key: T -> real)
    requires SortedBy(r, key)
    requires r != [] ==> key(h) <= key(r[0])
    ensures SortedBy([h] + r, key)
  {
    var c := [h] + r;
    forall i, j | 0 <= i < j < |c| ensures key(c[i]) <= key(c[j]) {
      if i == 0 && j > 1 {
        assert c[j] == r[j - 1];
        assert key(r[0]) <= key(r[j - 1]);
      }
    }
  }

  /** `sort_values` by `key`: a rearrangement of `s` in non-decreasing key order. */
  function SortBy<T(==)>(s: seq<T>, key: T -> real): (r: seq<T>)
    ensures |r| == |s|
    ensures SortedBy(r, key)
    ensures multiset(r) == multiset(s)
  {
    if s == [] then []
    else
      assert s == [s[0]] + s[1..];
      Insert(s[0], SortBy(s[1..], key), key)
  }

  function Identity(x: real): real { x }

  /** `Series.quantile(0.25)` with pandas's default linear interpolation:
      the value at fractional rank (n - 1) / 4 of the sorted values. */
  function Quantile25(values: seq<real>): (q: real)
    requires |values| > 0
    ensures exists i :: 0 <= i < |values| && values[i] <= q
    ensures exists j :: 0 <= j < |values| && q <= values[j]
  {
    var v := SortBy(values, Identity);
    SortedQuartileWithin(values, v);
    AtQuarterRank(v)
  }

  /** Linear interpolation at rank (n - 1) / 4 of the (sorted) values `v`. */
  function AtQuarterRank(v: seq<real>): real
    requires |v| > 0
  {
    QuantilePosition(|v|);
    Interpolate(v, (|v| - 1) / 4, ((|v| - 1) % 4) as real / 4.0)
  }

  /** The value a fraction `frac` of the way from `v[lo]` to `v[lo + 1]`;
      with a whole rank there is nothing to interpolate. */
  function Interpolate(v: seq<real>, lo: nat, frac: real): real
    requires lo < |v| && 0.0 <= frac < 1.0
    requires frac != 0.0 ==> lo + 1 < |v|
  {
    if frac == 0.0 then v[lo] else v[lo] + frac * (v[lo + 1] - v[lo])
  }

  /** Where linear interpolation at rank (n - 1) / 4 reads the sorted values. */
  lemma QuantilePosition(n: nat)
    requires n > 0
    ensures (n - 1) / 4 < n
    ensures 0.0 <= ((n - 1) % 4) as real / 4.0 < 1.0
    ensures ((n - 1) % 4) as real / 4.0 != 0.0 ==> (n - 1) / 4 + 1 < n
  {
    var lo, rem := (n - 1) / 4, (n - 1) % 4;
    assert n - 1 == 4 * lo + rem;
  }

  /** On sorted values the interpolated quartile lies between the first and the last. */
  lemma AtQuarterRankBetween(v: seq<real>)
    requires |v| > 0 && SortedBy(v, Identity)
    ensures v[0] <= AtQuarterRank(v) <= v[|v| - 1]
  {
    QuantilePosition(|v|);
    InterpolateBetween(v, (|v| - 1) / 4, ((|v| - 1) % 4) as real / 4.0);
  }

  lemma InterpolateBetween(v: seq<real>, lo: nat, frac: real)
    requires lo < |v| && 0.0 <= frac < 1.0
    requires frac != 0.0 ==> lo + 1 < |v|
    requires SortedBy(v, Identity)
    ensures v[0] <= Interpolate(v, lo, frac) <= v[|v| - 1]
  {
    var n := |v|;
    SortedPair(v, 0, lo);
    SortedPair(v, lo, n - 1);
    if frac != 0.0 {
      SortedPair(v, lo, lo + 1);
      SortedPair(v, lo + 1, n - 1);
      InterpolationBetween(v[lo], v[lo + 1], frac);
    }
  }

  lemma SortedPair(v: seq<real>, i: nat, j: nat)
    requires i <= j < |v| && SortedBy(v, Identity)
    ensures v[i] <= v[j]
  {
    if i < j {
      assert Identity(v[i]) <= Identity(v[j]);
    }
  }

  /** Interpolating the sorted values lands between two of the values. */
  lemma SortedQuartileWithin(values: seq<real>, v: seq<real>)
    requires |values| > 0 && v == SortBy(values, Identity)
    ensures exists i :: 0 <= i < |values| && values[i] <= AtQuarterRank(v)
    ensures exists j :: 0 <= j < |values| && AtQuarterRank(v) <= values[j]
  {
    var n := |v|;
    AtQuarterRankBetween(v);
    assert v[0] in multiset(values) && v[n - 1] in multiset(values) by {
      assert v[0] in multiset(v) && v[n - 1] in multiset(v);
    }
    var i :| 0 <= i < |values| && values[i] == v[0];
    var j :| 0 <= j < |values| && values[j] == v[n - 1];
  }

  lemma InterpolationBetween(a: real, b: real, t: real)
    requires a <= b && 0.0 <= t <= 1.0
    ensures a <= a + t * (b - a) <= b
  {
    assert t * (b - a) <= 1.0 * (b - a);
  }

  /** The 25th percentile of a constant series is that constant. */
  lemma QuantileConstant(values: seq<real>, c: real)
    requires |values| > 0
    requires forall i :: 0 <= i < |values| ==> values[i] == c
    ensures Quantile25(values) == c
  {
  }
}
