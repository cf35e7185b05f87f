/** The interpolated percentile of the load-test report, over exact numbers. */
module Percentile {

  // ----- Sorting -----

  ghost predicate IsSorted(s: seq<real>) {
    forall i, j :: 0 <= i <= j < |s| ==> s[i] <= s[j]
  }

  function Insert(s: seq<real>, x: real): (r: seq<real>)
    ensures multiset(r) == multiset(s) + multiset{x}
  {
    if s == [] then [x]
    else if x <= s[0] then [x] + s
    else
      assert s == [s[0]] + s[1..];
      [s[0]] + Insert(s[1..], x)
  }

  function Sorted(s: seq<real>): (r: seq<real>)
    ensures multiset(r) == multiset(s)
    ensures |r| == |s|
  {
    if s == [] then []
    else
      assert s == s[..|s| - 1] + [s[|s| - 1]];
      var r := Insert(Sorted(s[..|s| - 1]), s[|s| - 1]);
      assert |multiset(r)| == |r| && |multiset(s)| == |s|;
      r
  }

  lemma {:induction false} InsertKeepsSorted(s: seq<real>, x: real)
    requires IsSorted(s)
    ensures IsSorted(Insert(s, x))
    decreases |s|
  {
    if s == [] || x <= s[0] {
      PrependKeepsSorted(x, s);
    } else {
      InsertKeepsSorted(s[1..], x);
      InsertedOrThere(s[1..], x);
      PrependKeepsSorted(s[0], Insert(s[1..], x));
    }
  }

  lemma {:induction false} PrependKeepsSorted(x: real, s: seq<real>)
    requires IsSorted(s) && forall v :: v in s ==> x <= v
    ensures IsSorted([x] + s)
  {
    var r := [x] + s;
    forall i, j | 0 <= i <= j < |r| ensures r[i] <= r[j] {
      if i == 0 && j > 0 {
        assert s[j - 1] in s;
      }
    }
  }

  lemma {:induction false} InsertedOrThere(s: seq<real>, x: real)
    ensures forall v :: v in Insert(s, x) ==> v == x || v in s
  {
    forall v | v in Insert(s, x) ensures v == x || v in s {
      assert v in multiset(Insert(s, x));
    }
  }

  lemma {:induction false} SortedIsSorted(s: seq<real>)
    ensures IsSorted(Sorted(s))
    decreases |s|
  {
    if s == [] {
    } else {
      SortedIsSorted(s[..|s| - 1]);
      InsertKeepsSorted(Sorted(s[..|s| - 1]), s[|s| - 1]);
    }
  }

  lemma {:induction false} TailIsSorted(s: seq<real>)
    requires s != [] && IsSorted(s)
    ensures IsSorted(s[1..])
  {
  }

  /** A sorted order is unique. */
  lemma {:induction false} SortedIsUnique(a: seq<real>, b: seq<real>)
    requires IsSorted(a) && IsSorted(b) && multiset(a) == multiset(b)
    ensures a == b
    decreases |a|
  {
    assert |multiset(a)| == |a| && |multiset(b)| == |b|;
    if a == [] {
    } else {
      LeastComesFirst(a, b);
      TailIsSorted(a);
      TailIsSorted(b);
      hide IsSorted;
      assert a == [a[0]] + a[1..] && b == [b[0]] + b[1..];
      assert multiset(a[1..]) == multiset(a) - multiset{a[0]};
      assert multiset(b[1..]) == multiset(b) - multiset{b[0]};
      SortedIsUnique(a[1..], b[1..]);
    }
  }

  lemma {:induction false} LeastComesFirst(a: seq<real>, b: seq<real>)
    requires IsSorted(a) && IsSorted(b) && multiset(a) == multiset(b) && a != [] && b != []
    ensures a[0] == b[0]
  {
    assert a[0] in multiset(b) && b[0] in multiset(a);
  }

  // ----- The percentile -----

  function Ceiling(x: real): int {
    -((-x).Floor)
  }

  lemma {:induction false} FloorIsAtLeast(x: real, k: int)
    requires k as real <= x
    ensures k <= x.Floor
  {
  }

  lemma {:induction false} FloorAndCeiling(x: real, n: nat)
    requires 0.0 <= x <= n as real
    ensures 0 <= x.Floor <= Ceiling(x) <= n && x.Floor as real <= x <= Ceiling(x) as real && Ceiling(x) <= x.Floor + 1
    ensures x.Floor == Ceiling(x) <==> x == x.Floor as real
  {
    assert (-x).Floor as real <= -x < (-x).Floor as real + 1.0;
    FloorIsAtLeast(-x, 0 - n);
  }

  function Interpolated(a: real, b: real, f: real): real {
    a + (b - a) * f
  }

  /** The value between two neighbours of a sorted sequence. */
  function At(s: seq<real>, x: real): real
    requires s != [] && 0.0 <= x <= (|s| - 1) as real
  {
    FloorAndCeiling(x, |s| - 1);
    var lo, hi := x.Floor, Ceiling(x);
    if lo == hi then s[lo] else Interpolated(s[lo], s[hi], x - lo as real)
  }

  function Rank(n: nat, pct: real): (x: real)
    requires n > 0 && 0.0 <= pct <= 1.0
    ensures 0.0 <= x <= (n - 1) as real
  {
    InUnit((n - 1) as real, pct);
    (n - 1) as real * pct
  }

  lemma {:induction false} InUnit(a: real, p: real)
    requires 0.0 <= a && 0.0 <= p <= 1.0
    ensures 0.0 <= a * p <= a
  {
  }

  function Percentile(values: seq<real>, pct: real): real
    requires 0.0 <= pct <= 1.0
  {
    if values == [] then 0.0
    else if |values| == 1 then values[0]
    else At(Sorted(values), Rank(|values|, pct))
  }

  // ----- Its laws -----

  /** A value of a unit segment lies between its ends and grows along it. */
  lemma {:induction false} Segment(a: real, b: real, x: real, y: real)
    requires a <= b && 0.0 <= x <= y <= 1.0
    ensures a <= Interpolated(a, b, x) <= Interpolated(a, b, y) <= b
  {
    assert (b - a) * x <= (b - a) * y <= (b - a) * 1.0 by {
      Scale(b - a, x, y);
      Scale(b - a, y, 1.0);
    }
    Scale(b - a, 0.0, x);
  }

  lemma {:induction false} Scale(d: real, x: real, y: real)
    requires 0.0 <= d && x <= y
    ensures d * x <= d * y
  {
  }

  lemma {:induction false} AtIsBetween(s: seq<real>, x: real)
    requires s != [] && IsSorted(s) && 0.0 <= x <= (|s| - 1) as real
    ensures 0 <= x.Floor <= Ceiling(x) < |s| && s[x.Floor] <= At(s, x) <= s[Ceiling(x)]
  {
    hide Interpolated, Ceiling;
    FloorAndCeiling(x, |s| - 1);
    var lo, hi := x.Floor, Ceiling(x);
    if lo != hi {
      Segment(s[lo], s[hi], x - lo as real, 1.0);
    }
  }

  lemma {:induction false} AtIsMonotone(s: seq<real>, x: real, y: real)
    requires s != [] && IsSorted(s) && 0.0 <= x <= y <= (|s| - 1) as real
    ensures At(s, x) <= At(s, y)
  {
    hide Interpolated, Ceiling;
    AtIsBetween(s, x);
    AtIsBetween(s, y);
    FloorAndCeiling(x, |s| - 1);
    FloorAndCeiling(y, |s| - 1);
    if x.Floor == y.Floor {
      var lo := x.Floor;
      if lo < Ceiling(x) && lo < Ceiling(y) {
        Segment(s[lo], s[lo + 1], x - lo as real, y - lo as real);
      }
    } else {
      assert Ceiling(x) <= y.Floor;
      assert s[Ceiling(x)] <= s[y.Floor];
    }
  }

  /** The percentile lies between the smallest and the largest sample. */
  lemma {:induction false} PercentileIsBetween(values: seq<real>, pct: real, least: real, most: real)
    requires 0.0 <= pct <= 1.0 && values != []
    requires forall v :: v in values ==> least <= v <= most
    ensures least <= Percentile(values, pct) <= most
  {
    hide At, Rank, Sorted;
    assert values[0] in values;
    if |values| > 1 {
      var s := Sorted(values);
      SortedIsSorted(values);
      AtIsBetween(s, Rank(|values|, pct));
      forall i | 0 <= i < |s| ensures least <= s[i] <= most {
        assert s[i] in multiset(s);
        assert s[i] in values;
      }
    }
  }

  lemma {:induction false} RankGrows(n: nat, p: real, q: real)
    requires n > 0 && 0.0 <= p <= q <= 1.0
    ensures Rank(n, p) <= Rank(n, q)
  {
    var a := (n - 1) as real;
    Scale(a, p, q);
  }

  /** It grows with the requested fraction. */
  lemma {:induction false} PercentileIsMonotone(values: seq<real>, p: real, q: real)
    requires 0.0 <= p <= q <= 1.0
    ensures Percentile(values, p) <= Percentile(values, q)
  {
    hide At, Rank, Sorted;
    if |values| > 1 {
      SortedIsSorted(values);
      RankGrows(|values|, p, q);
      AtIsMonotone(Sorted(values), Rank(|values|, p), Rank(|values|, q));
    }
  }

  /** The order of the samples does not matter. */
  lemma {:induction false} PercentileIgnoresOrder(a: seq<real>, b: seq<real>, pct: real)
    requires 0.0 <= pct <= 1.0 && multiset(a) == multiset(b)
    ensures Percentile(a, pct) == Percentile(b, pct)
  {
    assert |multiset(a)| == |a| && |multiset(b)| == |b|;
    SortedIsSorted(a);
    SortedIsSorted(b);
    SortedIsUnique(Sorted(a), Sorted(b));
    if |a| == 1 {
      assert a[0] in multiset(b);
    }
  }

  /** At the fraction k/(n-1) it is the sample with k others before it in order: that many are not
      larger, and the n-1-k after it are not smaller. */
  lemma {:induction false} PercentileIsAnOrderStatistic(values: seq<real>, k: nat, pct: real)
    requires k < |values| && 0.0 <= pct <= 1.0 && |values| > 1 && (|values| - 1) as real * pct == k as real
    ensures var s := Sorted(values);
            && Percentile(values, pct) == s[k] && s[k] in values
            && (forall i :: 0 <= i <= k ==> s[i] <= s[k]) && (forall i :: k <= i < |s| ==> s[k] <= s[i])
  {
    hide Interpolated, Sorted, Ceiling;
    SortedIsSorted(values);
    var s := Sorted(values);
    FloorAndCeiling(k as real, |s| - 1);
    assert s[k] in multiset(s);
  }

  /** xs are the samples in ascending order. */
  ghost predicate IsAscending(values: seq<real>, xs: seq<real>) {
    multiset(xs) == multiset(values) && forall i, j :: 0 <= i <= j < |xs| ==> xs[i] <= xs[j]
  }

  /** At the fraction (k+f)/(n-1) it lies f of the way from the k-th sample in ascending order to the next. */
  lemma {:induction false} PercentileInterpolates(values: seq<real>, xs: seq<real>, k: nat, f: real, pct: real)
    requires IsAscending(values, xs) && |values| > 1 && k + 1 < |values| && 0.0 <= f <= 1.0
    requires 0.0 <= pct <= 1.0 && (|values| - 1) as real * pct == k as real + f
    ensures |xs| == |values| && Percentile(values, pct) == (1.0 - f) * xs[k] + f * xs[k + 1]
  {
    SortedIsSorted(values);
    assert |multiset(xs)| == |xs| && |multiset(values)| == |values|;
    SortedIsUnique(xs, Sorted(values));
    hide Sorted, At;
    AtInterpolates(xs, k, f);
    assert Rank(|values|, pct) == k as real + f;
  }

  lemma {:induction false} AtInterpolates(xs: seq<real>, k: nat, f: real)
    requires k + 1 < |xs| && 0.0 <= f <= 1.0
    ensures 0.0 <= k as real + f <= (|xs| - 1) as real
    ensures At(xs, k as real + f) == (1.0 - f) * xs[k] + f * xs[k + 1]
  {
    var x := k as real + f;
    FloorAndCeiling(x, |xs| - 1);
    Blend(xs[k], xs[k + 1], f);
    hide Ceiling, Interpolated;
    if f == 0.0 || f == 1.0 {
      assert x.Floor == k + if f == 1.0 then 1 else 0;
    } else {
      assert x.Floor == k;
      InterpolatedIs(xs[k], xs[k + 1], f);
    }
  }

  lemma {:induction false} InterpolatedIs(a: real, b: real, f: real)
    ensures Interpolated(a, b, f) == (1.0 - f) * a + f * b
  {
    Blend(a, b, f);
  }

  lemma {:induction false} Blend(a: real, b: real, f: real)
    ensures a + (b - a) * f == (1.0 - f) * a + f * b
  {
  }

  /** A single sample is every percentile of itself, and without samples it is zero. */
  lemma {:induction false} PercentileOfFew(values: seq<real>, pct: real)
    requires 0.0 <= pct <= 1.0 && |values| <= 1
    ensures Percentile(values, pct) == if values == [] then 0.0 else values[0]
  {
  }
}
