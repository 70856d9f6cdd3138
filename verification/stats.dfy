/** The descriptive statistics the evaluators take over pandas columns.
    An empty column's mean, median and minimum are NaN in pandas; here
    they are `None`. The sample standard deviation (ddof = 1) needs a
    square root, so it is a parameter `sd` of the model, constrained only
    by `LawfulSd`. */
module Stats {
  import opened Wrappers
  import opened Sorting

  function Abs(x: real): (r: real)
    ensures r >= 0.0
    ensures r == x || r == -x
  {
    if x < 0.0 then -x else x
  }

  function Sum(s: seq<real>): real {
    if |s| == 0 then 0.0 else s[0] + Sum(s[1..])
  }

  lemma {:induction false} SumAppend(a: seq<real>, b: seq<real>)
    ensures Sum(a + b) == Sum(a) + Sum(b)
  {
    if |a| == 0 {
      assert a + b == b;
    } else {
      assert (a + b)[1..] == a[1..] + b;
      SumAppend(a[1..], b);
    }
  }

  /** Every element at least `lo` bounds the sum from below, and every
      element at most `hi` bounds it from above. */
  lemma {:induction false} SumBounds(s: seq<real>, lo: real, hi: real)
    requires forall i :: 0 <= i < |s| ==> lo <= s[i] <= hi
    ensures lo * |s| as real <= Sum(s) <= hi * |s| as real
  {
    if |s| > 0 {
      SumBounds(s[1..], lo, hi);
      assert |s[1..]| as real == |s| as real - 1.0;
    }
  }

  function Mean(s: seq<real>): real
    requires |s| > 0
  {
    Sum(s) / |s| as real
  }

  /** `x` is the average of the non-empty `s`: `x` times the count is the
      sum. */
  predicate AverageOf(x: real, s: seq<real>) {
    |s| > 0 && x * |s| as real == Sum(s)
  }

  /** The mean is the average. */
  lemma MeanScales(s: seq<real>)
    requires |s| > 0
    ensures AverageOf(Mean(s), s)
  {
  }

  /** `Series.mean()`: NaN (`None`) on an empty column. */
  function MeanOpt(s: seq<real>): (r: Option<real>)
    ensures r.Some? <==> |s| > 0
    ensures r.Some? ==> r.value == Mean(s)
  {
    if |s| == 0 then None else Some(Mean(s))
  }

  function MinOf(s: seq<real>): (m: real)
    requires |s| > 0
    ensures m in s
    ensures forall i :: 0 <= i < |s| ==> m <= s[i]
  {
    if |s| == 1 then s[0]
    else
      var t := MinOf(s[1..]);
      if s[0] <= t then s[0] else t
  }

  function MaxOf(s: seq<real>): (m: real)
    requires |s| > 0
    ensures m in s
    ensures forall i :: 0 <= i < |s| ==> s[i] <= m
  {
    if |s| == 1 then s[0]
    else
      var t := MaxOf(s[1..]);
      if s[0] >= t then s[0] else t
  }

  /** `Series.min()`: NaN (`None`) on an empty column. */
  function MinOpt(s: seq<real>): (r: Option<real>)
    ensures r.Some? <==> |s| > 0
    ensures r.Some? ==> r.value in s && forall i :: 0 <= i < |s| ==> r.value <= s[i]
  {
    if |s| == 0 then None else Some(MinOf(s))
  }

  /** `Series.max()`: NaN (`None`) on an empty column. */
  function MaxOpt(s: seq<real>): (r: Option<real>)
    ensures r.Some? <==> |s| > 0
    ensures r.Some? ==> r.value in s && forall i :: 0 <= i < |s| ==> s[i] <= r.value
  {
    if |s| == 0 then None else Some(MaxOf(s))
  }

  lemma MeanBetween(s: seq<real>)
    requires |s| > 0
    ensures MinOf(s) <= Mean(s) <= MaxOf(s)
  {
    MeanWithin(s, MinOf(s), MaxOf(s));
  }

  /** Bounds on every element bound the mean. */
  lemma MeanWithin(s: seq<real>, lo: real, hi: real)
    requires |s| > 0
    requires forall i :: 0 <= i < |s| ==> lo <= s[i] <= hi
    ensures lo <= Mean(s) <= hi
  {
    SumBounds(s, lo, hi);
    QuotientBetween(Sum(s), |s| as real, lo, hi);
  }

  lemma QuotientBetween(a: real, n: real, lo: real, hi: real)
    requires n > 0.0
    requires lo * n <= a <= hi * n
    ensures lo <= a / n <= hi
  {
    assert (a / n) * n == a;
  }

  /** Middle element of the sorted values, or the average of the two
      middle ones for an even count; `None` on an empty column. */
  function Median(s: seq<real>): (r: Option<real>)
    ensures r.Some? <==> |s| > 0
  {
    if |s| == 0 then None
    else
      var t := Sort(s);
      var n := |t|;
      if n % 2 == 1 then Some(t[n / 2])
      else Some((t[n / 2 - 1] + t[n / 2]) / 2.0)
  }

  /** `np.median` on any sorted arrangement of the values: its middle
      element for an odd count, the mean of its two middle elements for an
      even one. */
  lemma MedianIsMiddle(s: seq<real>, t: seq<real>)
    requires |s| > 0 && Sorted(t) && multiset(t) == multiset(s)
    ensures |t| % 2 == 1 ==> Median(s) == Some(t[|t| / 2])
    ensures |t| % 2 == 0 ==> Median(s) == Some((t[|t| / 2 - 1] + t[|t| / 2]) / 2.0)
  {
    SortedPermutationUnique(Sort(s), t);
  }

  lemma MedianBetween(s: seq<real>)
    requires |s| > 0
    ensures MinOf(s) <= Median(s).value <= MaxOf(s)
  {
    var t := Sort(s);
    var n := |t|;
    var lo, hi := MinOf(s), MaxOf(s);
    forall i | 0 <= i < n ensures lo <= t[i] <= hi {
      assert t[i] in s;
    }
    if n % 2 == 0 {
      var a, b := t[n / 2 - 1], t[n / 2];
      assert lo <= a <= hi && lo <= b <= hi;
      assert Median(s).value == (a + b) / 2.0;
    } else {
      assert Median(s).value == t[n / 2];
    }
  }

  /** A model of the sample standard deviation: non-negative, and zero on
      a sequence whose elements are all equal. */
  ghost predicate LawfulSd(sd: seq<real> -> real) {
    forall s :: sd(s) >= 0.0 && ((forall i, j :: 0 <= i < |s| && 0 <= j < |s| ==> s[i] == s[j]) ==> sd(s) == 0.0)
  }

  /** pandas `std()` with ddof = 1: NaN (`None`) below two values. */
  function SampleSd(sd: seq<real> -> real, s: seq<real>): (r: Option<real>)
    ensures r.Some? <==> |s| >= 2
    ensures r.Some? ==> r.value == sd(s)
  {
    if |s| < 2 then None else Some(sd(s))
  }

  /** `num / den * 100`, undefined (`None`) when the denominator is
      missing or zero. */
  function RelativePct(num: real, den: Option<real>): (r: Option<real>)
    ensures r.Some? <==> den.Some? && den.value != 0.0
  {
    if den.None? || den.value == 0.0 then None else Some(num / den.value * 100.0)
  }

  /** The percentage, scaled back by the denominator, is 100 times the
      numerator. */
  lemma RelativePctScales(num: real, den: Option<real>)
    requires den.Some? && den.value != 0.0
    ensures RelativePct(num, den).value * den.value == num * 100.0
  {
  }

  /** `p` per cent of `den` is `num`: the percentage `num / den · 100`
      stated without the division. */
  predicate IsPct(p: real, num: real, den: real) {
    p * den == num * 100.0
  }

  /** `|a / x| · 100` is `|a|` as a percentage of `|x|`. */
  lemma AbsQuotientPct(a: real, x: real)
    requires x != 0.0
    ensures IsPct(Abs(a / x) * 100.0, Abs(a), Abs(x))
  {
    var q := a / x;
    assert q * x == a;
    if q < 0.0 {
      if x < 0.0 {
        assert Abs(q) * Abs(x) == q * x;
      } else {
        assert Abs(q) * Abs(x) == -(q * x);
      }
    } else {
      if x < 0.0 {
        assert Abs(q) * Abs(x) == -(q * x);
      } else {
        assert Abs(q) * Abs(x) == q * x;
      }
    }
  }

  /** A zero numerator gives zero per cent. */
  lemma RelativePctOfZero(den: Option<real>)
    requires den.Some? && den.value != 0.0
    ensures RelativePct(0.0, den) == Some(0.0)
  {
  }

  /** `k / n`, with 0 for an empty population. */
  function Fraction(k: nat, n: nat): (r: real)
    ensures n == 0 ==> r == 0.0
    ensures k <= n ==> 0.0 <= r <= 1.0
    ensures 0 < n <= k ==> r >= 1.0
  {
    if n == 0 then 0.0 else k as real / n as real
  }

  /** The fraction of a non-empty population, scaled back by its size, is
      the count. */
  lemma FractionScales(k: nat, n: nat)
    requires n > 0
    ensures Fraction(k, n) * n as real == k as real
  {
  }

  /** A comparison `v <= t` that is false when `v` is NaN. */
  predicate AtMost(v: Option<real>, t: real) {
    v.Some? && v.value <= t
  }

  /** A comparison `v < t` that is false when `v` is NaN. */
  predicate Below(v: Option<real>, t: real) {
    v.Some? && v.value < t
  }

  /** A comparison `v >= t` that is false when `v` is NaN. */
  predicate AtLeast(v: Option<real>, t: real) {
    v.Some? && v.value >= t
  }
}
