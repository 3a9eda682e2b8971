/**
 * Sums, means and threshold counts over a column of numbers, as pandas
 * computes them on the cleaned table.
 */
module Stats {
  import opened Wrappers
  import opened Rounding

  function Sum(xs: seq<real>): real {
    if xs == [] then 0.0 else xs[0] + Sum(xs[1..])
  }

  /** `Series.mean()`; the mean of no values is NaN, here `None`. */
  function Mean(xs: seq<real>): (m: Option<real>)
    ensures m.None? <==> xs == []
    ensures m.Some? ==> m.value * (|xs| as real) == Sum(xs)
  {
    if xs == [] then None else Some(Sum(xs) / (|xs| as real))
  }

  /** `round(mean, 2)`; rounding NaN gives NaN again. */
  function RoundedMean(xs: seq<real>): (m: Option<real>)
    ensures m.None? <==> xs == []
    ensures m.Some? ==> IsCents(m.value)
  {
    match Mean(xs)
    case None => None
    case Some(v) => Some(Round2(v))
  }

  function Min(xs: seq<real>): (m: real)
    requires xs != []
    ensures m in xs
    ensures forall i :: 0 <= i < |xs| ==> m <= xs[i]
  {
    if |xs| == 1 then xs[0]
    else
      var rest := Min(xs[1..]);
      if xs[0] <= rest then xs[0] else rest
  }

  function Max(xs: seq<real>): (m: real)
    requires xs != []
    ensures m in xs
    ensures forall i :: 0 <= i < |xs| ==> xs[i] <= m
  {
    if |xs| == 1 then xs[0]
    else
      var rest := Max(xs[1..]);
      if xs[0] >= rest then xs[0] else rest
  }

  lemma {:induction false} SumBetween(xs: seq<real>, lo: real, hi: real)
    requires forall i :: 0 <= i < |xs| ==> lo <= xs[i] <= hi
    ensures (|xs| as real) * lo <= Sum(xs) <= (|xs| as real) * hi
  {
    if xs != [] {
      var rest := xs[1..];
      assert lo <= xs[0] <= hi;
      SumBetween(rest, lo, hi);
      assert (|xs| as real) * lo == (|rest| as real) * lo + lo;
      assert (|xs| as real) * hi == (|rest| as real) * hi + hi;
    }
  }

  /** A mean lies between the smallest and the largest of the values averaged. */
  lemma MeanWithin(xs: seq<real>)
    requires xs != []
    ensures Min(xs) <= Mean(xs).value <= Max(xs)
  {
    SumBetween(xs, Min(xs), Max(xs));
    QuotientBetween(Sum(xs), |xs| as real, Min(xs), Max(xs));
  }

  lemma QuotientBetween(s: real, n: real, lo: real, hi: real)
    requires n > 0.0
    requires n * lo <= s <= n * hi
    ensures lo <= s / n <= hi
  {
    assert (s / n) * n == s;
  }

  /**
   * When every value averaged has at most two decimals (as every risk score
   * computed on submission does), the rounded mean also lies between the
   * smallest and the largest value.
   */
  lemma RoundedMeanWithin(xs: seq<real>)
    requires xs != []
    requires forall x <- xs :: IsCents(x)
    ensures Min(xs) <= RoundedMean(xs).value <= Max(xs)
  {
    MeanWithin(xs);
    Round2WithinCents(Mean(xs).value, Min(xs), Max(xs));
  }

  /** How many values exceed `t` (pandas' `s > t` mask, counted). */
  function CountAbove(xs: seq<real>, t: real): (n: nat)
    ensures n <= |xs|
    ensures n == 0 <==> forall i :: 0 <= i < |xs| ==> xs[i] <= t
  {
    if xs == [] then 0 else (if xs[0] > t then 1 else 0) + CountAbove(xs[1..], t)
  }

  /** How many values are below `t` (pandas' `s < t` mask, counted). */
  function CountBelow(xs: seq<real>, t: real): (n: nat)
    ensures n <= |xs|
    ensures n == 0 <==> forall i :: 0 <= i < |xs| ==> xs[i] >= t
  {
    if xs == [] then 0 else (if xs[0] < t then 1 else 0) + CountBelow(xs[1..], t)
  }

  /** How many values lie in the closed interval from `lo` to `hi`. */
  function CountBetween(xs: seq<real>, lo: real, hi: real): (n: nat)
    ensures n <= |xs|
  {
    if xs == [] then 0 else (if lo <= xs[0] <= hi then 1 else 0) + CountBetween(xs[1..], lo, hi)
  }

  /**
   * Below `lo`, from `lo` to `hi` inclusive, and above `hi` split the values
   * into three buckets that together hold each value exactly once.
   */
  lemma {:induction false} ThresholdBuckets(xs: seq<real>, lo: real, hi: real)
    requires lo <= hi
    ensures CountBelow(xs, lo) + CountBetween(xs, lo, hi) + CountAbove(xs, hi) == |xs|
  {
    if xs != [] {
      ThresholdBuckets(xs[1..], lo, hi);
    }
  }

  lemma {:induction false} CountsOfConcat(a: seq<real>, b: seq<real>, lo: real, hi: real)
    ensures CountAbove(a + b, hi) == CountAbove(a, hi) + CountAbove(b, hi)
    ensures CountBelow(a + b, lo) == CountBelow(a, lo) + CountBelow(b, lo)
  {
    if a != [] {
      assert (a + b)[1..] == a[1..] + b;
      CountsOfConcat(a[1..], b, lo, hi);
    } else {
      assert a + b == b;
    }
  }
}
