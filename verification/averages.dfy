/** The arithmetic mean of a column, over mathematical reals. */
module Averages {

  /** Left-to-right sum. */
  function Sum(xs: seq<real>): real {
    if xs == [] then 0.0 else Sum(xs[..|xs| - 1]) + xs[|xs| - 1]
  }

  function Mean(xs: seq<real>): real
    requires |xs| > 0
  {
    Sum(xs) / (|xs| as real)
  }

  /** A sum of `n` values lies between `n` times a lower and `n` times an upper bound. */
  lemma {:induction false} SumBounds(xs: seq<real>, lo: real, hi: real)
    requires forall j :: 0 <= j < |xs| ==> lo <= xs[j] <= hi
    ensures (|xs| as real) * lo <= Sum(xs) <= (|xs| as real) * hi
  {
    if xs != [] {
      var init := xs[..|xs| - 1];
      assert forall j :: 0 <= j < |init| ==> init[j] == xs[j];
      SumBounds(init, lo, hi);
      var m := |init| as real;
      assert (|xs| as real) * lo == m * lo + lo;
      assert (|xs| as real) * hi == m * hi + hi;
    }
  }

  /** The mean lies between any lower and any upper bound of the values,
      in particular between their minimum and their maximum. */
  lemma MeanBounds(xs: seq<real>, lo: real, hi: real)
    requires |xs| > 0
    requires forall j :: 0 <= j < |xs| ==> lo <= xs[j] <= hi
    ensures lo <= Mean(xs) <= hi
  {
    var n := |xs| as real;
    SumBounds(xs, lo, hi);
    DivideMonotone(n * lo, Sum(xs), n);
    DivideMonotone(Sum(xs), n * hi, n);
    assert n * lo / n == lo && n * hi / n == hi;
  }

  lemma DivideMonotone(a: real, b: real, n: real)
    requires n > 0.0 && a <= b
    ensures a / n <= b / n
  {
    assert b / n - a / n == (b - a) / n;
  }
}
