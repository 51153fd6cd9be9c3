/**
 * Points of the plane and the stream reductions taken over their
 * coordinates (`mapToDouble(...).min()`, `.max()`, `.sum()`, `.average()`).
 * Coordinates are reals.
 */
module Geometry {
  datatype Point = Point(x: real, y: real)

  function Xs(pts: seq<Point>): (xs: seq<real>)
    ensures |xs| == |pts|
    ensures forall i :: 0 <= i < |pts| ==> xs[i] == pts[i].x
  {
    seq(|pts|, i requires 0 <= i < |pts| => pts[i].x)
  }

  function Ys(pts: seq<Point>): (ys: seq<real>)
    ensures |ys| == |pts|
    ensures forall i :: 0 <= i < |pts| ==> ys[i] == pts[i].y
  {
    seq(|pts|, i requires 0 <= i < |pts| => pts[i].y)
  }

  /** The least value of a non-empty stream. */
  function MinOf(xs: seq<real>): real
    requires xs != []
  {
    if |xs| == 1 then xs[0]
    else
      var m := MinOf(xs[..|xs| - 1]);
      if xs[|xs| - 1] < m then xs[|xs| - 1] else m
  }

  /** The greatest value of a non-empty stream. */
  function MaxOf(xs: seq<real>): real
    requires xs != []
  {
    if |xs| == 1 then xs[0]
    else
      var m := MaxOf(xs[..|xs| - 1]);
      if xs[|xs| - 1] > m then xs[|xs| - 1] else m
  }

  function SumOf(xs: seq<real>): real
  {
    if xs == [] then 0.0 else SumOf(xs[..|xs| - 1]) + xs[|xs| - 1]
  }

  /** The minimum is at most every element and is one of them. */
  lemma {:induction false} MinOfBounds(xs: seq<real>)
    requires xs != []
    ensures forall i :: 0 <= i < |xs| ==> MinOf(xs) <= xs[i]
    ensures exists i :: 0 <= i < |xs| && MinOf(xs) == xs[i]
  {
    if |xs| > 1 {
      var init := xs[..|xs| - 1];
      MinOfBounds(init);
      assert forall i :: 0 <= i < |init| ==> init[i] == xs[i];
      if xs[|xs| - 1] >= MinOf(init) {
        var i :| 0 <= i < |init| && MinOf(init) == init[i];
        assert MinOf(xs) == xs[i];
      } else {
        assert MinOf(xs) == xs[|xs| - 1];
      }
    } else {
      assert MinOf(xs) == xs[0];
    }
  }

  /** The maximum is at least every element and is one of them. */
  lemma {:induction false} MaxOfBounds(xs: seq<real>)
    requires xs != []
    ensures forall i :: 0 <= i < |xs| ==> xs[i] <= MaxOf(xs)
    ensures exists i :: 0 <= i < |xs| && MaxOf(xs) == xs[i]
  {
    if |xs| > 1 {
      var init := xs[..|xs| - 1];
      MaxOfBounds(init);
      assert forall i :: 0 <= i < |init| ==> init[i] == xs[i];
      if xs[|xs| - 1] <= MaxOf(init) {
        var i :| 0 <= i < |init| && MaxOf(init) == init[i];
        assert MaxOf(xs) == xs[i];
      } else {
        assert MaxOf(xs) == xs[|xs| - 1];
      }
    } else {
      assert MaxOf(xs) == xs[0];
    }
  }

  /** A sum of n values that all lie in [lo, hi] lies in [n * lo, n * hi]. */
  lemma {:induction false} SumOfBounds(xs: seq<real>, lo: real, hi: real)
    requires forall i :: 0 <= i < |xs| ==> lo <= xs[i] <= hi
    ensures (|xs| as real) * lo <= SumOf(xs) <= (|xs| as real) * hi
  {
    if xs != [] {
      var init := xs[..|xs| - 1];
      assert forall i :: 0 <= i < |init| ==> init[i] == xs[i];
      SumOfBounds(init, lo, hi);
      var n := |init| as real;
      var last := xs[|xs| - 1];
      assert SumOf(xs) == SumOf(init) + last;
      assert lo <= last <= hi;
      assert n * lo <= SumOf(init) <= n * hi;
      var m := |xs| as real;
      assert m == n + 1.0;
      Spread(n, lo);
      Spread(n, hi);
      assert m * lo == n * lo + lo;
      assert m * hi == n * hi + hi;
    }
  }

  lemma Spread(n: real, x: real)
    ensures (n + 1.0) * x == n * x + x
  {
  }

  /** The mean of values in [lo, hi] lies in [lo, hi]. */
  lemma MeanBounds(sum: real, n: real, lo: real, hi: real)
    requires n > 0.0 && n * lo <= sum <= n * hi
    ensures lo <= sum / n <= hi
  {
  }
}
