/**
 * Fixed-capacity ring buffers kept as sequences: the sums that their incremental
 * averages track, the index advance, and buffers filled with one value.
 */
module Ring {

  /** Sum of the elements, accumulated front to back. */
  function Sum(xs: seq<int>): int
  {
    if |xs| == 0 then 0 else Sum(xs[..|xs| - 1]) + xs[|xs| - 1]
  }

  /** Sum of real elements, accumulated front to back as the firmware's loops do. */
  function SumReal(xs: seq<real>): real
  {
    if |xs| == 0 then 0.0 else SumReal(xs[..|xs| - 1]) + xs[|xs| - 1]
  }

  /** The slot after `i` in a ring of `n` slots, written the firmware's way: increment, then
      go back to 0 once past the last slot. */
  function Advance(i: int, n: int): (j: int)
    requires 0 <= i < n
    ensures 0 <= j < n
    ensures j == (i + 1) % n
  {
    if i + 1 > n - 1 then 0 else i + 1
  }

  /** A buffer of `n` slots, each holding `v`. */
  function Fill(n: nat, v: int): (xs: seq<int>)
    ensures |xs| == n
    ensures forall i :: 0 <= i < n ==> xs[i] == v
    ensures Sum(xs) == n * v
  {
    SumConstant(n, v);
    seq(n, _ => v)
  }

  /** A buffer holding `v` in each of its `n` slots sums to `n * v`. */
  lemma {:induction false} SumConstant(n: nat, v: int)
    ensures Sum(seq(n, _ => v)) == n * v
  {
    if n > 0 {
      var xs := seq(n, _ => v);
      assert xs[..n - 1] == seq(n - 1, _ => v);
      SumConstant(n - 1, v);
      assert (n - 1) * v + v == n * v;
    }
  }

  /** Overwriting one slot changes the sum by the new value minus the evicted one: the
      incremental update that moving averages rely on. */
  lemma {:induction false} SumUpdate(xs: seq<int>, i: int, v: int)
    requires 0 <= i < |xs|
    ensures Sum(xs[i := v]) == Sum(xs) - xs[i] + v
  {
    var n := |xs| - 1;
    var ys := xs[i := v];
    if i < n {
      assert ys[..n] == xs[..n][i := v];
      SumUpdate(xs[..n], i, v);
    } else {
      assert ys[..n] == xs[..n];
    }
  }

  /** A buffer of values in [0, hi] sums to a value in [0, |xs| * hi]. */
  lemma {:induction false} SumBounds(xs: seq<int>, hi: int)
    requires forall i :: 0 <= i < |xs| ==> 0 <= xs[i] <= hi
    ensures 0 <= Sum(xs) <= |xs| * hi
  {
    if |xs| > 0 {
      var n := |xs| - 1;
      SumBounds(xs[..n], hi);
      assert n * hi + hi == |xs| * hi;
    }
  }

  /** A buffer of reals in [lo, hi] sums to a value in [|xs| * lo, |xs| * hi]. */
  lemma {:induction false} SumRealBounds(xs: seq<real>, lo: real, hi: real)
    requires forall i :: 0 <= i < |xs| ==> lo <= xs[i] <= hi
    ensures (|xs| as real) * lo <= SumReal(xs) <= (|xs| as real) * hi
  {
    if |xs| > 0 {
      var n := |xs| - 1;
      SumRealBounds(xs[..n], lo, hi);
      assert (n as real) * lo + lo == (|xs| as real) * lo;
      assert (n as real) * hi + hi == (|xs| as real) * hi;
    }
  }
}
