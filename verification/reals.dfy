/**
 * Real-valued helpers shared by the speed and step-size estimators. The firmware
 * computes in IEEE single precision; the model computes in exact reals.
 */
module Reals {

  function Abs(x: real): (r: real)
    ensures r >= 0.0 && (r == x || r == -x)
  {
    if x < 0.0 then -x else x
  }

  /** `x` limited to [lo, hi]: below lo reads as lo, above hi as hi. */
  function Clamp(x: real, lo: real, hi: real): (r: real)
    requires lo <= hi
    ensures lo <= r <= hi
    ensures lo <= x <= hi ==> r == x
    ensures x < lo ==> r == lo
    ensures x > hi ==> r == hi
  {
    if x < lo then lo else if x > hi then hi else x
  }

  /** A symmetric noise floor: a value whose magnitude is strictly below `band` reads as 0. */
  function Deadband(x: real, band: real): (r: real)
    ensures Abs(x) < band ==> r == 0.0
    ensures Abs(x) >= band ==> r == x
  {
    if Abs(x) < band then 0.0 else x
  }

  /** One milli-g in m/s^2 (standard gravity over 1000). */
  const MilliGToMps2: real := 9.80665 / 1000.0

  /** `sqrt` is a square root on the non-negative reals: the property the firmware relies on
      from `sqrtf`. */
  ghost predicate IsSqrt(sqrt: real -> real)
  {
    forall x :: 0.0 <= x ==> 0.0 <= sqrt(x) && sqrt(x) * sqrt(x) == x
  }

  /** `x` raised to the power `n`. */
  function Pow(x: real, n: nat): (r: real)
    ensures 0.0 <= x <= 1.0 ==> 0.0 <= r <= 1.0
  {
    if n == 0 then 1.0
    else
      var p := Pow(x, n - 1);
      assert 0.0 <= x <= 1.0 ==> x * p <= p by {
        if 0.0 <= x <= 1.0 { assert x * p <= 1.0 * p; }
      }
      x * p
  }
}
