/**
 * The pure arithmetic of the LSM9DS1 accelerometer driver: the register byte decode,
 * the fixed-point raw-to-milli-g scale, Newton's integer square root on uint32_t and
 * the magnitude built from them. The I2C transport and serial printing are not modelled.
 */
module Imu {
  import opened Fixed

  type Byte = x: int | 0 <= x < 0x100

  /** Sensitivity at ±2 g: 0.061 mg per count, applied as `* 61 / 1000`. */
  const ScaleNumerator: int := 61
  const ScaleDenominator: int := 1000

  /** Largest milli-g magnitude an int16_t count can scale to. */
  const MaxMilliG: int := 1998

  // ---------------------------------------------------------------------------
  // Register decode (readAcceleration)
  // ---------------------------------------------------------------------------

  /** One axis from its register pair: `(high << 8) | low` read back as an int16_t. The two
      bytes occupy disjoint bits, so the OR is the sum `high * 256 + low`. */
  function DecodeAxis(lo: Byte, hi: Byte): (v: int)
    ensures IsInt16(v)
    ensures v < 0 <==> hi >= 0x80
    ensures v % 0x100 == lo
  {
    I16(hi * 0x100 + lo)
  }

  /** The register pair (low, high) that holds `v` in two's complement. */
  function EncodeAxis(v: int): (b: (Byte, Byte))
    requires IsInt16(v)
  {
    var u := v % Two16;
    (u % 0x100, u / 0x100)
  }

  lemma DecodeEncode(v: int)
    requires IsInt16(v)
    ensures DecodeAxis(EncodeAxis(v).0, EncodeAxis(v).1) == v
  {
  }

  lemma EncodeDecode(lo: Byte, hi: Byte)
    ensures EncodeAxis(DecodeAxis(lo, hi)) == (lo, hi)
  {
    var u := hi * 0x100 + lo;
    assert 0 <= u < Two16;
    var v := DecodeAxis(lo, hi);
    assert v == u || v == u - Two16;
    assert v % Two16 == u;
    assert u % 0x100 == lo && u / 0x100 == hi;
  }

  /** The six bytes read from OUT_X_L_XL onward hold X, Y and Z in that order, each with its
      low byte at the even offset. */
  function DecodeAcceleration(raw: seq<Byte>): (a: Sample)
    requires |raw| == 6
    ensures IsInt16Sample(a)
    ensures EncodeAxis(a.x) == (raw[0], raw[1])
    ensures EncodeAxis(a.y) == (raw[2], raw[3])
    ensures EncodeAxis(a.z) == (raw[4], raw[5])
  {
    EncodeDecode(raw[0], raw[1]);
    EncodeDecode(raw[2], raw[3]);
    EncodeDecode(raw[4], raw[5]);
    Sample(DecodeAxis(raw[0], raw[1]), DecodeAxis(raw[2], raw[3]), DecodeAxis(raw[4], raw[5]))
  }

  // ---------------------------------------------------------------------------
  // Scaling
  // ---------------------------------------------------------------------------

  /** `(int32_t(raw) * 61) / 1000` with C's truncation toward zero: the milli-g value whose
      magnitude is the floor of 0.061 * |raw|, carrying the sign of `raw`. */
  function RawToMilliG(raw: int): (mg: int)
    requires IsInt16(raw)
    ensures -MaxMilliG <= mg <= MaxMilliG
    ensures Abs(mg) * ScaleDenominator <= Abs(raw * ScaleNumerator) < (Abs(mg) + 1) * ScaleDenominator
    ensures (raw >= 0 ==> mg >= 0) && (raw <= 0 ==> mg <= 0)
  {
    TruncDiv(raw * ScaleNumerator, ScaleDenominator)
  }

  /** The scale is odd: negating a count negates its milli-g value (int16_t's -32768 has no
      negation and is excluded). Euclidean division would break this for negative counts. */
  lemma RawToMilliGIsOdd(raw: int)
    requires IsInt16(raw) && raw > -0x8000
    ensures RawToMilliG(-raw) == -RawToMilliG(raw)
  {
  }

  // ---------------------------------------------------------------------------
  // Integer square root (Newton's method on uint32_t)
  // ---------------------------------------------------------------------------

  /** `r` is the floor of the square root of `v`. */
  predicate IsFloorSqrt(v: int, r: int)
  {
    0 <= r && r * r <= v < (r + 1) * (r + 1)
  }

  /** The first Newton estimate `(x + 1) >> 1` computed in uint32_t: the ceiling of v / 2,
      except at 2^32 - 1, where `x + 1` wraps and the estimate is 0. */
  function NewtonSeed(v: int): (y: int)
    requires IsUInt32(v)
    ensures v < Two32 - 1 ==> y + y == v + 1 || y + y == v
    ensures v == Two32 - 1 ==> y == 0
  {
    U32(v + 1) / 2
  }

  /** Multiplying by a non-negative factor keeps the order. */
  lemma MulLe(a: int, b: int, k: int)
    requires a <= b && k >= 0
    ensures a * k <= b * k
  {
    assert b * k - a * k == (b - a) * k;
  }

  lemma SquareMono(c: int, d: int)
    requires 0 <= c <= d
    ensures c * c <= d * d
  {
    MulLe(c, d, c);
    MulLe(c, d, d);
  }

  /** The integer AM-GM inequality: `4xb <= (x + b)^2`. */
  lemma AmGm(x: int, b: int)
    ensures 4 * (x * b) <= (x + b) * (x + b)
  {
    var d := x - b;
    assert (x + b) * (x + b) == d * d + 4 * (x * b) by {
      assert (x + b) * (x + b) == x * x + 2 * (x * b) + b * b;
      assert d * d == x * x - 2 * (x * b) + b * b;
    }
    if d >= 0 {
      MulLe(0, d, d);
    } else {
      MulLe(0, -d, -d);
      assert d * d == (-d) * (-d);
    }
  }

  /** Every Newton step `(x + v / x) / 2` stays at or above the floor square root (AM-GM on
      integers). */
  lemma NewtonStaysAbove(v: int, x: int)
    requires v >= 0 && x >= 1
    ensures v < ((x + v / x) / 2 + 1) * ((x + v / x) / 2 + 1)
  {
    var q := v / x;
    var b := q + 1;
    var y := (x + q) / 2;
    var bx := b * x;
    assert v < bx by {
      assert v == x * q + v % x;
      assert bx == x * q + x;
    }
    AmGm(x, b);
    var s := (x + b) * (x + b);
    assert 4 * bx <= s by {
      assert x * b == bx;
    }
    var w := 2 * (y + 1);
    assert x + b <= w;
    SquareMono(x + b, w);
    var p := (y + 1) * (y + 1);
    assert w * w == 4 * p;
    assert 4 * v < 4 * p;
  }

  /** Once the next estimate no longer decreases, the current one is not above the root. */
  lemma NewtonExit(v: int, x: int)
    requires v >= 0 && x >= 1
    requires (x + v / x) / 2 >= x
    ensures x * x <= v
  {
    var q := v / x;
    assert q >= x;
    MulLe(x, q, x);
    assert v == x * q + v % x;
  }

  /** Between Newton steps `x + v / x` fits a uint32_t: with `v < (x + 1)^2`, `v / x <= x + 2`,
      and with `v < 2^32` a large `x` leaves a small quotient. */
  lemma NewtonNoOverflow(v: int, x: int)
    requires 1 <= x < 0x8000_0000 && 0 <= v < Two32 && v < (x + 1) * (x + 1)
    ensures x + v / x < Two32
  {
    var q := v / x;
    assert v == x * q + v % x;
    assert x * q == q * x;
    if x < 0x1_0000 {
      assert (x + 1) * (x + 1) == x * (x + 2) + 1;
      assert (x + 3) * x == x * (x + 2) + x;
      assert q <= x + 2 by {
        if q > x + 2 {
          MulLe(x + 3, q, x);
          assert false;
        }
      }
    } else {
      assert q < 0x1_0000 by {
        if q >= 0x1_0000 {
          MulLe(0x1_0000, q, x);
          MulLe(0x1_0000, x, 0x1_0000);
          assert false;
        }
      }
    }
  }

  /** A non-negative value divided by a positive one is non-negative. */
  lemma DivNonNegative(v: int, x: int)
    requires v >= 0 && x >= 1
    ensures v / x >= 0
  {
    var q := v / x;
    assert v == x * q + v % x;
    if q < 0 {
      MulLe(q, -1, x);
      assert false;
    }
  }

  /** One loop iteration keeps the loop's facts: the next estimate is computed without
      wrap-around and stays at or above the root. */
  lemma NewtonStep(v: int, x: int)
    requires 1 <= v < Two32 && 1 <= x < 0x8000_0000 && v < (x + 1) * (x + 1)
    ensures U32(x + v / x) / 2 == (x + v / x) / 2
    ensures (x + v / x) / 2 >= 1
    ensures v < ((x + v / x) / 2 + 1) * ((x + v / x) / 2 + 1)
  {
    NewtonNoOverflow(v, x);
    NewtonStaysAbove(v, x);
    var q := v / x;
    var s := x + q;
    DivNonNegative(v, x);
    assert IsUInt32(s);
    assert U32(s) == s;
    assert s >= 2 by {
      if x == 1 {
        assert v == x * q + v % x;
      }
    }
  }

  /** `integerSqrt`: Newton's method from the seed `(v + 1) >> 1`. At v = 2^32 - 1 the seed
      wraps to 0 and the next step divides by 0, so the caller must stay below that value. */
  method IntegerSqrt(v: int) returns (r: int)
    requires 0 <= v < Two32 - 1
    ensures IsFloorSqrt(v, r)
  {
    if v == 0 {
      return 0;
    }
    var x := v;
    var y := NewtonSeed(v);
    NewtonStaysAbove(v, x);
    while y < x
      invariant 1 <= x <= v
      invariant 1 <= y
      invariant y == (x + v / x) / 2
      invariant v < (x + 1) * (x + 1)
      invariant v < (y + 1) * (y + 1)
      invariant y < x ==> y < 0x8000_0000
      decreases x
    {
      x := y;
      NewtonStep(v, x);
      y := U32(x + v / x) / 2;
    }
    NewtonExit(v, x);
    r := x;
  }

  /** Adding whole multiples of 2^32 does not change a uint32_t value. */
  lemma U32Multiple(a: int, k: int)
    requires IsUInt32(a)
    ensures U32(a + Two32 * k) == a
  {
  }

  /** Each squared milli-g value survives the `(uint32_t)x * x` product: the cast of a negative
      `x` adds 2^32, which the modular product removes again. */
  lemma SquareThroughU32(x: int)
    requires -MaxMilliG <= x <= MaxMilliG
    ensures U32(U32(x) * U32(x)) == x * x
    ensures 0 <= x * x <= MaxMilliG * MaxMilliG
  {
    SquareMono(Abs(x), MaxMilliG);
    assert Abs(x) * Abs(x) == x * x;
    if x < 0 {
      var u := x + Two32;
      assert U32(x) == u;
      assert u * u == x * x + Two32 * (2 * x + Two32);
      U32Multiple(x * x, 2 * x + Two32);
    }
  }

  /** `getAccelMagnitude_mg`: the floor of the Euclidean norm of the three milli-g values. */
  method AccelMagnitude(a: Sample) returns (m: int)
    requires IsInt16Sample(a)
    ensures IsFloorSqrt(
      RawToMilliG(a.x) * RawToMilliG(a.x) + RawToMilliG(a.y) * RawToMilliG(a.y)
        + RawToMilliG(a.z) * RawToMilliG(a.z), m)
  {
    var x := RawToMilliG(a.x);
    var y := RawToMilliG(a.y);
    var z := RawToMilliG(a.z);
    SquareThroughU32(x);
    SquareThroughU32(y);
    SquareThroughU32(z);
    var px := U32(U32(x) * U32(x));
    var py := U32(U32(y) * U32(y));
    var pz := U32(U32(z) * U32(z));
    var sum := U32(U32(px + py) + pz);
    assert sum == x * x + y * y + z * z;
    m := IntegerSqrt(sum);
  }
}
