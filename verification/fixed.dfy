/**
 * Machine integers of the firmware (int16_t, uint32_t) written out over Dafny's
 * unbounded integers, C's truncating division, and the tri-axis sample that every
 * component of the motion pipeline consumes.
 */
module Fixed {

  const Two16: int := 0x1_0000
  const Two32: int := 0x1_0000_0000

  predicate IsInt16(x: int) { -0x8000 <= x < 0x8000 }

  predicate IsUInt32(x: int) { 0 <= x < Two32 }

  function Abs(x: int): (r: int)
    ensures r >= 0 && (r == x || r == -x)
  {
    if x < 0 then -x else x
  }

  /** Conversion to uint32_t: the value modulo 2^32. */
  function U32(x: int): (r: int)
    ensures IsUInt32(r)
    ensures IsUInt32(x) ==> r == x
    ensures -Two32 <= x < 0 ==> r == x + Two32
    ensures Two32 <= x < 2 * Two32 ==> r == x - Two32
  {
    x % Two32
  }

  /** Conversion to int16_t: the two's-complement reading of the low 16 bits. */
  function I16(x: int): (r: int)
    ensures IsInt16(r)
    ensures IsInt16(x) ==> r == x
    ensures 0x8000 <= x < Two16 ==> r == x - Two16
    ensures -Two16 <= x < -0x8000 ==> r == x + Two16
  {
    var u := x % Two16;
    if u < 0x8000 then u else u - Two16
  }

  /** C's integer division, which truncates toward zero (Dafny's `/` is Euclidean). */
  function TruncDiv(a: int, b: int): (q: int)
    requires b > 0
    ensures Abs(q) * b <= Abs(a) < (Abs(q) + 1) * b
    ensures (a >= 0 ==> q >= 0) && (a <= 0 ==> q <= 0)
  {
    if a >= 0 then a / b else -((-a) / b)
  }

  /** One tri-axis acceleration reading. */
  datatype Sample = Sample(x: int, y: int, z: int)

  /** The three axes fit the int16_t parameters of every `update`. */
  predicate IsInt16Sample(a: Sample)
  {
    IsInt16(a.x) && IsInt16(a.y) && IsInt16(a.z)
  }
}
