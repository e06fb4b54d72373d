/**
 * VelocityEstimator: a three-axis velocity obtained by integrating the bias-corrected
 * acceleration over the measured time between calls, with a per-axis deadband and a slight
 * damping. The bias (gravity included) is the mean sample of a stationary calibration. The
 * microsecond clock is a parameter; `sqrtf` is a parameter `sqrt`; the arithmetic is exact.
 */
module Velocity {
  import opened Fixed
  import opened Reals

  const AccelDeadband: real := 0.05
  const VelDamping: real := 0.999
  /** Intervals longer than this many seconds are not integrated. */
  const MaxInterval: real := 0.5

  /** A vector in the sensor frame. */
  datatype Vec = Vec(x: real, y: real, z: real)

  function Add(u: Vec, v: Vec): Vec
  {
    Vec(u.x + v.x, u.y + v.y, u.z + v.z)
  }

  function Scale(k: real, v: Vec): Vec
  {
    Vec(k * v.x, k * v.y, k * v.z)
  }

  function NormSquared(v: Vec): (n: real)
    ensures n >= 0.0
  {
    v.x * v.x + v.y * v.y + v.z * v.z
  }

  /** A milli-g sample as an acceleration in m/s^2. */
  function ToMps2(a: Sample): Vec
  {
    Vec(a.x as real * MilliGToMps2, a.y as real * MilliGToMps2, a.z as real * MilliGToMps2)
  }

  datatype Estimator = Estimator(
    calibrating: bool,
    calibrated: bool,
    calibSamples: int,
    calibSum: Vec,
    bias: Vec,
    v: Vec,
    lastMicros: int)

  /** Reachable states: the sample counter and the time stamp are uint32_t values, and
      calibration is never both running and finished. */
  ghost predicate Valid(e: Estimator)
  {
    IsUInt32(e.calibSamples) && IsUInt32(e.lastMicros) && !(e.calibrating && e.calibrated)
  }

  /** The constructor and `reset`: no calibration, no bias, at rest, no time stamp. */
  function Reset(): (e: Estimator)
    ensures Valid(e)
    ensures !e.calibrating && !e.calibrated && e.calibSamples == 0
    ensures e.bias == Vec(0.0, 0.0, 0.0) && e.v == Vec(0.0, 0.0, 0.0) && e.lastMicros == 0
    ensures e.calibSum == Vec(0.0, 0.0, 0.0)
  {
    Estimator(calibrating := false, calibrated := false, calibSamples := 0,
              calibSum := Vec(0.0, 0.0, 0.0), bias := Vec(0.0, 0.0, 0.0),
              v := Vec(0.0, 0.0, 0.0), lastMicros := 0)
  }

  /** `startCalibration`: empty accumulators, calibrating and no longer calibrated; the bias,
      the velocity and the time stamp are kept. */
  function StartCalibration(e: Estimator): (r: Estimator)
    requires Valid(e)
    ensures Valid(r)
    ensures r.calibrating && !r.calibrated && r.calibSamples == 0 && r.calibSum == Vec(0.0, 0.0, 0.0)
    ensures r.bias == e.bias && r.v == e.v && r.lastMicros == e.lastMicros
  {
    e.(calibrating := true, calibrated := false, calibSamples := 0, calibSum := Vec(0.0, 0.0, 0.0))
  }

  /** `addCalibrationSample`: while calibrating, the sample (in m/s^2) is accumulated and
      counted (the count in uint32_t); otherwise nothing changes. */
  function AddCalibrationSample(e: Estimator, a: Sample): (r: Estimator)
    requires Valid(e)
    ensures Valid(r)
    ensures !e.calibrating ==> r == e
    ensures e.calibrating
      ==> r == e.(calibSamples := U32(e.calibSamples + 1), calibSum := Add(e.calibSum, ToMps2(a)))
  {
    if !e.calibrating then e
    else e.(calibSum := Add(e.calibSum, ToMps2(a)), calibSamples := U32(e.calibSamples + 1))
  }

  /** `finishCalibration`: with at least one sample, the bias becomes the mean accumulated
      sample and the estimator is calibrated. Unlike the scalar estimator, the accumulators
      are left as they are (only `startCalibration` clears them). */
  function FinishCalibration(e: Estimator): (r: Estimator)
    requires Valid(e)
    ensures Valid(r)
    ensures !e.calibrating || e.calibSamples == 0 ==> r == e
    ensures e.calibrating && e.calibSamples > 0
      ==> && Scale(e.calibSamples as real, r.bias) == e.calibSum
          && r.calibrated && !r.calibrating
          && r == e.(bias := r.bias, calibrating := false, calibrated := true)
  {
    if !e.calibrating || e.calibSamples == 0 then e
    else
      var n := e.calibSamples as real;
      var b := Vec(e.calibSum.x / n, e.calibSum.y / n, e.calibSum.z / n);
      assert Scale(n, b) == e.calibSum;
      e.(bias := b, calibrating := false, calibrated := true)
  }

  /** The interval since the last call in seconds, from the uint32_t difference of the
      microsecond clock readings. */
  function Interval(e: Estimator, now: int): (dt: real)
    ensures dt >= 0.0
    ensures dt * 1000000.0 == U32(now - e.lastMicros) as real
    ensures dt == 0.0 <==> U32(now - e.lastMicros) == 0
    ensures dt > MaxInterval <==> U32(now - e.lastMicros) > 500000
  {
    U32(now - e.lastMicros) as real / 1000000.0
  }

  /** The acceleration `update` integrates on one axis: the bias is subtracted only once
      calibrated, and what is left is zeroed inside the deadband. */
  function Corrected(a: real, bias: real, calibrated: bool): (c: real)
    ensures var b := if calibrated then bias else 0.0;
      && (Reals.Abs(a - b) < AccelDeadband ==> c == 0.0)
      && (Reals.Abs(a - b) >= AccelDeadband ==> c == a - b)
  {
    Deadband(a - (if calibrated then bias else 0.0), AccelDeadband)
  }

  /** One axis of the integration step: `v + a * dt`, then damped. */
  function Integrate(v: real, a: real, dt: real): (r: real)
    ensures r / VelDamping - v == a * dt
  {
    (v + a * dt) * VelDamping
  }

  /** `update` at clock reading `now` (us). */
  function Update(e: Estimator, a: Sample, now: int): (r: Estimator)
    requires Valid(e) && IsUInt32(now)
    ensures Valid(r)
    // Every call records the time; nothing but the velocity and the time ever changes.
    ensures r == e.(v := r.v, lastMicros := now)
    // With no time stamp yet, the call only records the time.
    ensures e.lastMicros == 0 ==> r.v == e.v
    // A zero interval or one longer than half a second is not integrated.
    ensures e.lastMicros != 0 && (Interval(e, now) == 0.0 || Interval(e, now) > MaxInterval)
      ==> r.v == e.v
    // Otherwise, per axis, the undamped velocity change is the corrected acceleration times
    // the interval: zero for an acceleration within the deadband around the bias.
    ensures e.lastMicros != 0 && 0.0 < Interval(e, now) <= MaxInterval
      ==> var dt := Interval(e, now);
          var acc := ToMps2(a);
          && r.v.x / VelDamping - e.v.x == Corrected(acc.x, e.bias.x, e.calibrated) * dt
          && r.v.y / VelDamping - e.v.y == Corrected(acc.y, e.bias.y, e.calibrated) * dt
          && r.v.z / VelDamping - e.v.z == Corrected(acc.z, e.bias.z, e.calibrated) * dt
  {
    if e.lastMicros == 0 then e.(lastMicros := now)
    else
      var dt := Interval(e, now);
      var stamped := e.(lastMicros := now);
      if dt <= 0.0 || dt > MaxInterval then stamped
      else
        var acc := ToMps2(a);
        stamped.(v := Vec(Integrate(e.v.x, Corrected(acc.x, e.bias.x, e.calibrated), dt),
                          Integrate(e.v.y, Corrected(acc.y, e.bias.y, e.calibrated), dt),
                          Integrate(e.v.z, Corrected(acc.z, e.bias.z, e.calibrated), dt)))
  }

  /** `getSpeed`: the length of the velocity. */
  function Speed(e: Estimator, sqrt: real -> real): (s: real)
    ensures IsSqrt(sqrt) ==> 0.0 <= s && s * s == NormSquared(e.v)
  {
    sqrt(NormSquared(e.v))
  }

  // ---------------------------------------------------------------------------
  // Properties
  // ---------------------------------------------------------------------------

  /** A sample within the deadband of the bias on every axis only damps the velocity: the
      speed never grows, and strictly shrinks on an integrated tick while non-zero. */
  lemma QuietSampleDamps(e: Estimator, a: Sample, now: int)
    requires Valid(e) && IsUInt32(now) && e.calibrated
    requires Quiet(e, a)
    ensures var r := Update(e, a, now);
      && (r.v == e.v || r.v == Scale(VelDamping, e.v))
      && NormSquared(r.v) <= NormSquared(e.v)
      && (e.lastMicros != 0 && 0.0 < Interval(e, now) <= MaxInterval && NormSquared(e.v) > 0.0
          ==> NormSquared(r.v) < NormSquared(e.v))
  {
    var r := Update(e, a, now);
    if e.lastMicros != 0 && 0.0 < Interval(e, now) <= MaxInterval {
      assert r.v == Scale(VelDamping, e.v);
    }
    DampingShrinks(e.v);
  }

  /** Damping shortens every non-zero vector. */
  lemma DampingShrinks(v: Vec)
    ensures NormSquared(Scale(VelDamping, v)) <= NormSquared(v)
    ensures NormSquared(v) > 0.0 ==> NormSquared(Scale(VelDamping, v)) < NormSquared(v)
  {
    var k := VelDamping * VelDamping;
    assert NormSquared(Scale(VelDamping, v)) == k * NormSquared(v);
  }

  /** `update` applied to each (sample, clock reading) pair in turn. */
  function Run(e: Estimator, xs: seq<(Sample, int)>): (r: Estimator)
    requires Valid(e) && forall i :: 0 <= i < |xs| ==> IsUInt32(xs[i].1)
    ensures Valid(r)
    decreases |xs|
  {
    if xs == [] then e else Run(Update(e, xs[0].0, xs[0].1), xs[1..])
  }

  /** The sample lies within the deadband of the bias on every axis. */
  predicate Quiet(e: Estimator, a: Sample)
  {
    var acc := ToMps2(a);
    && Reals.Abs(acc.x - e.bias.x) < AccelDeadband
    && Reals.Abs(acc.y - e.bias.y) < AccelDeadband
    && Reals.Abs(acc.z - e.bias.z) < AccelDeadband
  }

  /** Once calibrated, a run of samples that all sit within the deadband of the bias (a
      stationary sensor) never increases the speed, whatever the clock does, and keeps the
      calibration. */
  lemma {:induction false} QuietRunNeverSpeedsUp(e: Estimator, xs: seq<(Sample, int)>)
    requires Valid(e) && e.calibrated
    requires forall i :: 0 <= i < |xs| ==> IsUInt32(xs[i].1) && Quiet(e, xs[i].0)
    ensures NormSquared(Run(e, xs).v) <= NormSquared(e.v)
    ensures Run(e, xs).bias == e.bias && Run(e, xs).calibrated
    decreases |xs|
  {
    if xs != [] {
      var e1 := Update(e, xs[0].0, xs[0].1);
      QuietSampleDamps(e, xs[0].0, xs[0].1);
      QuietRunNeverSpeedsUp(e1, xs[1..]);
    }
  }

  /** `addCalibrationSample` applied to each sample of `xs` in turn. */
  function AddCalibrationSamples(e: Estimator, xs: seq<Sample>): (r: Estimator)
    requires Valid(e)
    ensures Valid(r)
    decreases |xs|
  {
    if xs == [] then e
    else AddCalibrationSample(AddCalibrationSamples(e, xs[..|xs| - 1]), xs[|xs| - 1])
  }

  /** Sum of the samples in m/s^2, front to back. */
  function SampleSum(xs: seq<Sample>): Vec
    decreases |xs|
  {
    if xs == [] then Vec(0.0, 0.0, 0.0) else Add(SampleSum(xs[..|xs| - 1]), ToMps2(xs[|xs| - 1]))
  }

  /** During a calibration the accumulators hold the count and the sum of the samples
      added so far. */
  lemma {:induction false} CalibrationAccumulates(e: Estimator, xs: seq<Sample>)
    requires Valid(e) && e.calibrating && e.calibSamples + |xs| < Two32
    ensures var r := AddCalibrationSamples(e, xs);
      && r.calibrating
      && r.calibSamples == e.calibSamples + |xs|
      && r.calibSum == Add(e.calibSum, SampleSum(xs))
      && r.v == e.v && r.lastMicros == e.lastMicros
    decreases |xs|
  {
    if xs != [] {
      CalibrationAccumulates(e, xs[..|xs| - 1]);
    }
  }

  /** A calibration over `xs` (fewer than 2^32 samples) sets the bias to their mean. */
  lemma CalibrationIsMean(e: Estimator, xs: seq<Sample>)
    requires Valid(e) && 0 < |xs| < Two32
    ensures var r := FinishCalibration(AddCalibrationSamples(StartCalibration(e), xs));
      && r.calibrated && !r.calibrating
      && Scale(|xs| as real, r.bias) == SampleSum(xs)
      && r.v == e.v
  {
    var s := StartCalibration(e);
    CalibrationAccumulates(s, xs);
    assert Add(s.calibSum, SampleSum(xs)) == SampleSum(xs);
  }

  /** Calibrating on a stationary sensor that reports the same sample `a` every time sets the
      bias to exactly that sample, so the same sample afterwards integrates to nothing. */
  lemma CalibrationOnConstantSample(e: Estimator, xs: seq<Sample>, a: Sample)
    requires Valid(e) && 0 < |xs| < Two32
    requires forall i :: 0 <= i < |xs| ==> xs[i] == a
    ensures var r := FinishCalibration(AddCalibrationSamples(StartCalibration(e), xs));
      r.bias == ToMps2(a) && Quiet(r, a)
  {
    CalibrationIsMean(e, xs);
    ConstantSampleSum(xs, a);
    var r := FinishCalibration(AddCalibrationSamples(StartCalibration(e), xs));
    ScaleCancels(|xs| as real, r.bias, ToMps2(a));
  }

  /** Scaling by a non-zero factor is injective. */
  lemma ScaleCancels(k: real, u: Vec, w: Vec)
    requires k != 0.0 && Scale(k, u) == Scale(k, w)
    ensures u == w
  {
    assert k * u.x == k * w.x && k * u.y == k * w.y && k * u.z == k * w.z;
  }

  /** `n` copies of one sample sum to `n` times it. */
  lemma {:induction false} ConstantSampleSum(xs: seq<Sample>, a: Sample)
    requires forall i :: 0 <= i < |xs| ==> xs[i] == a
    ensures SampleSum(xs) == Scale(|xs| as real, ToMps2(a))
    decreases |xs|
  {
    if xs != [] {
      var front := xs[..|xs| - 1];
      assert forall i :: 0 <= i < |front| ==> front[i] == a;
      ConstantSampleSum(front, a);
      assert xs[|xs| - 1] == a;
      OneMore((|xs| - 1) as real, ToMps2(a));
    }
  }

  /** Adding one more copy of `v` to `n` copies gives `n + 1` copies. */
  lemma OneMore(n: real, v: Vec)
    ensures Add(Scale(n, v), v) == Scale(n + 1.0, v)
  {
    assert n * v.x + v.x == (n + 1.0) * v.x;
    assert n * v.y + v.y == (n + 1.0) * v.y;
    assert n * v.z + v.z == (n + 1.0) * v.z;
  }
}
