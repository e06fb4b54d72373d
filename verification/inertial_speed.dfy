/**
 * InertialSpeedEstimator: a scalar speed obtained by integrating the low-passed
 * acceleration magnitude minus gravity, with a noise floor, damping and a 0..10 m/s clamp.
 * Gravity is either standard gravity or the mean magnitude measured during a stationary
 * calibration. Samples arrive in milli-g; `sqrtf` is a parameter `sqrt` (a square root when
 * `Reals.IsSqrt(sqrt)` holds) and the arithmetic is exact.
 */
module InertialSpeed {
  import opened Fixed
  import opened Reals

  const DefaultG: real := 9.80665
  const AlphaMag: real := 0.2
  const NoiseFloor: real := 0.10
  const Damping: real := 0.99
  const MaxSpeed: real := 10.0

  datatype Estimator = Estimator(
    ts: real,
    speedMps: real,
    aMagFilt: real,
    calibrating: bool,
    calibrated: bool,
    gEst: real,
    calibSamples: int,
    calibSumMag: real)

  /** Reachable states: the speed is within the clamp, calibration is never both running and
      finished, and the accumulators are empty outside a calibration. */
  ghost predicate Valid(e: Estimator)
  {
    && 0.0 <= e.speedMps <= MaxSpeed
    && !(e.calibrating && e.calibrated)
    && IsUInt32(e.calibSamples)
    && (!e.calibrating ==> e.calibSamples == 0 && e.calibSumMag == 0.0)
  }

  /** Magnitude of a milli-g sample in m/s^2. */
  function Magnitude(a: Sample, sqrt: real -> real): (m: real)
    ensures IsSqrt(sqrt)
      ==> 0.0 <= m && m * m == NormSquared(a)
  {
    sqrt(NormSquared(a))
  }

  /** Squared magnitude of a milli-g sample in (m/s^2)^2. */
  function NormSquared(a: Sample): (n: real)
    ensures n >= 0.0
  {
    var x := a.x as real * MilliGToMps2;
    var y := a.y as real * MilliGToMps2;
    var z := a.z as real * MilliGToMps2;
    x * x + y * y + z * z
  }

  /** The constructor with sample period `ts`: at rest, uncalibrated, assuming standard
      gravity. */
  function Create(ts: real): (e: Estimator)
    ensures Valid(e) && e.ts == ts
    ensures e.speedMps == 0.0 && e.aMagFilt == 0.0 && e.gEst == DefaultG
    ensures !e.calibrating && !e.calibrated
  {
    Estimator(ts := ts, speedMps := 0.0, aMagFilt := 0.0, calibrating := false,
              calibrated := false, gEst := DefaultG, calibSamples := 0, calibSumMag := 0.0)
  }

  /** `reset`: back to the constructed state, keeping the sample period. */
  function Reset(e: Estimator): (r: Estimator)
    ensures r == Create(e.ts)
  {
    e.(speedMps := 0.0, aMagFilt := 0.0, calibrating := false, calibrated := false,
       gEst := DefaultG, calibSamples := 0, calibSumMag := 0.0)
  }

  /** `startCalibration`: empty accumulators, calibrating and no longer calibrated; the speed,
      the filter and the previous estimate of gravity are kept. */
  function StartCalibration(e: Estimator): (r: Estimator)
    requires Valid(e)
    ensures Valid(r)
    ensures r.calibrating && !r.calibrated && r.calibSamples == 0 && r.calibSumMag == 0.0
    ensures r.speedMps == e.speedMps && r.aMagFilt == e.aMagFilt && r.gEst == e.gEst && r.ts == e.ts
  {
    e.(calibrating := true, calibrated := false, calibSamples := 0, calibSumMag := 0.0)
  }

  /** `addCalibrationSample`: while calibrating, the sample's magnitude is accumulated and
      counted (the count in uint32_t); otherwise nothing changes. */
  function AddCalibrationSample(e: Estimator, a: Sample, sqrt: real -> real): (r: Estimator)
    requires Valid(e)
    ensures Valid(r)
    ensures !e.calibrating ==> r == e
    ensures e.calibrating
      ==> r == e.(calibSamples := U32(e.calibSamples + 1), calibSumMag := e.calibSumMag + Magnitude(a, sqrt))
  {
    if !e.calibrating then e
    else e.(calibSumMag := e.calibSumMag + Magnitude(a, sqrt), calibSamples := U32(e.calibSamples + 1))
  }

  /** `finishCalibration`: with at least one sample, gravity becomes the mean accumulated
      magnitude and the estimator is calibrated; without a calibration in progress or without
      samples, nothing changes. */
  function FinishCalibration(e: Estimator): (r: Estimator)
    requires Valid(e)
    ensures Valid(r)
    ensures !e.calibrating || e.calibSamples == 0 ==> r == e
    ensures e.calibrating && e.calibSamples > 0
      ==> && r.gEst * e.calibSamples as real == e.calibSumMag
          && r.calibrated && !r.calibrating
          && r.speedMps == e.speedMps && r.aMagFilt == e.aMagFilt && r.ts == e.ts
  {
    if !e.calibrating || e.calibSamples == 0 then e
    else
      e.(gEst := e.calibSumMag / e.calibSamples as real, calibrating := false, calibrated := true,
         calibSamples := 0, calibSumMag := 0.0)
  }

  /** The gravity `update` subtracts: the calibrated estimate, or standard gravity. */
  function Gravity(e: Estimator): (g: real)
    // During a calibration standard gravity is used, whatever estimate is left from before.
    ensures Valid(e) && e.calibrating ==> g == DefaultG
    ensures e.calibrated ==> g == e.gEst
    ensures !e.calibrated ==> g == DefaultG
  {
    if e.calibrated then e.gEst else DefaultG
  }

  /** `update`: low-pass the magnitude, subtract gravity, zero it inside the noise floor,
      integrate only a positive remainder over one sample period, damp, and clamp. */
  function Update(e: Estimator, a: Sample, sqrt: real -> real): (r: Estimator)
    requires Valid(e)
    ensures Valid(r)
    // Only the speed and the filter move.
    ensures r == e.(speedMps := r.speedMps, aMagFilt := r.aMagFilt)
    // The filter moves a fifth of the way towards the new magnitude.
    ensures r.aMagFilt - e.aMagFilt == AlphaMag * (Magnitude(a, sqrt) - e.aMagFilt)
    // Without a linear acceleration above the noise floor the speed only decays.
    ensures r.aMagFilt - Gravity(e) < NoiseFloor ==> r.speedMps == Damping * e.speedMps
    // A linear acceleration above the floor is integrated over one period before damping,
    // and the result is capped at 10 m/s.
    ensures r.aMagFilt - Gravity(e) >= NoiseFloor && e.ts >= 0.0
      ==> var v := (e.speedMps + (r.aMagFilt - Gravity(e)) * e.ts) * Damping;
          (v <= MaxSpeed ==> r.speedMps == v) && (v > MaxSpeed ==> r.speedMps == MaxSpeed)
  {
    var filt := AlphaMag * Magnitude(a, sqrt) + (1.0 - AlphaMag) * e.aMagFilt;
    var aLin := Deadband(filt - Gravity(e), NoiseFloor);
    var integrated := if aLin > 0.0 then e.speedMps + aLin * e.ts else e.speedMps;
    var damped := integrated * Damping;
    var floored := if damped < 0.0 then 0.0 else damped;
    var capped := if floored > MaxSpeed then MaxSpeed else floored;
    e.(aMagFilt := filt, speedMps := capped)
  }

  /** `getSpeedKmh`: the speed in km/h, within [0, 36]. */
  function SpeedKmh(e: Estimator): (kmh: real)
    ensures kmh == e.speedMps * 3.6
    ensures Valid(e) ==> 0.0 <= kmh <= 36.0
  {
    e.speedMps * 3.6
  }

  // ---------------------------------------------------------------------------
  // Runs of samples
  // ---------------------------------------------------------------------------

  /** `addCalibrationSample` applied to each sample of `xs` in turn. */
  function AddCalibrationSamples(e: Estimator, xs: seq<Sample>, sqrt: real -> real): (r: Estimator)
    requires Valid(e)
    ensures Valid(r)
    decreases |xs|
  {
    if xs == [] then e
    else AddCalibrationSample(AddCalibrationSamples(e, xs[..|xs| - 1], sqrt), xs[|xs| - 1], sqrt)
  }

  /** Sum of the samples' magnitudes, front to back. */
  function MagnitudeSum(xs: seq<Sample>, sqrt: real -> real): real
    decreases |xs|
  {
    if xs == [] then 0.0 else MagnitudeSum(xs[..|xs| - 1], sqrt) + Magnitude(xs[|xs| - 1], sqrt)
  }

  /** During a calibration the accumulators hold the count and the magnitude sum of the
      samples added so far. */
  lemma {:induction false} CalibrationAccumulates(e: Estimator, xs: seq<Sample>, sqrt: real -> real)
    requires Valid(e) && e.calibrating && e.calibSamples + |xs| < Two32
    ensures var r := AddCalibrationSamples(e, xs, sqrt);
      && r.calibrating
      && r.calibSamples == e.calibSamples + |xs|
      && r.calibSumMag == e.calibSumMag + MagnitudeSum(xs, sqrt)
      && r.speedMps == e.speedMps && r.aMagFilt == e.aMagFilt && r.ts == e.ts
    decreases |xs|
  {
    if xs != [] {
      CalibrationAccumulates(e, xs[..|xs| - 1], sqrt);
    }
  }

  /** A calibration over `xs` (fewer than 2^32 samples) estimates gravity as their mean
      magnitude. */
  lemma CalibrationIsMean(e: Estimator, xs: seq<Sample>, sqrt: real -> real)
    requires Valid(e) && 0 < |xs| < Two32
    ensures var r := FinishCalibration(AddCalibrationSamples(StartCalibration(e), xs, sqrt));
      && r.calibrated && !r.calibrating
      && r.gEst * |xs| as real == MagnitudeSum(xs, sqrt)
      && r.speedMps == e.speedMps
  {
    CalibrationAccumulates(StartCalibration(e), xs, sqrt);
  }

  /** Samples of equal magnitude `m` sum to `|xs| * m`. */
  lemma {:induction false} ConstantMagnitudeSum(xs: seq<Sample>, sqrt: real -> real, m: real)
    requires forall i :: 0 <= i < |xs| ==> Magnitude(xs[i], sqrt) == m
    ensures MagnitudeSum(xs, sqrt) == |xs| as real * m
    decreases |xs|
  {
    if xs != [] {
      ConstantMagnitudeSum(xs[..|xs| - 1], sqrt, m);
    }
  }

  /** Calibrating on samples that all have magnitude `m` estimates gravity as exactly `m`. */
  lemma CalibrationOnConstantMagnitude(e: Estimator, xs: seq<Sample>, sqrt: real -> real, m: real)
    requires Valid(e) && 0 < |xs| < Two32
    requires forall i :: 0 <= i < |xs| ==> Magnitude(xs[i], sqrt) == m
    ensures FinishCalibration(AddCalibrationSamples(StartCalibration(e), xs, sqrt)).gEst == m
  {
    CalibrationIsMean(e, xs, sqrt);
    ConstantMagnitudeSum(xs, sqrt, m);
    var g := FinishCalibration(AddCalibrationSamples(StartCalibration(e), xs, sqrt)).gEst;
    Cancel(|xs| as real, g, m);
  }

  /** A non-zero factor cancels: `g * k == k * m` forces `g == m`. */
  lemma Cancel(k: real, g: real, m: real)
    requires k != 0.0 && g * k == k * m
    ensures g == m
  {
    assert (g - m) * k == 0.0;
  }

  /** `update` applied to each sample of `xs` in turn. */
  function Run(e: Estimator, xs: seq<Sample>, sqrt: real -> real): (r: Estimator)
    requires Valid(e)
    ensures Valid(r)
    decreases |xs|
  {
    if xs == [] then e else Run(Update(e, xs[0], sqrt), xs[1..], sqrt)
  }

  /** One sample no heavier than the gravity in use, on a filter that is not either: the
      filter stays at or below gravity and the speed is only damped. */
  lemma QuietStep(e: Estimator, a: Sample, sqrt: real -> real)
    requires Valid(e) && e.aMagFilt <= Gravity(e) && Magnitude(a, sqrt) <= Gravity(e)
    ensures var r := Update(e, a, sqrt);
      r.speedMps == Damping * e.speedMps && r.aMagFilt <= Gravity(e) && Gravity(r) == Gravity(e)
  {
    var g := Gravity(e);
    var r := Update(e, a, sqrt);
    var m := Magnitude(a, sqrt);
    assert r.aMagFilt == 0.8 * e.aMagFilt + 0.2 * m;
    assert 0.8 * e.aMagFilt <= 0.8 * g;
    assert 0.2 * m <= 0.2 * g;
  }

  /** `s` damped `n` times. */
  function Damped(n: nat, s: real): real
  {
    if n == 0 then s else Damped(n - 1, Damping * s)
  }

  /** Damping `n` times multiplies by the damping factor to the power `n`. */
  lemma {:induction false} DampedIsPow(n: nat, s: real)
    ensures Damped(n, s) == Pow(Damping, n) * s
  {
    if n > 0 {
      DampedIsPow(n - 1, Damping * s);
      var p := Pow(Damping, n - 1);
      assert p * (Damping * s) == (Damping * p) * s;
    }
  }

  /** Samples whose magnitude never exceeds the gravity in use, starting from a filter that
      does not either, never add speed: after `n` of them the speed has been damped exactly
      `n` times (`DampedIsPow`: multiplied by 0.99^n). In particular a stationary sensor at
      rest stays at rest. */
  lemma {:induction false} QuietRunDecays(e: Estimator, xs: seq<Sample>, sqrt: real -> real)
    requires Valid(e) && e.aMagFilt <= Gravity(e)
    requires forall i :: 0 <= i < |xs| ==> Magnitude(xs[i], sqrt) <= Gravity(e)
    ensures Run(e, xs, sqrt).speedMps == Damped(|xs|, e.speedMps)
    ensures Run(e, xs, sqrt).aMagFilt <= Gravity(e)
    decreases |xs|
  {
    if xs != [] {
      QuietStep(e, xs[0], sqrt);
      QuietRunDecays(Update(e, xs[0], sqrt), xs[1..], sqrt);
    }
  }
}
