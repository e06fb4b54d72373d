# Motion analytics firmware core, in Dafny

This project models the signal-processing core of an accelerometer-based motion analytics
firmware (an Arduino-class board with an LSM9DS1 IMU) and proves properties of the model. It
covers five parts of the firmware:

- **Pedometer**: the integer step detector run once per accelerometer tick at 50 Hz. Each tick
  goes through the same stages:
  - compute the L1 magnitude of the sample;
  - feed it to a 4-tap moving-average ring;
  - scan a 17-slot window of filtered values for its extremes;
  - latch a peak and then a valley once each sits at the window's centre;
  - keep a 4-slot adaptive threshold ring;
  - debounce steps: 8 possible steps are committed as one batch, then single steps count while
    "regulation mode" lasts;
  - run two timeouts.
- **IMU helpers**:
  - the register byte decode;
  - the fixed-point raw-to-milli-g scale, which truncates toward zero;
  - Newton's integer square root on `uint32_t`;
  - the acceleration magnitude built from those.
- **StepSizeEstimator**: per-step length and cadence from the speed and the step count, with:
  - a 100 ms gate;
  - clamping to [0.05, 1.5] m;
  - a saturating ring of ten lengths and its mean;
  - exponential smoothing;
  - cadence decay.
- **InertialSpeedEstimator**: a scalar speed. The magnitude is low-passed, gravity is
  subtracted, and a noise floor, damping and a 0–10 m/s clamp are applied. Gravity comes from
  a start/add/finish calibration protocol.
- **VelocityEstimator**: a three-axis velocity, with:
  - a bias calibration;
  - a time gate of at most 0.5 s between calls;
  - a per-axis deadband;
  - integration and damping.

Layout:

- `fixed.dfy`: C integer semantics (`uint32_t` wrap-around, `int16_t` truncation, division
  truncating toward zero) and the three-axis `Sample`.
- `reals.dfy`: `Abs`, `Clamp`, `Deadband` and `Pow` on reals, the milli-g to m/s² factor and the
  `IsSqrt` assumption.
- `ring.dfy`: sums of fixed-length rings and how a write changes them.
- `imu.dfy`: the IMU helpers.
- `pedometer.dfy`: the Pedometer state and one function per firmware method. `Step` is `update`.
- `pedometer_props.dfy`: properties relating the state before and after a tick, and runs of
  ticks.
- `step_size.dfy`, `inertial_speed.dfy`, `velocity.dfy`: the three estimators.

Every state is an immutable record. Every operation is a pure function from the old record to
the new one. A ghost `Valid` predicate states the invariant that every reachable state keeps:
- for the Pedometer: running sums equal ring sums, indices and counters are within their
  `int8_t`/`uint32_t` ranges, and the flags and the regulation debouncer are consistent;
- for StepSizeEstimator: the ring shape and admissible lengths;
- for InertialSpeedEstimator: the calibration protocol and the 0–10 m/s clamp;
- for VelocityEstimator: the calibration protocol and the `uint32_t` ranges of its counter and time stamp.

Clock readings (`millis()`, `micros()`) are parameters of the update functions. The square
roots are parameters too:
- `sqrtf` on reals is a function `sqrt`, assumed to be a square root through `Reals.IsSqrt`
  wherever a property needs it;
- the stride length's nested `sqrtf(16 * sqrtf(raw))` is a function `quarticRoot`.

Floating-point values are modelled as exact reals.

The code and its documentation differ in one place. The code's behaviour is modelled:
- `Pedometer.hpp` does not declare `strideLength`, `totalDistance`, `lastStrideAmax`,
  `lastStrideAmin` or the helper methods that `Pedometer.cpp` uses;
- the model follows `Pedometer.cpp`;
- it takes the stride amplitude as the signed difference `LastMax - LastMin`.

## Model

| member | source | states |
|---|---|---|
| Imu.DecodeAxis | proj1/imu.cpp:37-39 | an axis decoded from its register pair is an int16_t value, is negative exactly when the high byte's top bit is set, and keeps the low byte as its low 8 bits |
| Imu.DecodeEncode | proj1/imu.cpp:37-39 | every int16_t value is recovered by decoding its two's-complement byte pair |
| Imu.EncodeDecode | proj1/imu.cpp:37-39 | every byte pair is recovered by re-encoding its decoded value, so the decode is a bijection |
| Imu.DecodeAcceleration | proj1/imu.cpp:33-40 | the six bytes hold X, Y, Z in that order, each axis the two's-complement value of (high, low) with the low byte at the even offset |
| Imu.RawToMilliG | proj1/imu.cpp:110-112 | the result lies in [-1998, 1998], has the sign of the count, and its magnitude is the floor of 0.061 times the count's magnitude (truncation toward zero) |
| Imu.RawToMilliGIsOdd | proj1/imu.cpp:110-112 | negating a count other than -32768 negates its milli-g value |
| Imu.NewtonSeed | proj1/imu.cpp:118-119 | the first estimate is about half the value, and wraps to 0 at 2^32 - 1 |
| Imu.NewtonStaysAbove | proj1/imu.cpp:121-124 | every Newton estimate stays at or above the floor square root |
| Imu.NewtonExit | proj1/imu.cpp:121-124 | once the next estimate no longer decreases, the current one squared is at most the value |
| Imu.NewtonNoOverflow | proj1/imu.cpp:121-124 | `x + value / x` never wraps a uint32_t inside the loop |
| Imu.NewtonStep | proj1/imu.cpp:121-124 | one iteration computes the next estimate without wrap-around, keeps it positive and keeps it at or above the root |
| Imu.IntegerSqrt | proj1/imu.cpp:115-127 | for every value below 2^32 - 1 the result is the floor square root (0 for 0), and the loop ends because the estimate strictly decreases |
| Imu.SquareThroughU32 | proj1/imu.cpp:54-62 | squaring a milli-g value through the uint32_t casts gives its exact square, at most 1998^2 |
| Imu.AccelMagnitude | proj1/imu.cpp:54-62 | the magnitude is the floor of the Euclidean norm of the three milli-g values |
| Pedometer.Init | proj1/Pedometer.cpp:8-58 | reset yields a valid state: magnitude and window rings all 0, the threshold ring four 4000s (not 0) with operating threshold 4000, every index, counter, flag, latched value and the distance 0, no regulation |
| Pedometer.ScaledAbs | proj1/Pedometer.cpp:62-74 | one scaled axis lies in [0, 32768], and is four times the absolute value when the axis is within ±8191 |
| Pedometer.ComputeModuleData | proj1/Pedometer.cpp:62-74 | the magnitude lies in [0, 98304], and is 4·(\|ax\|+\|ay\|+\|az\|) when every axis is within ±8191 |
| Pedometer.ApplyFilter | proj1/Pedometer.cpp:76-82 | the new magnitude replaces the oldest ring entry, the incremental sum equals the ring sum, the window receives sum / 4, and nothing else changes |
| Pedometer.ScanMax | proj1/Pedometer.cpp:84-96 | the scan returns the lowest index of the window's largest value |
| Pedometer.ScanMin | proj1/Pedometer.cpp:98-110 | the scan returns the lowest index of the window's smallest value |
| Pedometer.FindWindowExtremes | proj1/Pedometer.cpp:84-110 | WindowMax and WindowMin are the window's extremes, found at their lowest indices, and only those four fields change |
| Pedometer.Prepare | proj1/Pedometer.cpp:284-293 | magnitude, filter and scan keep the invariant, write the filtered value at the write slot, and change only their own fields |
| Pedometer.Center | proj1/Pedometer.cpp:168 | the centre slot `(IndexBuffer + 8) mod 17` is 9 ticks behind the write slot, which holds the newest value, so the window has 7 values older than the centre and 9 newer |
| Pedometer.HandleMaxDetection | proj1/Pedometer.cpp:166-176 | a peak is latched exactly when the window maximum sits at the centre slot; otherwise nothing changes (there is no timeout while seeking a peak) |
| Pedometer.UpdateDynamicThreshold | proj1/Pedometer.cpp:112-124 | the swing midpoint replaces the oldest threshold, the incremental sum equals the ring sum, old_threshold is sum / 4, and the index advances mod 4 |
| Pedometer.StrideLength | proj1/Pedometer.cpp:126-137 | a non-positive amplitude gives 0; otherwise the length is the root term scaled by 7 / (3·48·2.093) |
| Pedometer.RegisterStep | proj1/Pedometer.cpp:139-164 | the stride comes from the latched swing; while regulated a step adds 1 to the count and one stride to the distance; otherwise the eighth possible step commits 8 steps and 8 times the current stride (not the batch's eight strides) and enters regulation, and earlier ones only add to the possible steps and leave the distance |
| Pedometer.ProcessSwing | proj1/Pedometer.cpp:202-214 | the midpoint `(LastMax + LastMin) / 2` replaces the threshold at the write slot, the operating threshold becomes the ring's mean and the slot advances mod 4; a set flag is cleared, both timers restart and a step is registered with its count and distance effects; an unset flag leaves counters, timers and distance alone; nothing else changes |
| Pedometer.HandleMaxMinTimeout | proj1/Pedometer.cpp:235-246 | the valley timer counts mod 50; its 50th tick abandons the peak, zeroes WindowMax, WindowMin and the possible steps, and changes nothing else |
| Pedometer.LatchValley | proj1/Pedometer.cpp:180-200 | the valley is latched, Difference is the uint32_t difference, and a crossing swing sets the flag and clears the failures while a failing one counts and leaves the flag as it was |
| Pedometer.SettleFailures | proj1/Pedometer.cpp:216-227 | WindowMin is cleared; a second consecutive failure also drops regulation, the possible steps, the failure count, the valley timer and WindowMax/WindowMin to 0, and changes nothing else (the threshold ring included) |
| Pedometer.Crosses | proj1/Pedometer.cpp:191-192 | with a threshold of at least 200 the swing crosses exactly when the peak is above threshold + 200 and the valley below threshold - 200; below 200 the lower bound wraps and only the peak is tested |
| Pedometer.HandleMinDetection | proj1/Pedometer.cpp:178-233 | the valley branch and its timeout keep the state invariant and leave the rings' write slots alone |
| Pedometer.Detect | proj1/Pedometer.cpp:297-304 | seeking a peak or, with one held, a valley keeps the invariant and leaves the write slots and the window alone (its effects on the count, timer, flag, valley latch, threshold ring and distance are stated by the PedometerProps.Detect lemmas) |
| Pedometer.UpdateCircularIndices | proj1/Pedometer.cpp:248-257 | both write slots advance and wrap, and nothing else changes |
| Pedometer.HandleRegulationTimeout | proj1/Pedometer.cpp:259-280 | 100 ticks without a step clear the possible steps; in regulation mode they also leave it and restore the ring of four 4000s; otherwise the thresholds are untouched |
| Pedometer.Step | proj1/Pedometer.cpp:284-311 | every tick keeps the invariant (ring sums, index and counter ranges that fit int8_t) and advances both write slots |
| Pedometer.AverageStepLength | proj1/Pedometer.cpp:328-333 | 0 before any step; otherwise the average times the count is the total distance |
| PedometerProps.DetectCounting | proj1/Pedometer.cpp:148-163 | detection changes the count only on a registered step: +1 in regulation, +8 on the eighth possible step, else 0; regulation starts only from that eighth step |
| PedometerProps.StepCounting | proj1/Pedometer.cpp:284-311 | the same counting facts hold for a whole tick, since the end-of-tick stages leave the count alone |
| PedometerProps.StepGain | proj1/Pedometer.cpp:148-163 | each tick adds exactly 0, 1 or 8 modulo 2^32: 8 only from a non-regulated state holding 7 possible steps, 1 only in regulation, either only on a registered step; entering regulation always adds 8 |
| PedometerProps.CountNeverDecreases | proj1/Pedometer.cpp:148-163 | away from the uint32_t limit the count never decreases and grows by at most 8 per tick |
| PedometerProps.PeakLatchedAtCenter | proj1/Pedometer.cpp:166-176 | a peak is latched exactly when the window maximum's lowest index is the centre slot, and LastMax is then the centre value |
| PedometerProps.NoTimeoutWhileSeekingPeak | proj1/Pedometer.cpp:229-232 | while seeking a peak the valley timer and the possible steps are untouched except by a latch or the 2 s timeout, and the count is unchanged |
| PedometerProps.DetectValley | proj1/Pedometer.cpp:178-233 | with a peak held, detection either latches the valley with Difference in uint32_t or counts the valley timer, dropping the peak on its 50th tick |
| PedometerProps.ValleyLatchedAtCenter | proj1/Pedometer.cpp:178-233 | a valley is latched exactly when the window minimum's lowest index is the centre slot; otherwise the valley timer runs out after 50 ticks |
| PedometerProps.DetectFlag | proj1/Pedometer.cpp:191-213 | after detection the threshold flag is set exactly when it was set or the latched swing crossed, and no step was registered |
| PedometerProps.ThresholdFlag | proj1/Pedometer.cpp:191-213 | the flag survives a crossing swing of at most 400 and is cleared only by a registered step |
| PedometerProps.DetectTimer | proj1/Pedometer.cpp:203-207 | a registered step restarts the step-to-step timer; nothing else in detection touches it |
| PedometerProps.StepToStepCounts | proj1/Pedometer.cpp:307-310 | after a step tick the timer reads 1, because the regulation timeout runs after detection; otherwise it counts mod 100 |
| PedometerProps.RegulationIdleExit | proj1/Pedometer.cpp:259-280 | the 100th idle tick in regulation leaves it and clears the possible steps; it restores the four 4000s unless the same tick was a second consecutive threshold failure, which already dropped regulation |
| PedometerProps.SecondFailureDropsRegulation | proj1/Pedometer.cpp:216-227 | a second consecutive failure drops regulation and the possible steps and resets the counter, and the threshold ring is not reset |
| PedometerProps.DetectThreshold | proj1/Pedometer.cpp:112-124 | detection changes the threshold ring only on a latched swing wider than 400, writing `(LastMax + WindowMin) / 2` at the write slot, taking the ring's mean as the operating threshold and advancing the slot; every other tick leaves ring, slot and threshold alone |
| PedometerProps.DetectDistance | proj1/Pedometer.cpp:139-164 | with a non-negative root, detection never shortens the total distance |
| PedometerProps.RunCountBounded | proj1/Pedometer.cpp:284-311 | over n ticks away from the uint32_t limit the count never decreases and grows by at most 8n |
| PedometerProps.RunDistanceGrows | proj1/Pedometer.cpp:284-311 | over any run the total distance never decreases |
| PedometerProps.RunFromInit | proj1/Pedometer.cpp:8-58 | a freshly reset pedometer fed fewer than 2^29 ticks stays valid and counts at most 8 steps per tick |
| StepSize.Create | proj1/StepSizeEstimator.cpp:3-16 | the constructor's state is valid, uninitialised, with an empty all-zero ring and zero cadence |
| StepSize.Reset | proj1/StepSizeEstimator.cpp:18-32 | reset restores exactly the constructed state, zeroed ring included |
| StepSize.Elapsed | proj1/StepSizeEstimator.cpp:47 | the interval is the uint32_t difference of clock readings: the plain difference when the clock has not wrapped, and the difference plus 2^32 when it has |
| StepSize.NewSteps | proj1/StepSizeEstimator.cpp:51 | the new steps are the uint32_t difference of step counts: the plain difference when the counter has not wrapped, and that plus 2^32 when it has |
| StepSize.Accepts | proj1/StepSizeEstimator.cpp:39-54 | away from wrap-around, an update is accepted exactly when the estimator is initialised, 100 ms or more have passed, the step count has grown and the speed is at least 0.1 m/s |
| StepSize.StepLength | proj1/StepSizeEstimator.cpp:59-68 | the length lies in [0.05, 1.5]; it is the distance per step when that is in range, and the bound it passes otherwise |
| StepSize.Smooth | proj1/StepSizeEstimator.cpp:77-82 | a zero previous value is replaced; otherwise the value moves 30% of the way toward the new length and stays between the two |
| StepSize.DecayCadence | proj1/StepSizeEstimator.cpp:87-93 | the cadence becomes 0.95 times its value when that is at least 0.05 and 0 when it is below, so it never goes negative or grows |
| StepSize.Push | proj1/StepSizeEstimator.cpp:70-82 | the length enters the write slot, the slot advances mod 10, the count saturates at 10, and the smoothed value is seeded and then moves 30% |
| StepSize.Accept | proj1/StepSizeEstimator.cpp:54-86 | an accepted update records the clamped step length, a cadence equal to steps per second, the ring push, and the new step count and time |
| StepSize.Update | proj1/StepSizeEstimator.cpp:34-94 | the first call only records count and time; within 100 ms nothing changes; below 0.1 m/s only the cadence changes, to its DecayCadence value; no new steps changes nothing; the invariant holds throughout |
| StepSize.StepSizeCm | proj1/StepSizeEstimator.cpp:101-104 | the centimetre value is 100 times the smoothed length, within [5, 150] once a length was accepted |
| StepSize.SumFirst | proj1/StepSizeEstimator.cpp:110-113 | the loop sums exactly the first n entries |
| StepSize.AverageStepSizeMeters | proj1/StepSizeEstimator.cpp:106-116 | 0 for an empty ring; otherwise the mean of the first bufferFilled entries (of all ten when full), within [0.05, 1.5] |
| StepSize.RingKeepsLastTen | proj1/StepSizeEstimator.cpp:70-75 | from a fresh estimator, the ring holds the last ten accepted lengths, the k-th in slot k mod 10, with the count saturating at 10 |
| StepSize.PushKeepsLastTen | proj1/StepSizeEstimator.cpp:70-75 | one more accepted length keeps the ring holding the last ten |
| StepSize.SlowRunKeepsLengths | proj1/StepSizeEstimator.cpp:85-93 | updates below 0.1 m/s never touch the lengths, the ring, the step count or the time, and the cadence only decays |
| InertialSpeed.Magnitude | proj1/InertialSpeedEstimator.cpp:40-44 | with a true square root the magnitude is the non-negative root of the squared m/s² norm |
| InertialSpeed.Create | proj1/InertialSpeedEstimator.cpp:4-14 | the constructor starts at rest, uncalibrated, assuming standard gravity, with the given period |
| InertialSpeed.Reset | proj1/InertialSpeedEstimator.cpp:16-25 | reset restores the constructed state but keeps the sample period |
| InertialSpeed.StartCalibration | proj1/InertialSpeedEstimator.cpp:27-33 | calibration starts with empty accumulators and clears calibrated, keeping the old gravity estimate |
| InertialSpeed.AddCalibrationSample | proj1/InertialSpeedEstimator.cpp:35-48 | a no-op unless calibrating; otherwise it accumulates the magnitude and counts the sample in uint32_t |
| InertialSpeed.FinishCalibration | proj1/InertialSpeedEstimator.cpp:50-61 | a no-op unless calibrating with samples; otherwise gravity times the count is the accumulated sum, and the estimator is calibrated |
| InertialSpeed.Gravity | proj1/InertialSpeedEstimator.cpp:76 | the calibrated estimate once calibrated, else standard gravity; in particular during a calibration standard gravity is used, whatever estimate is left from before |
| InertialSpeed.Update | proj1/InertialSpeedEstimator.cpp:63-95 | the filter moves 20%; below the 0.1 noise floor above gravity the speed is only damped by 0.99; above it the remainder is integrated, damped and capped at 10; speed stays in [0, 10] |
| InertialSpeed.SpeedKmh | proj1/InertialSpeedEstimator.cpp:102-105 | km/h is 3.6 times m/s, within [0, 36] |
| InertialSpeed.CalibrationAccumulates | proj1/InertialSpeedEstimator.cpp:35-48 | during a calibration the accumulators hold the count and the magnitude sum of the samples added |
| InertialSpeed.CalibrationIsMean | proj1/InertialSpeedEstimator.cpp:27-61 | start, add n samples, finish: gravity is their mean magnitude and the estimator is calibrated |
| InertialSpeed.CalibrationOnConstantMagnitude | proj1/InertialSpeedEstimator.cpp:27-61 | calibrating on samples of equal magnitude m estimates gravity as exactly m |
| InertialSpeed.QuietStep | proj1/InertialSpeedEstimator.cpp:74-90 | a sample no heavier than gravity, on a filter that is not either, only damps the speed and keeps the filter at or below gravity |
| InertialSpeed.DampedIsPow | proj1/InertialSpeedEstimator.cpp:90 | damping n times multiplies by 0.99^n |
| InertialSpeed.QuietRunDecays | proj1/InertialSpeedEstimator.cpp:74-94 | a run of samples no heavier than gravity damps the speed exactly once per sample and never adds to it |
| Velocity.Reset | proj1/VelocityEstimator.cpp:8-23 | reset zeroes velocity, bias, accumulated sum, flags, counter and time stamp |
| Velocity.StartCalibration | proj1/VelocityEstimator.cpp:25-33 | calibration starts with empty accumulators and clears calibrated, so no bias is subtracted until finish |
| Velocity.AddCalibrationSample | proj1/VelocityEstimator.cpp:35-48 | ignored unless calibrating; otherwise it accumulates the m/s² sample and counts it in uint32_t |
| Velocity.FinishCalibration | proj1/VelocityEstimator.cpp:50-61 | a no-op unless calibrating with samples, leaving the old bias; otherwise the bias times the count is the accumulated sum |
| Velocity.Interval | proj1/VelocityEstimator.cpp:72-73 | dt is the uint32_t microsecond difference divided by 10^6: zero exactly when the readings agree, above 0.5 s exactly when more than 500000 us passed |
| Velocity.Corrected | proj1/VelocityEstimator.cpp:86-93 | with b the bias when calibrated and 0 otherwise, the result is 0 when \|a - b\| < 0.05 and exactly a - b otherwise |
| Velocity.Integrate | proj1/VelocityEstimator.cpp:96-103 | undamped, the velocity change is acceleration times dt, and the result is damped by 0.999 |
| Velocity.Update | proj1/VelocityEstimator.cpp:63-104 | every call records the time; the first call and zero or too-long intervals leave the velocity; otherwise each axis changes by its corrected acceleration times dt, then is damped |
| Velocity.Speed | proj1/VelocityEstimator.cpp:106-109 | with a true square root, the speed is the length of the velocity |
| Velocity.QuietSampleDamps | proj1/VelocityEstimator.cpp:91-103 | once calibrated, a sample within the deadband of the bias only damps the velocity, and strictly shrinks a non-zero speed on an integrated tick |
| Velocity.DampingShrinks | proj1/VelocityEstimator.cpp:101-103 | damping never lengthens a vector and strictly shortens a non-zero one |
| Velocity.QuietRunNeverSpeedsUp | proj1/VelocityEstimator.cpp:63-104 | a calibrated estimator fed samples within the deadband of its bias never speeds up, whatever the clock does |
| Velocity.CalibrationAccumulates | proj1/VelocityEstimator.cpp:35-48 | during a calibration the accumulators hold the count and the sum of the samples added |
| Velocity.CalibrationIsMean | proj1/VelocityEstimator.cpp:25-61 | start, add n samples, finish: the bias is the per-axis mean of the samples |
| Velocity.CalibrationOnConstantSample | proj1/VelocityEstimator.cpp:55-60 | n identical samples give a bias equal to the sample times MG_TO_MPS2, so that sample then integrates to nothing |

## Left out

- The BLE service (`BleSensorService`), the ultrasonic sensor with its interrupt handler, and
  the host-side Python plotting client are not part of this model. They are hardware, foreign
  libraries and concurrency.
- I2C and serial I/O in `imu.cpp` (`begin`, `readRegister(s)`, `writeRegister`,
  `printAcceleration`) are not modelled. The byte decode works on the six bytes as a parameter.
- Clock readings are parameters: `millis()` for StepSizeEstimator, `micros()` for
  VelocityEstimator. Clock wrap-around is modelled only through the uint32_t subtraction.
- IEEE-754 single precision, `sqrtf` and `fabsf`: reals stand in for floats.
  - `sqrtf` is a parameter. Properties that need it to be a square root assume `Reals.IsSqrt`.
  - The stride length's `sqrtf(16 * sqrtf(raw))` is a parameter `quarticRoot`. Only its raw ≤ 0
    case and its non-negativity are used.
  - NaN and infinities are not modelled.
- Plain field getters are the record's fields:
  - Pedometer: `getStepCount`, `getLastStrideLength`, `getTotalDistance` (the fields
    `countSteps`, `strideLength`, `totalDistance`);
  - StepSizeEstimator: `getStepSizeMeters`, `getCadence`;
  - InertialSpeedEstimator: `getSpeedMps`, `getEstimatedG`;
  - VelocityEstimator: `getVx`/`getVy`/`getVz`;
  - IMU: `getRawAccel*` and `getAccel*_mg`, which call `RawToMilliG` on the stored axis.
- Pedometer.Valid: the int8_t counters are never wrapped in the model. Instead the invariant
  proves they stay in range (possible steps < 8, valley timer < 50, step-to-step timer < 100,
  failures ≤ 1 between ticks and 2 only inside detection), so the firmware's narrow fields
  never overflow.
- Pedometer.RegisterStep: the stride amplitude is the signed difference `LastMax - LastMin`,
  because the types of `lastStrideAmax`/`lastStrideAmin` are not declared in `Pedometer.hpp`.
- Imu.IntegerSqrt requires a value below 2^32 - 1. At 2^32 - 1 the seed `(value + 1) >> 1`
  wraps to 0, and the loop then divides by zero. `NewtonSeed` states the wrap.
- InertialSpeed.Update: the integration clause is stated only for a non-negative sample period
  (the constructor's default is 0.02 s), although the clamp to [0, 10] holds for any period.
- PedometerProps.Run states the invariant only, not the index positions after n ticks. The
  per-tick index facts are in `Pedometer.Step`.
- PedometerProps.StepGain: the model does not rule out a tick that commits the batch of 8 and
  then drops regulation mode again. That would need a threshold flag left set by an earlier
  swing, with this swing the second consecutive threshold failure. So the lemma states that
  entering regulation adds 8, and that a gain of 8 comes only from 7 possible steps outside
  regulation. It does not state that every gain of 8 leaves regulation on.
