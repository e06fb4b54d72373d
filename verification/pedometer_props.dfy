/**
 * Properties of the Pedometer tick that relate the state before and after `update`, and
 * runs of many ticks: how the step counter moves, when regulation mode is entered and
 * left, what the peak/valley latch records, and what the timeouts reset.
 */
module PedometerProps {
  import opened Fixed
  import Ring
  import opened Pedometer

  /** Steps the counter gained over one tick, read modulo 2^32 like the uint32_t counter. */
  function Gained(s: State, r: State): int
  {
    (r.countSteps - s.countSteps) % Two32
  }

  /** The valley is latched on this tick: a peak is held and the window minimum sits at the
      centre slot. `t` is the state after the window scan (`Prepare`). */
  predicate ValleyLatched(t: State)
    requires 0 <= t.indexBuffer < WindowSize
  {
    t.flagMax && t.indexWindowMin == Center(t.indexBuffer)
  }

  /** The tick registers a step: the valley is latched, the swing `LastMax - LastMin` (in
      uint32_t) exceeds 400, and the threshold flag is set, by this swing or an earlier one. */
  predicate Registers(t: State)
    requires 0 <= t.indexBuffer < WindowSize
  {
    && ValleyLatched(t)
    && U32(t.lastMax - t.windowMin) > Sensitivity
    && (t.flagThreshold || Crosses(t.lastMax, t.windowMin, t.oldThreshold))
  }

  /** The tick's swing fails the threshold band for the second time in a row. */
  predicate FailsTwice(t: State)
    requires 0 <= t.indexBuffer < WindowSize
  {
    ValleyLatched(t) && !Crosses(t.lastMax, t.windowMin, t.oldThreshold) && t.thresholdFailures == 1
  }

  /** How the detection stage moves the counter and the regulation mode. */
  lemma DetectCounting(t: State, quarticRoot: int -> real)
    requires Valid(t)
    ensures var d := Detect(t, quarticRoot);
      && (!Registers(t) ==> d.countSteps == t.countSteps)
      && (Registers(t) && t.regulationMode ==> d.countSteps == U32(t.countSteps + 1))
      && (Registers(t) && !t.regulationMode && t.possibleSteps == BatchSize - 1
          ==> d.countSteps == U32(t.countSteps + BatchSize))
      && (Registers(t) && !t.regulationMode && t.possibleSteps < BatchSize - 1
          ==> d.countSteps == t.countSteps)
      && (!t.regulationMode && d.regulationMode
          ==> Registers(t) && t.possibleSteps == BatchSize - 1)
  {
    if t.flagMax && t.indexWindowMin == Center(t.indexBuffer) {
      var latched := LatchValley(t);
      if latched.difference > Sensitivity {
        var u := UpdateDynamicThreshold(latched);
        assert u.flagThreshold == latched.flagThreshold;
        if u.flagThreshold {
          var pre := u.(flagThreshold := false, stepToStepSamples := 0, maxMinSampleCounter := 0);
          var reg := RegisterStep(pre, quarticRoot);
          assert ProcessSwing(latched, quarticRoot) == reg;
        }
      }
    }
  }

  /** A uint32_t counter advanced by `k` has gained `k` modulo 2^32. */
  lemma GainedU32(c: int, k: int)
    requires IsUInt32(c) && 0 <= k < Two32
    ensures (U32(c + k) - c) % Two32 == k
  {
  }

  /** How the detection stage moves the step-to-step timer: a registered step restarts it,
      anything else leaves it alone. */
  lemma DetectTimer(t: State, quarticRoot: int -> real)
    requires Valid(t)
    ensures var d := Detect(t, quarticRoot);
      && (Registers(t) ==> d.stepToStepSamples == 0)
      && (!Registers(t) ==> d.stepToStepSamples == t.stepToStepSamples)
  {
    if t.flagMax && t.indexWindowMin == Center(t.indexBuffer) {
      var latched := LatchValley(t);
      if latched.difference > Sensitivity {
        var u := UpdateDynamicThreshold(latched);
        assert u.flagThreshold == latched.flagThreshold;
        assert ProcessSwing(latched, quarticRoot).stepToStepSamples
          == (if u.flagThreshold then 0 else t.stepToStepSamples);
      }
    }
  }

  /** How detection moves the threshold flag: set after a crossing swing or when already set,
      cleared by a registered step. */
  lemma DetectFlag(t: State, quarticRoot: int -> real)
    requires Valid(t)
    ensures Detect(t, quarticRoot).flagThreshold
      == (!Registers(t)
          && (t.flagThreshold || (ValleyLatched(t) && Crosses(t.lastMax, t.windowMin, t.oldThreshold))))
  {
    if ValleyLatched(t) {
      var latched := LatchValley(t);
      if latched.difference > Sensitivity {
        var u := UpdateDynamicThreshold(latched);
        assert u.flagThreshold == latched.flagThreshold;
      }
    }
  }

  /** How detection treats a held peak: the valley latch, or the valley timer. */
  lemma DetectValley(t: State, quarticRoot: int -> real)
    requires Valid(t) && t.flagMax
    ensures var d := Detect(t, quarticRoot);
      && (ValleyLatched(t)
          ==> !d.flagMax && d.lastMin == t.windowMin && d.difference == U32(t.lastMax - t.windowMin))
      && (!ValleyLatched(t)
          ==> d.lastMin == t.lastMin && d.countSteps == t.countSteps
              && (d.flagMax <==> t.maxMinSampleCounter + 1 < OneSecond)
              && (t.maxMinSampleCounter + 1 == OneSecond ==> d.possibleSteps == 0))
  {
    if ValleyLatched(t) {
      var latched := LatchValley(t);
      if latched.difference > Sensitivity {
        var u := UpdateDynamicThreshold(latched);
        assert ProcessSwing(latched, quarticRoot).lastMin == latched.lastMin;
        assert ProcessSwing(latched, quarticRoot).difference == latched.difference;
      }
    }
  }

  /** How one tick moves the counter. A tick that registers no step adds nothing; a
      registered step adds 1 in regulation mode, commits the batch of 8 when it is the eighth
      possible step, and otherwise only adds to the possible steps. Regulation mode is entered
      only by committing that batch. */
  lemma StepCounting(s: State, a: Sample, quarticRoot: int -> real)
    requires Valid(s) && IsInt16Sample(a)
    ensures var t := Prepare(s, a); var r := Step(s, a, quarticRoot);
      && (!Registers(t) ==> r.countSteps == s.countSteps)
      && (Registers(t) && s.regulationMode ==> r.countSteps == U32(s.countSteps + 1))
      && (Registers(t) && !s.regulationMode && s.possibleSteps == BatchSize - 1
          ==> r.countSteps == U32(s.countSteps + BatchSize))
      && (Registers(t) && !s.regulationMode && s.possibleSteps < BatchSize - 1
          ==> r.countSteps == s.countSteps)
      && (!s.regulationMode && r.regulationMode
          ==> Registers(t) && s.possibleSteps == BatchSize - 1)
  {
    var t := Prepare(s, a);
    DetectCounting(t, quarticRoot);
  }

  /** The counter gains exactly 0, 1 or 8 per tick (modulo 2^32): 8 only from a non-regulated
      state holding 7 possible steps, 1 only in regulation mode, and either only on a tick
      that registers a step. */
  lemma StepGain(s: State, a: Sample, quarticRoot: int -> real)
    requires Valid(s) && IsInt16Sample(a)
    ensures var r := Step(s, a, quarticRoot); var g := Gained(s, r);
      && (g == 0 || g == 1 || g == BatchSize)
      && r.countSteps == U32(s.countSteps + g)
      && (g == BatchSize ==> !s.regulationMode && s.possibleSteps == BatchSize - 1)
      && (g == 1 ==> s.regulationMode)
      && (g > 0 ==> Registers(Prepare(s, a)))
      && (!s.regulationMode && r.regulationMode ==> g == BatchSize)
  {
    StepCounting(s, a, quarticRoot);
    var r := Step(s, a, quarticRoot);
    GainCases(s.countSteps, r.countSteps, Registers(Prepare(s, a)), s.regulationMode,
              r.regulationMode, s.possibleSteps);
  }

  /** The counting facts of `StepCounting`, read as a gain modulo 2^32. */
  lemma GainCases(c: int, c': int, registers: bool, regulated: bool, regulated': bool, possible: int)
    requires IsUInt32(c) && possible <= BatchSize - 1
    requires !registers ==> c' == c
    requires registers && regulated ==> c' == U32(c + 1)
    requires registers && !regulated && possible == BatchSize - 1 ==> c' == U32(c + BatchSize)
    requires registers && !regulated && possible < BatchSize - 1 ==> c' == c
    requires !regulated && regulated' ==> registers && possible == BatchSize - 1
    ensures var g := (c' - c) % Two32;
      && (g == 0 || g == 1 || g == BatchSize)
      && c' == U32(c + g)
      && (g == BatchSize ==> !regulated && possible == BatchSize - 1)
      && (g == 1 ==> regulated)
      && (g > 0 ==> registers)
      && (!regulated && regulated' ==> g == BatchSize)
  {
    if !registers || (!regulated && possible < BatchSize - 1) {
      GainedU32(c, 0);
    } else if regulated {
      GainedU32(c, 1);
    } else {
      GainedU32(c, BatchSize);
    }
  }

  /** Away from the uint32_t limit the step count never decreases. */
  lemma CountNeverDecreases(s: State, a: Sample, quarticRoot: int -> real)
    requires Valid(s) && IsInt16Sample(a)
    requires s.countSteps + BatchSize < Two32
    ensures s.countSteps <= Step(s, a, quarticRoot).countSteps <= s.countSteps + BatchSize
  {
    StepCounting(s, a, quarticRoot);
  }

  /** Each tick writes the new filtered value into the window, so the peak test sees the
      window after insertion; a peak is latched exactly when the window maximum (its lowest
      index) sits at the centre slot, 9 slots behind the write slot. */
  lemma PeakLatchedAtCenter(s: State, a: Sample, quarticRoot: int -> real)
    requires Valid(s) && IsInt16Sample(a) && !s.flagMax
    ensures var t := Prepare(s, a); var r := Step(s, a, quarticRoot); var c := Center(s.indexBuffer);
      && (r.flagMax <==> t.indexWindowMax == c)
      && (r.flagMax ==> IsFirstMax(r.window, c) && r.lastMax == r.window[c])
      && (!r.flagMax ==> r.lastMax == s.lastMax)
  {
  }

  /** While seeking a peak there is no timeout: the valley timer and the possible steps are
      left alone, except that a latch restarts the timer and the 2 s regulation timeout may
      clear both. */
  lemma NoTimeoutWhileSeekingPeak(s: State, a: Sample, quarticRoot: int -> real)
    requires Valid(s) && IsInt16Sample(a) && !s.flagMax
    ensures var r := Step(s, a, quarticRoot);
      && (r.maxMinSampleCounter == s.maxMinSampleCounter || r.maxMinSampleCounter == 0)
      && (s.stepToStepSamples + 1 < RegOffTime ==> r.possibleSteps == s.possibleSteps)
      && r.countSteps == s.countSteps
  {
  }

  /** Once a peak is held, the valley is latched when the window minimum (its lowest index)
      reaches the centre slot, and `Difference` is the uint32_t difference of peak and valley.
      Otherwise the valley timer counts, and on its 50th tick the peak is abandoned. */
  lemma ValleyLatchedAtCenter(s: State, a: Sample, quarticRoot: int -> real)
    requires Valid(s) && IsInt16Sample(a) && s.flagMax
    ensures var t := Prepare(s, a); var r := Step(s, a, quarticRoot); var c := Center(s.indexBuffer);
      && (t.indexWindowMin == c
          ==> !r.flagMax && IsFirstMin(r.window, c) && r.lastMin == r.window[c]
              && r.difference == U32(s.lastMax - r.lastMin))
      && (t.indexWindowMin != c
          ==> r.lastMin == s.lastMin && (r.flagMax <==> s.maxMinSampleCounter + 1 < OneSecond))
      && (t.indexWindowMin != c && s.maxMinSampleCounter + 1 == OneSecond
          ==> r.possibleSteps == 0 && r.countSteps == s.countSteps)
  {
    DetectValley(Prepare(s, a), quarticRoot);
  }

  /** The threshold flag is set by a crossing swing and cleared only by registering a step:
      after a tick it is set exactly when it was set before or the latched swing crossed the
      band, and no step was registered. So a crossing swing of at most 400 leaves it set for a
      later, wider swing to use. */
  lemma ThresholdFlag(s: State, a: Sample, quarticRoot: int -> real)
    requires Valid(s) && IsInt16Sample(a)
    ensures var t := Prepare(s, a); var r := Step(s, a, quarticRoot);
      r.flagThreshold
        == (!Registers(t)
            && (s.flagThreshold || (ValleyLatched(t) && Crosses(t.lastMax, t.windowMin, t.oldThreshold))))
  {
    DetectFlag(Prepare(s, a), quarticRoot);
  }

  /** `StepToStepSamples` counts the ticks since the last registered step, wrapping to 0 when
      the 2 s regulation timeout fires. */
  lemma StepToStepCounts(s: State, a: Sample, quarticRoot: int -> real)
    requires Valid(s) && IsInt16Sample(a)
    ensures var r := Step(s, a, quarticRoot);
      && (Registers(Prepare(s, a)) ==> r.stepToStepSamples == 1)
      && (!Registers(Prepare(s, a)) ==> r.stepToStepSamples == (s.stepToStepSamples + 1) % RegOffTime)
  {
    var t := Prepare(s, a);
    DetectTimer(t, quarticRoot);
  }

  /** After 99 ticks without a registered step, a 100th leaves regulation mode, clears the
      possible steps and, unless the same tick already dropped regulation after two threshold
      failures, restores the initial threshold ring of four 4000s. */
  lemma RegulationIdleExit(s: State, a: Sample, quarticRoot: int -> real)
    requires Valid(s) && IsInt16Sample(a)
    requires s.regulationMode && s.stepToStepSamples == RegOffTime - 1
    requires !Registers(Prepare(s, a))
    ensures var r := Step(s, a, quarticRoot);
      && !r.regulationMode && r.possibleSteps == 0 && r.stepToStepSamples == 0
      && (!FailsTwice(Prepare(s, a))
          ==> r.thresholds == Ring.Fill(ThresholdOrder, InitOffsetValue)
              && r.oldThreshold == InitOffsetValue && r.indexThreshold == 0)
  {
    StepToStepCounts(s, a, quarticRoot);
    var t := Prepare(s, a);
    DetectCounting(t, quarticRoot);
    if ValleyLatched(t) {
      var latched := LatchValley(t);
      if latched.difference > Sensitivity {
        var u := UpdateDynamicThreshold(latched);
        assert u.flagThreshold == latched.flagThreshold;
      }
    }
  }

  /** A second consecutive threshold failure drops regulation mode and the possible steps and
      resets the failure counter; the threshold ring is only touched by the swing's own update
      (when it exceeds 400), never reset. */
  lemma SecondFailureDropsRegulation(s: State, a: Sample, quarticRoot: int -> real)
    requires Valid(s) && IsInt16Sample(a) && FailsTwice(Prepare(s, a))
    ensures var t := Prepare(s, a); var r := Step(s, a, quarticRoot);
      && !r.regulationMode && r.possibleSteps == 0 && r.thresholdFailures == 0
      && (U32(t.lastMax - t.windowMin) <= Sensitivity
          ==> r.thresholds == s.thresholds && r.oldThreshold == s.oldThreshold)
  {
  }

  /** How detection moves the adaptive threshold: a latched swing wider than 400 writes its
      midpoint over the oldest entry and the operating threshold becomes the ring's mean;
      every other tick leaves the ring, its write slot and the operating threshold alone. */
  lemma DetectThreshold(t: State, quarticRoot: int -> real)
    requires Valid(t)
    ensures var d := Detect(t, quarticRoot);
      && (ValleyLatched(t) && U32(t.lastMax - t.windowMin) > Sensitivity
          ==> d.thresholds == t.thresholds[t.indexThreshold := (t.lastMax + t.windowMin) / 2]
              && d.oldThreshold == Ring.Sum(d.thresholds) / ThresholdOrder
              && d.indexThreshold == (t.indexThreshold + 1) % ThresholdOrder)
      && (!(ValleyLatched(t) && U32(t.lastMax - t.windowMin) > Sensitivity)
          ==> d.thresholds == t.thresholds && d.oldThreshold == t.oldThreshold
              && d.indexThreshold == t.indexThreshold)
  {
    if ValleyLatched(t) {
      var latched := LatchValley(t);
      if latched.difference > Sensitivity {
        var swung := ProcessSwing(latched, quarticRoot);
        assert swung.thresholds == t.thresholds[t.indexThreshold := (t.lastMax + t.windowMin) / 2];
      }
    }
  }

  /** With a quartic root that never goes negative, detection never shortens the distance. */
  lemma DetectDistance(t: State, quarticRoot: int -> real)
    requires Valid(t) && NonNegativeRoot(quarticRoot)
    ensures Detect(t, quarticRoot).totalDistance >= t.totalDistance
  {
    if t.flagMax && t.indexWindowMin == Center(t.indexBuffer) {
      var latched := LatchValley(t);
      if latched.difference > Sensitivity {
        var u := UpdateDynamicThreshold(latched);
        if u.flagThreshold {
          var pre := u.(flagThreshold := false, stepToStepSamples := 0, maxMinSampleCounter := 0);
          assert ProcessSwing(latched, quarticRoot) == RegisterStep(pre, quarticRoot);
        }
      }
    }
  }

  /** `update` applied to each sample of `xs` in turn. */
  function Run(s: State, xs: seq<Sample>, quarticRoot: int -> real): (r: State)
    requires Valid(s) && forall i :: 0 <= i < |xs| ==> IsInt16Sample(xs[i])
    ensures Valid(r)
    decreases |xs|
  {
    if xs == [] then s
    else Run(Step(s, xs[0], quarticRoot), xs[1..], quarticRoot)
  }

  /** Away from the uint32_t limit, a run of `n` ticks never lowers the count and raises it
      by at most 8 per tick. */
  lemma {:induction false} RunCountBounded(s: State, xs: seq<Sample>, quarticRoot: int -> real)
    requires Valid(s) && forall i :: 0 <= i < |xs| ==> IsInt16Sample(xs[i])
    requires s.countSteps + BatchSize * |xs| < Two32
    ensures s.countSteps <= Run(s, xs, quarticRoot).countSteps <= s.countSteps + BatchSize * |xs|
    decreases |xs|
  {
    if xs != [] {
      var s1 := Step(s, xs[0], quarticRoot);
      CountNeverDecreases(s, xs[0], quarticRoot);
      RunCountBounded(s1, xs[1..], quarticRoot);
    }
  }

  /** With a quartic root that never goes negative, the total distance never decreases over
      a run. */
  lemma {:induction false} RunDistanceGrows(s: State, xs: seq<Sample>, quarticRoot: int -> real)
    requires Valid(s) && forall i :: 0 <= i < |xs| ==> IsInt16Sample(xs[i])
    requires NonNegativeRoot(quarticRoot)
    ensures Run(s, xs, quarticRoot).totalDistance >= s.totalDistance
    decreases |xs|
  {
    if xs != [] {
      var s1 := Step(s, xs[0], quarticRoot);
      DetectDistance(Prepare(s, xs[0]), quarticRoot);
      RunDistanceGrows(s1, xs[1..], quarticRoot);
    }
  }

  /** A fresh pedometer fed any run of samples still satisfies the state invariant and, for
      fewer than 2^29 ticks, counts at most 8 steps per tick. */
  lemma RunFromInit(xs: seq<Sample>, quarticRoot: int -> real)
    requires forall i :: 0 <= i < |xs| ==> IsInt16Sample(xs[i])
    requires |xs| < 0x2000_0000
    ensures var r := Run(Init(), xs, quarticRoot);
      Valid(r) && 0 <= r.countSteps <= BatchSize * |xs|
  {
    RunCountBounded(Init(), xs, quarticRoot);
  }
}
