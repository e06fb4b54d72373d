/**
 * The Pedometer step detector: an integer state machine run once per accelerometer tick
 * (50 Hz). Each tick computes a magnitude, feeds a 4-tap moving average, scans a 17-slot
 * window of filtered values for its extremes, latches a peak and then a valley once each
 * sits at the centre of the window, keeps a 4-slot adaptive threshold of swing midpoints,
 * and debounces steps: 8 possible steps are committed as one batch, after which each step
 * counts at once ("regulation mode") until 2 s pass without one.
 *
 * The state is an immutable record; `Step` is `Pedometer::update`. Flags that the firmware
 * keeps in int8_t/uint8_t fields and only ever sets to 0 or 1 are booleans here.
 */
module Pedometer {
  import opened Fixed
  import Ring

  const ThresholdOrder: int := 4
  const FilterOrder: int := 4
  const WindowSize: int := FilterOrder * 4 + 1
  const Sensitivity: int := 400
  const InitOffsetValue: int := 4000
  const InitValueMin: int := 0
  /** Ticks per second at the 50 Hz output data rate. */
  const OneSecond: int := 50
  const RegOffTime: int := OneSecond * 2
  /** Possible steps committed together when regulation mode starts. */
  const BatchSize: int := 8
  /** Largest magnitude: three absolute int16_t values. */
  const MaxModule: int := 3 * 0x8000

  datatype State = State(
    rawData: seq<int>,          // buffer_RawData: the moving-average ring of magnitudes
    window: seq<int>,           // buffer_filtered_window: the last 17 filtered values
    thresholds: seq<int>,       // buffer_dynamic_threshold: the last 4 swing midpoints
    countSteps: int,            // count_steps (uint32_t)
    indexWindowMin: int,
    indexWindowMax: int,
    indexThreshold: int,
    indexBuffer: int,           // write slot of the window ring
    indexAverage: int,          // write slot of the moving-average ring
    stepToStepSamples: int,     // ticks since the last registered step
    regulationMode: bool,       // Regulation_mode
    maxMinSampleCounter: int,   // flag_max_min_samplecounter: ticks spent seeking a valley
    possibleSteps: int,
    flagMax: bool,              // a peak is latched; seeking the valley
    flagThreshold: bool,
    thresholdFailures: int,     // flag_threshold_counter
    lastMax: int,
    lastMin: int,
    windowMin: int,
    windowMax: int,
    filterMeanBuffer: int,      // sum of the moving-average ring
    filterModuleData: int,      // the newest filtered value
    moduleData: int,            // the newest magnitude
    difference: int,            // LastMax - LastMin as uint32_t
    thresholdSum: int,          // BufferDinamicThreshold: sum of the threshold ring
    newThreshold: int,
    oldThreshold: int,          // the operating threshold: thresholdSum / 4
    lastStrideAmax: int,
    lastStrideAmin: int,
    strideLength: real,
    totalDistance: real)

  /** Every element lies in [0, MaxModule]. */
  predicate InRange(xs: seq<int>)
  {
    forall i :: 0 <= i < |xs| ==> 0 <= xs[i] <= MaxModule
  }

  /** The rings, their running sums and every index and stored sample value are in shape. */
  ghost predicate Rings(s: State)
  {
    && |s.rawData| == FilterOrder && |s.window| == WindowSize && |s.thresholds| == ThresholdOrder
    && InRange(s.rawData) && InRange(s.window) && InRange(s.thresholds)
    && s.filterMeanBuffer == Ring.Sum(s.rawData)
    && s.filterModuleData == s.filterMeanBuffer / FilterOrder
    && s.thresholdSum == Ring.Sum(s.thresholds)
    && s.oldThreshold == s.thresholdSum / ThresholdOrder
    && 0 <= s.indexAverage < FilterOrder
    && 0 <= s.indexBuffer < WindowSize
    && 0 <= s.indexThreshold < ThresholdOrder
    && 0 <= s.indexWindowMax < WindowSize && 0 <= s.indexWindowMin < WindowSize
    && 0 <= s.moduleData <= MaxModule
    && 0 <= s.windowMax <= MaxModule && 0 <= s.windowMin <= MaxModule
    && 0 <= s.lastMax <= MaxModule && 0 <= s.lastMin <= MaxModule
    && 0 <= s.newThreshold <= MaxModule
    && IsUInt32(s.difference)
  }

  /** The counters stay inside the ranges that keep their int8_t/uint8_t/uint32_t fields exact;
      the threshold-failure counter may reach `maxFailures`. */
  ghost predicate Counters(s: State, maxFailures: int)
  {
    && IsUInt32(s.countSteps)
    && 0 <= s.possibleSteps < BatchSize
    && (s.regulationMode ==> s.possibleSteps == 0)
    && 0 <= s.maxMinSampleCounter < OneSecond
    && 0 <= s.stepToStepSamples < RegOffTime
    && 0 <= s.thresholdFailures <= maxFailures
  }

  /** The invariant of every state `reset` and `update` produce. */
  ghost predicate Valid(s: State)
  {
    Rings(s) && Counters(s, 1)
  }

  /** Between latching a valley and settling the failure counter, that counter may be 2. */
  ghost predicate Interim(s: State)
  {
    Rings(s) && Counters(s, 2)
  }

  /** `reset()`, which the constructor also runs: empty filter rings and a threshold ring
      refilled with the initial offset 4000, not 0. */
  function Init(): (s: State)
    ensures Valid(s)
    ensures s.countSteps == 0 && !s.regulationMode && s.possibleSteps == 0
    ensures s.oldThreshold == InitOffsetValue && s.filterModuleData == 0
    ensures s.thresholds == Ring.Fill(ThresholdOrder, InitOffsetValue)
    ensures s.rawData == Ring.Fill(FilterOrder, 0) && s.window == Ring.Fill(WindowSize, 0)
    ensures !s.flagMax && !s.flagThreshold
    ensures s.totalDistance == 0.0 && s.strideLength == 0.0
    ensures s.indexWindowMin == 0 && s.indexWindowMax == 0 && s.indexThreshold == 0
    ensures s.indexBuffer == 0 && s.indexAverage == 0
    ensures s.stepToStepSamples == 0 && s.maxMinSampleCounter == 0 && s.thresholdFailures == 0
    ensures s.lastMax == 0 && s.lastMin == 0 && s.windowMax == 0 && s.windowMin == InitValueMin
    ensures s.moduleData == 0 && s.filterMeanBuffer == 0 && s.difference == 0 && s.newThreshold == 0
    ensures s.lastStrideAmax == 0 && s.lastStrideAmin == 0
  {
    var raw := Ring.Fill(FilterOrder, 0);
    var window := Ring.Fill(WindowSize, 0);
    var thresholds := Ring.Fill(ThresholdOrder, InitOffsetValue);
    assert InRange(raw) && InRange(window) && InRange(thresholds);
    assert Ring.Sum(thresholds) == InitOffsetValue * ThresholdOrder;
    assert Ring.Sum(raw) == 0;
    var s := State(
      rawData := raw,
      window := window,
      thresholds := thresholds,
      countSteps := 0,
      indexWindowMin := 0, indexWindowMax := 0,
      indexThreshold := 0, indexBuffer := 0, indexAverage := 0,
      stepToStepSamples := 0, regulationMode := false,
      maxMinSampleCounter := 0, possibleSteps := 0,
      flagMax := false, flagThreshold := false, thresholdFailures := 0,
      lastMax := 0, lastMin := 0, windowMin := InitValueMin, windowMax := 0,
      filterMeanBuffer := 0, filterModuleData := 0, moduleData := 0,
      difference := 0, thresholdSum := InitOffsetValue * ThresholdOrder,
      newThreshold := 0, oldThreshold := InitOffsetValue,
      lastStrideAmax := 0, lastStrideAmin := 0,
      strideLength := 0.0, totalDistance := 0.0);
    assert Rings(s);
    s
  }

  // ---------------------------------------------------------------------------
  // Magnitude and moving average
  // ---------------------------------------------------------------------------

  /** One axis of `computeModuleData`: the gain of 4 is stored back into an int16_t (so it
      wraps beyond ±8191) and its absolute value taken as a uint16_t. */
  function ScaledAbs(v: int): (m: int)
    requires IsInt16(v)
    ensures 0 <= m <= 0x8000
    ensures -8191 <= v <= 8191 ==> m == 4 * Abs(v)
  {
    var g := I16(v * 4);
    if g < 0 then -g else g
  }

  /** `computeModuleData`: the sum of the three scaled absolute axes, which for axes within
      ±8191 is four times the L1 norm of the sample. */
  function ComputeModuleData(a: Sample): (m: int)
    requires IsInt16Sample(a)
    ensures 0 <= m <= MaxModule
    ensures -8191 <= a.x <= 8191 && -8191 <= a.y <= 8191 && -8191 <= a.z <= 8191
      ==> m == 4 * (Abs(a.x) + Abs(a.y) + Abs(a.z))
  {
    ScaledAbs(a.x) + ScaledAbs(a.y) + ScaledAbs(a.z)
  }

  /** `applyFilter`: the newest magnitude replaces the oldest in the 4-slot ring, the running
      sum is updated incrementally in uint32_t, and the window receives the ring's mean. */
  function ApplyFilter(s: State): (r: State)
    requires Valid(s)
    ensures Valid(r)
    ensures r.rawData == s.rawData[s.indexAverage := s.moduleData]
    ensures r.filterModuleData == Ring.Sum(r.rawData) / FilterOrder
    ensures r.window == s.window[s.indexBuffer := r.filterModuleData]
    ensures r == s.(rawData := r.rawData, window := r.window,
                    filterMeanBuffer := r.filterMeanBuffer, filterModuleData := r.filterModuleData)
  {
    var raw := s.rawData[s.indexAverage := s.moduleData];
    Ring.SumUpdate(s.rawData, s.indexAverage, s.moduleData);
    Ring.SumBounds(raw, MaxModule);
    var mean := U32(s.filterMeanBuffer - s.rawData[s.indexAverage] + s.moduleData);
    var filtered := mean / FilterOrder;
    s.(rawData := raw, filterMeanBuffer := mean, filterModuleData := filtered,
       window := s.window[s.indexBuffer := filtered])
  }

  // ---------------------------------------------------------------------------
  // Window scan
  // ---------------------------------------------------------------------------

  /** `k` is the lowest index holding the largest element of `w`. */
  predicate IsFirstMax(w: seq<int>, k: int)
  {
    && 0 <= k < |w|
    && (forall j :: 0 <= j < |w| ==> w[j] <= w[k])
    && (forall j :: 0 <= j < k ==> w[j] < w[k])
  }

  /** `k` is the lowest index holding the smallest element of `w`. */
  predicate IsFirstMin(w: seq<int>, k: int)
  {
    && 0 <= k < |w|
    && (forall j :: 0 <= j < |w| ==> w[k] <= w[j])
    && (forall j :: 0 <= j < k ==> w[k] < w[j])
  }

  /** The loop of `findWindowMaximum` from slot `i` on, with `k` the best slot so far; only a
      strictly larger value moves the best slot. */
  function ScanMax(w: seq<int>, i: int, k: int): (m: int)
    requires 0 <= k < i <= |w|
    requires forall j :: 0 <= j < i ==> w[j] <= w[k]
    requires forall j :: 0 <= j < k ==> w[j] < w[k]
    ensures IsFirstMax(w, m)
    decreases |w| - i
  {
    if i == |w| then k
    else if w[i] > w[k] then ScanMax(w, i + 1, i)
    else ScanMax(w, i + 1, k)
  }

  /** The loop of `findWindowMinimum` from slot `i` on; only a strictly smaller value moves
      the best slot. */
  function ScanMin(w: seq<int>, i: int, k: int): (m: int)
    requires 0 <= k < i <= |w|
    requires forall j :: 0 <= j < i ==> w[k] <= w[j]
    requires forall j :: 0 <= j < k ==> w[k] < w[j]
    ensures IsFirstMin(w, m)
    decreases |w| - i
  {
    if i == |w| then k
    else if w[i] < w[k] then ScanMin(w, i + 1, i)
    else ScanMin(w, i + 1, k)
  }

  /** `findWindowMaximum` and `findWindowMinimum`: record the value and the lowest index of
      the window's largest and smallest filtered values. */
  function FindWindowExtremes(s: State): (r: State)
    requires Valid(s)
    ensures Valid(r)
    ensures IsFirstMax(r.window, r.indexWindowMax) && r.windowMax == r.window[r.indexWindowMax]
    ensures IsFirstMin(r.window, r.indexWindowMin) && r.windowMin == r.window[r.indexWindowMin]
    ensures r == s.(indexWindowMax := r.indexWindowMax, windowMax := r.windowMax,
                    indexWindowMin := r.indexWindowMin, windowMin := r.windowMin)
  {
    var iMax := ScanMax(s.window, 1, 0);
    var iMin := ScanMin(s.window, 1, 0);
    s.(indexWindowMax := iMax, windowMax := s.window[iMax],
       indexWindowMin := iMin, windowMin := s.window[iMin])
  }

  /** Magnitude, moving average and window scan: the part of `update` before detection. */
  function Prepare(s: State, a: Sample): (t: State)
    requires Valid(s) && IsInt16Sample(a)
    ensures Valid(t)
    ensures IsFirstMax(t.window, t.indexWindowMax) && t.windowMax == t.window[t.indexWindowMax]
    ensures IsFirstMin(t.window, t.indexWindowMin) && t.windowMin == t.window[t.indexWindowMin]
    ensures t.window == s.window[s.indexBuffer := t.filterModuleData]
    ensures t == s.(moduleData := t.moduleData, rawData := t.rawData, window := t.window,
                    filterMeanBuffer := t.filterMeanBuffer, filterModuleData := t.filterModuleData,
                    indexWindowMax := t.indexWindowMax, windowMax := t.windowMax,
                    indexWindowMin := t.indexWindowMin, windowMin := t.windowMin)
  {
    FindWindowExtremes(ApplyFilter(s.(moduleData := ComputeModuleData(a))))
  }

  // ---------------------------------------------------------------------------
  // Peak and valley detection
  // ---------------------------------------------------------------------------

  /** The window slot 9 ticks behind the write slot, which holds the newest value: the window
      then has 7 values older than the centre and 9 newer, the current one included. */
  function Center(indexBuffer: int): (c: int)
    requires 0 <= indexBuffer < WindowSize
    ensures 0 <= c < WindowSize
    ensures (c + WindowSize / 2 + 1) % WindowSize == indexBuffer
  {
    (indexBuffer + WindowSize / 2) % WindowSize
  }

  /** The swing crosses the threshold band: the peak is above `threshold + 200` and the valley
      below `threshold - 200`, both computed in uint32_t, so a threshold under 200 makes the
      lower bound wrap to a huge value that every valley is below. */
  function Crosses(lastMax: int, lastMin: int, threshold: int): (c: bool)
    // With a threshold of at least 200 the test is the plain band test.
    ensures Sensitivity / 2 <= threshold && threshold + Sensitivity / 2 < Two32
      ==> (c <==> lastMax > threshold + Sensitivity / 2 && lastMin < threshold - Sensitivity / 2)
    // Below 200 the lower bound wraps, and only the peak is tested for any 32-bit valley.
    ensures 0 <= threshold < Sensitivity / 2 && lastMin < Two32 - Sensitivity / 2
      ==> (c <==> lastMax > threshold + Sensitivity / 2)
  {
    lastMax > U32(threshold + Sensitivity / 2) && lastMin < U32(threshold - Sensitivity / 2)
  }

  /** `handleMaxDetection`: latch the window maximum once it sits at the centre slot. There is
      no timeout while seeking a peak: otherwise the state is unchanged. */
  function HandleMaxDetection(s: State): (r: State)
    requires Valid(s)
    ensures Valid(r)
    ensures r.flagMax <==> s.flagMax || s.indexWindowMax == Center(s.indexBuffer)
    ensures s.indexWindowMax == Center(s.indexBuffer)
      ==> r == s.(flagMax := true, lastMax := s.windowMax, maxMinSampleCounter := 0)
    ensures s.indexWindowMax != Center(s.indexBuffer) ==> r == s
  {
    if s.indexWindowMax == Center(s.indexBuffer) then
      s.(flagMax := true, lastMax := s.windowMax, maxMinSampleCounter := 0)
    else
      s
  }

  /** `updateDynamicThreshold`: the midpoint of the swing replaces the oldest entry of the
      threshold ring, and the operating threshold becomes the ring's mean. */
  function UpdateDynamicThreshold(s: State): (r: State)
    requires Rings(s)
    ensures Rings(r)
    ensures r.newThreshold == (s.lastMax + s.lastMin) / 2
    ensures r.thresholds == s.thresholds[s.indexThreshold := r.newThreshold]
    ensures r.oldThreshold == Ring.Sum(r.thresholds) / ThresholdOrder
    ensures r.indexThreshold == (s.indexThreshold + 1) % ThresholdOrder
    ensures r == s.(newThreshold := r.newThreshold, thresholds := r.thresholds,
                    thresholdSum := r.thresholdSum, oldThreshold := r.oldThreshold,
                    indexThreshold := r.indexThreshold)
  {
    var midpoint := U32(s.lastMax + s.lastMin) / 2;
    var ring := s.thresholds[s.indexThreshold := midpoint];
    Ring.SumUpdate(s.thresholds, s.indexThreshold, midpoint);
    Ring.SumBounds(ring, MaxModule);
    var sum := U32(s.thresholdSum - s.thresholds[s.indexThreshold] + midpoint);
    s.(newThreshold := midpoint, thresholdSum := sum, oldThreshold := sum / ThresholdOrder,
       thresholds := ring, indexThreshold := Ring.Advance(s.indexThreshold, ThresholdOrder))
  }

  /** `calculateStrideLength`. The two IEEE square roots `sqrtf(16 * sqrtf(raw))` are not
      computed: `quarticRoot(raw)` stands for them. A non-positive amplitude gives 0. */
  function StrideLength(raw: int, quarticRoot: int -> real): (len: real)
    ensures raw <= 0 ==> len == 0.0
    ensures raw > 0 ==> len * (3.0 * 48.0 * 2.093) == quarticRoot(raw) * 7.0
  {
    if raw <= 0 then 0.0 else quarticRoot(raw) / 3.0 * 7.0 / 48.0 / 2.093
  }

  /** The stand-in for the square roots never returns a negative length. */
  ghost predicate NonNegativeRoot(quarticRoot: int -> real)
  {
    forall n: int :: n > 0 ==> quarticRoot(n) >= 0.0
  }

  /** `registerStep`: while not regulated, possible steps accumulate and the eighth commits all
      8 at once (with 8 times the current stride) and enters regulation mode; while regulated
      each step counts immediately. */
  function RegisterStep(s: State, quarticRoot: int -> real): (r: State)
    requires 0 <= s.possibleSteps < BatchSize && (s.regulationMode ==> s.possibleSteps == 0)
    ensures 0 <= r.possibleSteps < BatchSize && (r.regulationMode ==> r.possibleSteps == 0)
    ensures s.regulationMode ==> r.regulationMode && r.countSteps == U32(s.countSteps + 1)
    ensures !s.regulationMode && s.possibleSteps == BatchSize - 1
      ==> r.regulationMode && r.possibleSteps == 0 && r.countSteps == U32(s.countSteps + BatchSize)
    ensures !s.regulationMode && s.possibleSteps < BatchSize - 1
      ==> !r.regulationMode && r.possibleSteps == s.possibleSteps + 1 && r.countSteps == s.countSteps
    ensures r.strideLength == StrideLength(s.lastMax - s.lastMin, quarticRoot)
    ensures NonNegativeRoot(quarticRoot) ==> r.totalDistance >= s.totalDistance
    // In regulation one stride is added; the batch adds 8 times the current stride, not the
    // eight strides of the batch; an uncommitted possible step adds nothing.
    ensures s.regulationMode ==> r.totalDistance == s.totalDistance + r.strideLength
    ensures !s.regulationMode && s.possibleSteps == BatchSize - 1
      ==> r.totalDistance == s.totalDistance + 8.0 * r.strideLength
    ensures !s.regulationMode && s.possibleSteps < BatchSize - 1 ==> r.totalDistance == s.totalDistance
    ensures r.lastStrideAmax == s.lastMax && r.lastStrideAmin == s.lastMin
    ensures r == s.(lastStrideAmax := r.lastStrideAmax, lastStrideAmin := r.lastStrideAmin,
                    strideLength := r.strideLength, countSteps := r.countSteps,
                    totalDistance := r.totalDistance, possibleSteps := r.possibleSteps,
                    regulationMode := r.regulationMode)
  {
    var raw := s.lastMax - s.lastMin;
    var stride := StrideLength(raw, quarticRoot);
    var t := s.(lastStrideAmax := s.lastMax, lastStrideAmin := s.lastMin, strideLength := stride);
    if t.regulationMode then
      t.(countSteps := U32(t.countSteps + 1), totalDistance := t.totalDistance + stride)
    else if t.possibleSteps + 1 == BatchSize then
      t.(countSteps := U32(t.countSteps + BatchSize),
         totalDistance := t.totalDistance + stride * BatchSize as real,
         possibleSteps := 0, regulationMode := true)
    else
      t.(possibleSteps := t.possibleSteps + 1)
  }

  /** The swing is large enough (`Difference > 400`): update the threshold, and register a
      step if the threshold flag is set, restarting the step-to-step and valley timers. */
  function ProcessSwing(s: State, quarticRoot: int -> real): (r: State)
    requires Interim(s)
    ensures Interim(r)
    ensures r.thresholdFailures == s.thresholdFailures && r.flagMax == s.flagMax
    ensures r.indexBuffer == s.indexBuffer && r.indexAverage == s.indexAverage && r.window == s.window
    ensures !r.flagThreshold
    // The swing's midpoint replaces the oldest threshold and the operating threshold is the
    // ring's new mean.
    ensures r.thresholds == s.thresholds[s.indexThreshold := (s.lastMax + s.lastMin) / 2]
    ensures r.oldThreshold == Ring.Sum(r.thresholds) / ThresholdOrder
    ensures r.indexThreshold == (s.indexThreshold + 1) % ThresholdOrder
    ensures s.flagThreshold ==> r.stepToStepSamples == 0 && r.maxMinSampleCounter == 0
    // A set flag registers a step: the stride of this swing, then counting and distance as
    // the regulation debouncer decides.
    ensures s.flagThreshold ==> r.strideLength == StrideLength(s.lastMax - s.lastMin, quarticRoot)
    ensures s.flagThreshold && s.regulationMode
      ==> r.regulationMode && r.countSteps == U32(s.countSteps + 1)
          && r.totalDistance == s.totalDistance + r.strideLength
    ensures s.flagThreshold && !s.regulationMode && s.possibleSteps == BatchSize - 1
      ==> r.regulationMode && r.possibleSteps == 0 && r.countSteps == U32(s.countSteps + BatchSize)
          && r.totalDistance == s.totalDistance + 8.0 * r.strideLength
    ensures s.flagThreshold && !s.regulationMode && s.possibleSteps < BatchSize - 1
      ==> !r.regulationMode && r.possibleSteps == s.possibleSteps + 1
          && r.countSteps == s.countSteps && r.totalDistance == s.totalDistance
    ensures !s.flagThreshold
      ==> (r.countSteps == s.countSteps && r.possibleSteps == s.possibleSteps
           && r.regulationMode == s.regulationMode && r.stepToStepSamples == s.stepToStepSamples
           && r.maxMinSampleCounter == s.maxMinSampleCounter
           && r.totalDistance == s.totalDistance && r.strideLength == s.strideLength)
    ensures r == s.(newThreshold := r.newThreshold, thresholds := r.thresholds,
                    thresholdSum := r.thresholdSum, oldThreshold := r.oldThreshold,
                    indexThreshold := r.indexThreshold, flagThreshold := false,
                    stepToStepSamples := r.stepToStepSamples,
                    maxMinSampleCounter := r.maxMinSampleCounter,
                    lastStrideAmax := r.lastStrideAmax, lastStrideAmin := r.lastStrideAmin,
                    strideLength := r.strideLength, countSteps := r.countSteps,
                    totalDistance := r.totalDistance, possibleSteps := r.possibleSteps,
                    regulationMode := r.regulationMode)
  {
    var t := UpdateDynamicThreshold(s);
    if t.flagThreshold then
      RegisterStep(t.(flagThreshold := false, stepToStepSamples := 0, maxMinSampleCounter := 0), quarticRoot)
    else
      t
  }

  /** `handleMaxMinTimeout`: a valley not confirmed within one second of ticks abandons the
      latched peak and the possible steps. */
  function HandleMaxMinTimeout(s: State): (r: State)
    requires Valid(s)
    ensures Valid(r)
    ensures r.maxMinSampleCounter == (s.maxMinSampleCounter + 1) % OneSecond
    ensures s.maxMinSampleCounter + 1 == OneSecond
      ==> !r.flagMax && r.possibleSteps == 0 && r.windowMax == 0 && r.windowMin == 0
          && r == s.(maxMinSampleCounter := r.maxMinSampleCounter, windowMax := r.windowMax,
                     windowMin := r.windowMin, flagMax := r.flagMax, possibleSteps := r.possibleSteps)
    ensures s.maxMinSampleCounter + 1 < OneSecond ==> r == s.(maxMinSampleCounter := r.maxMinSampleCounter)
    ensures r.countSteps == s.countSteps && r.regulationMode == s.regulationMode
  {
    var c := s.maxMinSampleCounter + 1;
    if c == OneSecond then
      s.(maxMinSampleCounter := 0, windowMax := 0, windowMin := 0, flagMax := false, possibleSteps := 0)
    else
      s.(maxMinSampleCounter := c)
  }

  /** The first half of the valley branch of `handleMinDetection`: latch the window minimum as
      the valley, take `Difference` in uint32_t, stop seeking the valley, and test the swing
      against the threshold band. A crossing sets the threshold flag; a failure counts, and
      leaves an earlier flag set. */
  function LatchValley(s: State): (r: State)
    requires Valid(s)
    ensures Interim(r)
    ensures r.lastMin == s.windowMin && !r.flagMax && r.maxMinSampleCounter == 0
    ensures r.difference == U32(s.lastMax - s.windowMin)
    ensures Crosses(s.lastMax, s.windowMin, s.oldThreshold)
      ==> r.flagThreshold && r.thresholdFailures == 0
    ensures !Crosses(s.lastMax, s.windowMin, s.oldThreshold)
      ==> r.flagThreshold == s.flagThreshold && r.thresholdFailures == s.thresholdFailures + 1
    ensures r == s.(lastMin := r.lastMin, difference := r.difference, flagMax := false,
                    maxMinSampleCounter := 0, flagThreshold := r.flagThreshold,
                    thresholdFailures := r.thresholdFailures)
  {
    var lastMin := s.windowMin;
    var crossed := Crosses(s.lastMax, lastMin, s.oldThreshold);
    s.(lastMin := lastMin, difference := U32(s.lastMax - lastMin),
       flagMax := false, maxMinSampleCounter := 0,
       flagThreshold := crossed || s.flagThreshold,
       thresholdFailures := if crossed then 0 else s.thresholdFailures + 1)
  }

  /** The end of the valley branch: clear `WindowMin`, and after a second consecutive
      threshold failure treat the signal as "not walking": regulation mode and the possible
      steps are dropped (the threshold ring is left alone). */
  function SettleFailures(s: State): (r: State)
    requires Interim(s)
    ensures Valid(r)
    ensures s.thresholdFailures > 1
      ==> !r.regulationMode && r.possibleSteps == 0 && r.thresholdFailures == 0
          && r.maxMinSampleCounter == 0 && r.windowMax == 0 && r.windowMin == 0
          && r == s.(thresholdFailures := r.thresholdFailures,
                     maxMinSampleCounter := r.maxMinSampleCounter, windowMax := r.windowMax,
                     windowMin := r.windowMin, regulationMode := r.regulationMode,
                     possibleSteps := r.possibleSteps)
    ensures s.thresholdFailures <= 1 ==> r == s.(windowMin := InitValueMin)
    ensures r.thresholds == s.thresholds && r.oldThreshold == s.oldThreshold
    ensures r.countSteps == s.countSteps && r.flagMax == s.flagMax
    ensures r.indexBuffer == s.indexBuffer && r.indexAverage == s.indexAverage && r.window == s.window
  {
    var cleared := s.(windowMin := InitValueMin);
    if cleared.thresholdFailures > 1 then
      cleared.(thresholdFailures := 0, maxMinSampleCounter := 0, windowMax := 0, windowMin := 0,
               regulationMode := false, possibleSteps := 0)
    else
      cleared
  }

  /** `handleMinDetection`: once the window minimum sits at the centre slot, latch the valley,
      process a swing wider than 400 and settle the failure counter; otherwise count towards
      the one-second timeout. */
  function HandleMinDetection(s: State, quarticRoot: int -> real): (r: State)
    requires Valid(s)
    ensures Valid(r)
    ensures r.indexBuffer == s.indexBuffer && r.indexAverage == s.indexAverage && r.window == s.window
  {
    if s.indexWindowMin == Center(s.indexBuffer) then
      var latched := LatchValley(s);
      var swung := if latched.difference > Sensitivity then ProcessSwing(latched, quarticRoot) else latched;
      SettleFailures(swung)
    else
      HandleMaxMinTimeout(s)
  }

  // ---------------------------------------------------------------------------
  // End of tick
  // ---------------------------------------------------------------------------

  /** `updateCircularIndices`: both write slots advance and wrap every tick. */
  function UpdateCircularIndices(s: State): (r: State)
    requires Valid(s)
    ensures Valid(r)
    ensures r.indexBuffer == (s.indexBuffer + 1) % WindowSize
    ensures r.indexAverage == (s.indexAverage + 1) % FilterOrder
    ensures r == s.(indexBuffer := r.indexBuffer, indexAverage := r.indexAverage)
  {
    s.(indexBuffer := Ring.Advance(s.indexBuffer, WindowSize),
       indexAverage := Ring.Advance(s.indexAverage, FilterOrder))
  }

  /** `handleRegulationTimeout`: 100 ticks without a registered step clear the possible steps
      and, in regulation mode, leave it and restore the initial threshold ring. */
  function HandleRegulationTimeout(s: State): (r: State)
    requires Valid(s)
    ensures Valid(r)
    ensures r.stepToStepSamples == (s.stepToStepSamples + 1) % RegOffTime
    ensures s.stepToStepSamples + 1 == RegOffTime ==> !r.regulationMode && r.possibleSteps == 0
    ensures s.stepToStepSamples + 1 == RegOffTime && s.regulationMode
      ==> r.thresholds == Ring.Fill(ThresholdOrder, InitOffsetValue) && r.oldThreshold == InitOffsetValue
          && r.indexThreshold == 0 && r.thresholdFailures == 0
    ensures !(s.stepToStepSamples + 1 == RegOffTime && s.regulationMode)
      ==> r.thresholds == s.thresholds && r.oldThreshold == s.oldThreshold
    ensures r.regulationMode == (s.regulationMode && s.stepToStepSamples + 1 < RegOffTime)
    ensures r.possibleSteps == 0 || r.possibleSteps == s.possibleSteps
    ensures r.maxMinSampleCounter == 0 || r.maxMinSampleCounter == s.maxMinSampleCounter
    ensures r == s.(stepToStepSamples := r.stepToStepSamples, possibleSteps := r.possibleSteps,
                    maxMinSampleCounter := r.maxMinSampleCounter, regulationMode := r.regulationMode,
                    oldThreshold := r.oldThreshold, thresholdSum := r.thresholdSum,
                    indexThreshold := r.indexThreshold, thresholdFailures := r.thresholdFailures,
                    thresholds := r.thresholds)
  {
    var c := s.stepToStepSamples + 1;
    if c >= RegOffTime then
      var t := s.(stepToStepSamples := 0, possibleSteps := 0, maxMinSampleCounter := 0);
      if t.regulationMode then
        t.(regulationMode := false, oldThreshold := InitOffsetValue,
           thresholdSum := InitOffsetValue * ThresholdOrder, indexThreshold := 0,
           thresholdFailures := 0, thresholds := Ring.Fill(ThresholdOrder, InitOffsetValue))
      else
        t
    else
      s.(stepToStepSamples := c)
  }

  /** The detection stage of `update`: seek a peak, or, once one is latched, a valley. */
  function Detect(t: State, quarticRoot: int -> real): (d: State)
    requires Valid(t)
    ensures Valid(d)
    ensures d.indexBuffer == t.indexBuffer && d.indexAverage == t.indexAverage && d.window == t.window
  {
    if !t.flagMax then HandleMaxDetection(t) else HandleMinDetection(t, quarticRoot)
  }

  /** `update`: one tick of the pipeline. */
  function Step(s: State, a: Sample, quarticRoot: int -> real): (r: State)
    requires Valid(s) && IsInt16Sample(a)
    ensures Valid(r)
    ensures r.indexBuffer == (s.indexBuffer + 1) % WindowSize
    ensures r.indexAverage == (s.indexAverage + 1) % FilterOrder
  {
    HandleRegulationTimeout(UpdateCircularIndices(Detect(Prepare(s, a), quarticRoot)))
  }

  // ---------------------------------------------------------------------------
  // Getters
  // ---------------------------------------------------------------------------

  /** `getAverageStepLength`: distance per counted step, 0 before any step. */
  function AverageStepLength(s: State): (avg: real)
    ensures s.countSteps == 0 ==> avg == 0.0
    ensures s.countSteps != 0 ==> avg * (s.countSteps as real) == s.totalDistance
  {
    if s.countSteps == 0 then 0.0 else s.totalDistance / s.countSteps as real
  }
}
