/**
 * StepSizeEstimator: turns the speed estimate and the pedometer's step count into a step
 * length (distance per step over the interval since the last accepted update), a smoothed
 * step length, a ten-sample average and a cadence. The firmware computes in single
 * precision; the model computes in exact reals. The millisecond clock is a parameter.
 */
module StepSize {
  import opened Fixed
  import Reals
  import Ring

  const WindowSize: nat := 10
  const MinSpeed: real := 0.1
  const MaxStepSize: real := 1.5
  const MinStepSize: real := 0.05
  const Alpha: real := 0.3
  /** Updates closer together than this many milliseconds are ignored. */
  const MinIntervalMs: int := 100
  const CadenceDecay: real := 0.95
  const CadenceFloor: real := 0.05

  datatype Estimator = Estimator(
    lastStepCount: int,
    lastUpdateTime: int,
    currentStepSize: real,
    smoothedStepSize: real,
    buffer: seq<real>,
    bufferIndex: int,
    bufferFilled: int,
    stepFrequency: real,
    initialized: bool)

  /** Reachable states: the ring has ten slots; until it is full the write slot is the
      number of entries, so the entries are exactly slots [0, bufferFilled); every entry and
      the smoothed value are admissible step lengths; the smoothed value is 0 exactly while
      no step length has been accepted. */
  ghost predicate Valid(e: Estimator)
  {
    && |e.buffer| == WindowSize
    && 0 <= e.bufferIndex < WindowSize
    && 0 <= e.bufferFilled <= WindowSize
    && (e.bufferFilled < WindowSize ==> e.bufferIndex == e.bufferFilled)
    && IsUInt32(e.lastStepCount) && IsUInt32(e.lastUpdateTime)
    && (forall i :: 0 <= i < e.bufferFilled ==> MinStepSize <= e.buffer[i] <= MaxStepSize)
    && (forall i :: e.bufferFilled <= i < WindowSize ==> e.buffer[i] == 0.0)
    && (e.bufferFilled == 0 <==> e.smoothedStepSize == 0.0)
    && (e.bufferFilled > 0 ==> MinStepSize <= e.smoothedStepSize <= MaxStepSize)
    && e.stepFrequency >= 0.0
  }

  /** The constructor: nothing accepted yet, all slots zero, not yet initialised. */
  function Create(): (e: Estimator)
    ensures Valid(e)
    ensures !e.initialized && e.bufferFilled == 0 && e.smoothedStepSize == 0.0
    ensures e.stepFrequency == 0.0 && e.lastStepCount == 0 && e.lastUpdateTime == 0
    ensures forall i :: 0 <= i < |e.buffer| ==> e.buffer[i] == 0.0
  {
    Estimator(lastStepCount := 0, lastUpdateTime := 0, currentStepSize := 0.0,
              smoothedStepSize := 0.0, buffer := seq(WindowSize, _ => 0.0), bufferIndex := 0,
              bufferFilled := 0, stepFrequency := 0.0, initialized := false)
  }

  /** `reset`: whatever the state, the estimator returns to the state it was built in. */
  function Reset(e: Estimator): (r: Estimator)
    ensures r == Create()
    ensures Valid(r) && !r.initialized && r.bufferFilled == 0
  {
    Estimator(lastStepCount := 0, lastUpdateTime := 0, currentStepSize := 0.0,
              smoothedStepSize := 0.0, buffer := seq(WindowSize, _ => 0.0), bufferIndex := 0,
              bufferFilled := 0, stepFrequency := 0.0, initialized := false)
  }

  /** Milliseconds since the last accepted update, as the unsigned subtraction computes it
      (so a clock that wrapped still reads as the short interval it was). */
  function Elapsed(e: Estimator, now: int): (dt: int)
    ensures IsUInt32(dt)
    ensures IsUInt32(now) && IsUInt32(e.lastUpdateTime) && now >= e.lastUpdateTime
      ==> dt == now - e.lastUpdateTime
    // A clock that wrapped past 2^32 ms still reads as the time elapsed since.
    ensures IsUInt32(now) && IsUInt32(e.lastUpdateTime) && now < e.lastUpdateTime
      ==> dt == now - e.lastUpdateTime + Two32
  {
    U32(now - e.lastUpdateTime)
  }

  /** Steps counted since the last accepted update, in uint32_t. */
  function NewSteps(e: Estimator, stepCount: int): (n: int)
    ensures IsUInt32(n)
    ensures IsUInt32(stepCount) && IsUInt32(e.lastStepCount) && stepCount >= e.lastStepCount
      ==> n == stepCount - e.lastStepCount
    // A step counter that wrapped still reads as the steps counted since.
    ensures IsUInt32(stepCount) && IsUInt32(e.lastStepCount) && stepCount < e.lastStepCount
      ==> n == stepCount - e.lastStepCount + Two32
  {
    U32(stepCount - e.lastStepCount)
  }

  /** The update measures a step length: it is initialised, at least 100 ms have passed,
      steps were counted and the speed is at least 0.1 m/s. */
  function Accepts(e: Estimator, speed: real, stepCount: int, now: int): (ok: bool)
    // Away from wrap-around: initialised, 100 ms or more since the last accepted update, a
    // higher step count, and at least 0.1 m/s.
    ensures IsUInt32(now) && IsUInt32(e.lastUpdateTime) && now >= e.lastUpdateTime
            && IsUInt32(stepCount) && IsUInt32(e.lastStepCount) && stepCount >= e.lastStepCount
      ==> (ok <==> e.initialized && now - e.lastUpdateTime >= MinIntervalMs
                   && stepCount > e.lastStepCount && speed >= MinSpeed)
  {
    e.initialized && Elapsed(e, now) >= MinIntervalMs && NewSteps(e, stepCount) > 0 && speed >= MinSpeed
  }

  /** The interval's distance divided among its steps, limited to [0.05, 1.5] m. */
  function StepLength(speed: real, seconds: real, steps: int): (len: real)
    requires steps > 0
    ensures MinStepSize <= len <= MaxStepSize
    ensures MinStepSize * steps as real <= speed * seconds <= MaxStepSize * steps as real
      ==> len * steps as real == speed * seconds
    ensures speed * seconds < MinStepSize * steps as real ==> len == MinStepSize
    ensures speed * seconds > MaxStepSize * steps as real ==> len == MaxStepSize
  {
    var distance := speed * seconds;
    var n := steps as real;
    var raw := distance / n;
    PerStep(distance, n, MinStepSize);
    PerStep(distance, n, MaxStepSize);
    Reals.Clamp(raw, MinStepSize, MaxStepSize)
  }

  /** Sharing `d` among `n > 0` parts: each part times `n` gives `d` back, and a part is
      below (above) `c` exactly when `d` is below (above) `c * n`. */
  lemma PerStep(d: real, n: real, c: real)
    requires n > 0.0
    ensures (d / n) * n == d
    ensures d < c * n <==> d / n < c
    ensures d > c * n <==> d / n > c
  {
    var q := d / n;
    assert q * n == d;
    assert q * n - c * n == (q - c) * n;
  }

  /** Exponential smoothing with weight 0.3 on the new value, seeded by the first value. */
  function Smooth(previous: real, current: real): (r: real)
    ensures previous == 0.0 ==> r == current
    ensures previous != 0.0 ==> r - previous == Alpha * (current - previous)
    ensures previous != 0.0 ==> (previous <= r <= current || current <= r <= previous)
  {
    if previous == 0.0 then current else Alpha * current + (1.0 - Alpha) * previous
  }

  /** The cadence after a slow update: 5% lower, and 0 once below 0.05 steps/s. */
  function DecayCadence(f: real): (r: real)
    requires f >= 0.0
    ensures 0.0 <= r <= f
    ensures r == 0.0 || (r >= CadenceFloor && r == CadenceDecay * f)
    ensures CadenceDecay * f >= CadenceFloor ==> r == CadenceDecay * f
    ensures CadenceDecay * f < CadenceFloor ==> r == 0.0
  {
    var d := f * CadenceDecay;
    if d < CadenceFloor then 0.0 else d
  }

  /** The ring and the smoothed value after accepting step length `len`: the length goes into
      the write slot, the slot advances, the count of entries saturates at ten, and the
      smoothed value is seeded by the first length and then moves 30% of the way. */
  function Push(e: Estimator, len: real): (r: Estimator)
    requires Valid(e) && MinStepSize <= len <= MaxStepSize
    ensures Valid(r)
    ensures r.buffer == e.buffer[e.bufferIndex := len]
    ensures r.bufferIndex == (e.bufferIndex + 1) % WindowSize
    ensures r.bufferFilled == (if e.bufferFilled < WindowSize then e.bufferFilled + 1 else WindowSize)
    ensures e.bufferFilled == 0 ==> r.smoothedStepSize == len
    ensures e.bufferFilled > 0 ==> r.smoothedStepSize - e.smoothedStepSize == Alpha * (len - e.smoothedStepSize)
    ensures r == e.(currentStepSize := len, buffer := r.buffer, bufferIndex := r.bufferIndex,
                    bufferFilled := r.bufferFilled, smoothedStepSize := r.smoothedStepSize)
  {
    e.(currentStepSize := len,
       buffer := e.buffer[e.bufferIndex := len],
       bufferIndex := (e.bufferIndex + 1) % WindowSize,
       bufferFilled := if e.bufferFilled < WindowSize then e.bufferFilled + 1 else e.bufferFilled,
       smoothedStepSize := Smooth(e.smoothedStepSize, len))
  }

  /** The accepted branch of `update`: cadence, step length, ring and smoothing, and the
      interval restarts. */
  function Accept(e: Estimator, speed: real, stepCount: int, now: int): (r: Estimator)
    requires Valid(e) && IsUInt32(stepCount) && IsUInt32(now) && Accepts(e, speed, stepCount, now)
    ensures Valid(r)
    ensures var n := NewSteps(e, stepCount);
      var seconds := Elapsed(e, now) as real / 1000.0;
      && r.currentStepSize == StepLength(speed, seconds, n)
      && r.stepFrequency * seconds == n as real
      && r == Push(e, r.currentStepSize).(stepFrequency := r.stepFrequency, lastStepCount := stepCount,
                                          lastUpdateTime := now)
  {
    var n := NewSteps(e, stepCount);
    var seconds := Elapsed(e, now) as real / 1000.0;
    PerStep(n as real, seconds, 0.0);
    var frequency := n as real / seconds;
    Push(e, StepLength(speed, seconds, n))
      .(stepFrequency := frequency, lastStepCount := stepCount, lastUpdateTime := now)
  }

  /** `update(speedMps, stepCount)` at clock reading `now` (ms). */
  function Update(e: Estimator, speed: real, stepCount: int, now: int): (r: Estimator)
    requires Valid(e) && IsUInt32(stepCount) && IsUInt32(now)
    ensures Valid(r)
    // The first call only records the step count and the time.
    ensures !e.initialized
      ==> r == e.(lastStepCount := stepCount, lastUpdateTime := now, initialized := true)
    // Too soon after the last accepted update: nothing changes.
    ensures e.initialized && Elapsed(e, now) < MinIntervalMs ==> r == e
    // An accepted update takes the branch whose effect `Accept` states.
    ensures Accepts(e, speed, stepCount, now) ==> r == Accept(e, speed, stepCount, now)
    // Slow: only the cadence decays; the step count and time stay, so the next interval
    // still starts at the last accepted update.
    ensures e.initialized && Elapsed(e, now) >= MinIntervalMs && speed < MinSpeed
      ==> r == e.(stepFrequency := r.stepFrequency)
          && r.stepFrequency == DecayCadence(e.stepFrequency)
    // Moving fast enough but no new steps: nothing changes.
    ensures e.initialized && Elapsed(e, now) >= MinIntervalMs && speed >= MinSpeed
            && NewSteps(e, stepCount) == 0
      ==> r == e
  {
    if !e.initialized then
      e.(lastStepCount := stepCount, lastUpdateTime := now, initialized := true)
    else
      var dt := Elapsed(e, now);
      if dt < MinIntervalMs then e
      else
        var n := NewSteps(e, stepCount);
        if n > 0 && speed >= MinSpeed then
          Accept(e, speed, stepCount, now)
        else if speed < MinSpeed then
          e.(stepFrequency := DecayCadence(e.stepFrequency))
        else
          e
  }

  /** `getStepSizeCm`: the smoothed step length in centimetres, within [5, 150] once a step
      length has been accepted. */
  function StepSizeCm(e: Estimator): (cm: real)
    ensures cm / 100.0 == e.smoothedStepSize
    ensures Valid(e) && e.bufferFilled > 0 ==> 5.0 <= cm <= 150.0
    ensures Valid(e) && e.bufferFilled == 0 ==> cm == 0.0
  {
    e.smoothedStepSize * 100.0
  }

  /** `getAverageStepSizeMeters`: the mean of the accepted step lengths in the ring, 0 while
      it is empty. */
  method AverageStepSizeMeters(e: Estimator) returns (avg: real)
    requires 0 <= e.bufferFilled <= |e.buffer|
    ensures e.bufferFilled == 0 ==> avg == 0.0
    ensures e.bufferFilled > 0 ==> avg * e.bufferFilled as real == Ring.SumReal(e.buffer[..e.bufferFilled])
    ensures Valid(e) && e.bufferFilled == WindowSize ==> avg * WindowSize as real == Ring.SumReal(e.buffer)
    ensures Valid(e) && e.bufferFilled > 0 ==> MinStepSize <= avg <= MaxStepSize
  {
    if e.bufferFilled == 0 {
      return 0.0;
    }
    var sum := SumFirst(e.buffer, e.bufferFilled);
    avg := sum / e.bufferFilled as real;
    PerStep(sum, e.bufferFilled as real, 0.0);
    if Valid(e) {
      EntriesBounded(e);
      MeanBounded(sum, e.bufferFilled, MinStepSize, MaxStepSize);
      assert e.bufferFilled == WindowSize ==> e.buffer[..e.bufferFilled] == e.buffer;
    }
  }

  /** The loop of `getAverageStepSizeMeters`: the first `n` entries added front to back. */
  method SumFirst(xs: seq<real>, n: int) returns (sum: real)
    requires 0 <= n <= |xs|
    ensures sum == Ring.SumReal(xs[..n])
  {
    sum := 0.0;
    var i := 0;
    while i < n
      invariant 0 <= i <= n
      invariant sum == Ring.SumReal(xs[..i])
    {
      assert xs[..i + 1][..i] == xs[..i];
      sum := sum + xs[i];
      i := i + 1;
    }
  }

  /** The accepted entries of a reachable state sum to between 0.05 and 1.5 m per entry. */
  lemma EntriesBounded(e: Estimator)
    requires Valid(e)
    ensures var n := e.bufferFilled as real;
      n * MinStepSize <= Ring.SumReal(e.buffer[..e.bufferFilled]) <= n * MaxStepSize
  {
    Ring.SumRealBounds(e.buffer[..e.bufferFilled], MinStepSize, MaxStepSize);
  }

  /** A mean of `n` values whose sum lies in [n*lo, n*hi] lies in [lo, hi]. */
  lemma MeanBounded(sum: real, n: int, lo: real, hi: real)
    requires n > 0 && (n as real) * lo <= sum <= (n as real) * hi
    ensures lo <= sum / n as real <= hi
  {
  }


  /** `Push` applied to each length of `ls` in turn. */
  function PushAll(e: Estimator, ls: seq<real>): (r: Estimator)
    requires Valid(e) && forall i :: 0 <= i < |ls| ==> MinStepSize <= ls[i] <= MaxStepSize
    ensures Valid(r)
    decreases |ls|
  {
    if ls == [] then e else Push(PushAll(e, ls[..|ls| - 1]), ls[|ls| - 1])
  }

  /** The ring holds the last ten of the lengths `ls` accepted so far: the `k`-th sits in
      slot `k mod 10` until ten later ones have overwritten it, the write slot is the number
      of lengths mod 10 and the entry count saturates at ten. */
  predicate HoldsLastTen(e: Estimator, ls: seq<real>)
    requires |e.buffer| == WindowSize
  {
    && e.bufferIndex == |ls| % WindowSize
    && e.bufferFilled == (if |ls| < WindowSize then |ls| else WindowSize)
    && forall k :: 0 <= k < |ls| && |ls| - WindowSize <= k ==> e.buffer[k % WindowSize] == ls[k]
  }

  /** From a fresh estimator, the ring holds the last ten accepted lengths. */
  lemma {:induction false} RingKeepsLastTen(ls: seq<real>)
    requires forall i :: 0 <= i < |ls| ==> MinStepSize <= ls[i] <= MaxStepSize
    ensures HoldsLastTen(PushAll(Create(), ls), ls)
    decreases |ls|
  {
    if ls != [] {
      var n := |ls|;
      var front := ls[..n - 1];
      var x := ls[n - 1];
      assert forall i :: 0 <= i < |front| ==> front[i] == ls[i];
      RingKeepsLastTen(front);
      var p := PushAll(Create(), front);
      assert PushAll(Create(), ls) == Push(p, x);
      assert ls == front + [x];
      PushKeepsLastTen(p, front, x);
    } else {
      assert PushAll(Create(), ls) == Create();
    }
  }

  /** One more accepted length keeps the ring holding the last ten. */
  lemma PushKeepsLastTen(e: Estimator, front: seq<real>, x: real)
    requires Valid(e) && MinStepSize <= x <= MaxStepSize && HoldsLastTen(e, front)
    ensures HoldsLastTen(Push(e, x), front + [x])
  {
    var n := |front| + 1;
    var r := Push(e, x);
    RingWrite(e.buffer, front, x);
    NextSlot(n);
  }

  /** Writing the `n`-th length into slot `n mod 10` of a ring that holds the last ten of
      the first `n` lengths makes it hold the last ten of the first `n + 1`. */
  lemma RingWrite(buf: seq<real>, front: seq<real>, x: real)
    requires |buf| == WindowSize
    requires forall k :: 0 <= k < |front| && |front| - WindowSize <= k ==> buf[k % WindowSize] == front[k]
    ensures var ls := front + [x];
      forall k :: 0 <= k < |ls| && |ls| - WindowSize <= k
        ==> buf[|front| % WindowSize := x][k % WindowSize] == ls[k]
  {
    var ls := front + [x];
    var n := |front|;
    forall k | 0 <= k < |ls| && |ls| - WindowSize <= k
      ensures buf[n % WindowSize := x][k % WindowSize] == ls[k]
    {
      if k < n {
        SlotsDiffer(k, n);
        assert ls[k] == front[k];
      }
    }
  }

  /** The slot after position `n - 1`'s slot is position `n`'s slot. */
  lemma NextSlot(n: int)
    requires n >= 1
    ensures ((n - 1) % WindowSize + 1) % WindowSize == n % WindowSize
  {
  }

  /** Two positions fewer than ten apart use different slots. */
  lemma SlotsDiffer(k: int, j: int)
    requires 0 <= k < j < k + WindowSize
    ensures k % WindowSize != j % WindowSize
  {
    var d := j - k;
    assert j == k + d;
    assert (k + d) % WindowSize == (k % WindowSize + d) % WindowSize;
  }

  /** One `update(speedMps, stepCount)` call and the clock reading it sees. */
  datatype Reading = Reading(speed: real, stepCount: int, now: int)

  predicate WellFormed(rs: seq<Reading>)
  {
    forall i :: 0 <= i < |rs| ==> IsUInt32(rs[i].stepCount) && IsUInt32(rs[i].now)
  }

  /** `update` applied to each reading in turn. */
  function Run(e: Estimator, rs: seq<Reading>): (r: Estimator)
    requires Valid(e) && WellFormed(rs)
    ensures Valid(r)
    decreases |rs|
  {
    if rs == [] then e else Run(Update(e, rs[0].speed, rs[0].stepCount, rs[0].now), rs[1..])
  }

  /** Once initialised, updates below 0.1 m/s never touch the step lengths, the ring, the
      step count or the time of the last accepted update, whatever the step counts say; the
      cadence only decays. */
  lemma {:induction false} SlowRunKeepsLengths(e: Estimator, rs: seq<Reading>)
    requires Valid(e) && e.initialized && WellFormed(rs)
    requires forall i :: 0 <= i < |rs| ==> rs[i].speed < MinSpeed
    ensures var r := Run(e, rs);
      r == e.(stepFrequency := r.stepFrequency) && r.stepFrequency <= e.stepFrequency
    decreases |rs|
  {
    if rs != [] {
      var e1 := Update(e, rs[0].speed, rs[0].stepCount, rs[0].now);
      assert e1 == e.(stepFrequency := e1.stepFrequency) && e1.stepFrequency <= e.stepFrequency;
      SlowRunKeepsLengths(e1, rs[1..]);
    }
  }
}
