/**
 * The allocation controller: it owns a list of memory chunks, each 1% of the
 * maximum memory, and grows or shrinks it so that the chunks plus the memory
 * the process already held at startup track the pattern's target percentage.
 * Chunks are modelled by their size in MB; OS measurements enter as integers.
 */
module MemConsumers {
  import opened Wrappers
  import opened PyRuntime
  import opened DateTimes
  import opened MemPatterns

  /** One chunk is 1% of the maximal memory. */
  const MaxNumberOfChunks := 100
  /** Drift, in chunks, between OS-measured and tracked memory that triggers a reset. */
  const ResetOfAllocationThreshold := 3

  datatype MemConsumerParams = MemConsumerParams(
    maxRamMega: int,
    timeSlotSec: int,
    linearTrendSlope: real,
    startFromBeginning: bool,
    durationSec: int)

  /** The defaults of `MemConsumerParams`: 1000 MB, a 5 s slot, no trend, wall-clock phase, run forever. */
  function DefaultParams(): (params: MemConsumerParams)
    ensures params.maxRamMega >= 100 && params.timeSlotSec > 0 && params.durationSec < 0
    ensures params.linearTrendSlope == 0.0 && !params.startFromBeginning
  {
    MemConsumerParams(1000, 5, 0.0, false, -1)
  }

  // ---------------------------------------------------------------------------
  // Chunk arithmetic

  /** The chunk size in MB: the maximal memory divided by 100, rounded down. */
  function ChunkSize(maxRamMega: int): (chunk: int)
    requires maxRamMega >= 100
    ensures chunk >= 1
    ensures chunk * MaxNumberOfChunks <= maxRamMega < (chunk + 1) * MaxNumberOfChunks
  {
    maxRamMega / MaxNumberOfChunks
  }

  /** The startup measurement split into whole chunks (`correction`) and the rest. */
  function CorrectionSplit(procMega: int, chunk: int): (split: (int, int))
    requires chunk > 0
    ensures split.0 * chunk + split.1 == procMega
    ensures 0 <= split.1 < chunk
  {
    (procMega / chunk, procMega % chunk)
  }

  /** The size of the chunk created at index `k`: the first one is shortened by the rest. */
  function ChunkSizeAt(k: int, chunk: int, rest: int): int {
    if k == 0 then chunk - rest else chunk
  }

  /** Every chunk has the size its index calls for. */
  ghost predicate WellShaped(chunks: seq<int>, chunk: int, rest: int) {
    forall k :: 0 <= k < |chunks| ==> chunks[k] == ChunkSizeAt(k, chunk, rest)
  }

  /** The chunk list after `change_allocation` asks for `target` owned chunks. */
  function Resized(chunks: seq<int>, target: int, chunk: int, rest: int): (r: seq<int>)
    ensures |r| == Max(0, target)
    ensures forall k :: 0 <= k < |r| ==> r[k] == if k < |chunks| then chunks[k] else ChunkSizeAt(k, chunk, rest)
  {
    if |chunks| < target then
      chunks + seq(target - |chunks|, j requires 0 <= j < target - |chunks| => ChunkSizeAt(|chunks| + j, chunk, rest))
    else
      chunks[..Max(0, target)]
  }

  /** The total size of a list of chunks. */
  function Sum(chunks: seq<int>): int {
    if chunks == [] then 0 else Sum(chunks[..|chunks| - 1]) + chunks[|chunks| - 1]
  }

  /** Growing only appends; shrinking keeps a prefix. */
  lemma ResizedKeepsPrefix(chunks: seq<int>, target: int, chunk: int, rest: int)
    ensures var r := Resized(chunks, target, chunk, rest);
      if |chunks| <= |r| then r[..|chunks|] == chunks else r == chunks[..|r|]
  {
  }

  /** Resizing keeps every chunk at the size its index calls for. */
  lemma ResizedWellShaped(chunks: seq<int>, target: int, chunk: int, rest: int)
    requires WellShaped(chunks, chunk, rest)
    ensures WellShaped(Resized(chunks, target, chunk, rest), chunk, rest)
  {
  }

  /** Asking twice for the same target changes nothing the second time. */
  lemma ResizedIdempotent(chunks: seq<int>, target: int, chunk: int, rest: int)
    ensures var r := Resized(chunks, target, chunk, rest);
      Resized(r, target, chunk, rest) == r
  {
  }

  /** A non-empty well-shaped list totals `len * chunk - rest` MB. */
  lemma {:induction false} ChunkTotal(chunks: seq<int>, chunk: int, rest: int)
    requires WellShaped(chunks, chunk, rest) && |chunks| > 0
    ensures Sum(chunks) == |chunks| * chunk - rest
  {
    var init := chunks[..|chunks| - 1];
    if |init| > 0 {
      assert WellShaped(init, chunk, rest);
      ChunkTotal(init, chunk, rest);
    }
    assert |chunks| * chunk == |init| * chunk + chunk;
  }

  /**
   * The startup memory plus the owned chunks is exactly the tracked total
   * `(len + correction) * chunk` once the list is non-empty: the rest the
   * first chunk leaves out is the rest of the startup measurement.
   */
  lemma ExactAccounting(chunks: seq<int>, procMega: int, chunk: int)
    requires chunk > 0
    requires var (correction, rest) := CorrectionSplit(procMega, chunk);
      WellShaped(chunks, chunk, rest) && |chunks| > 0
    ensures var (correction, rest) := CorrectionSplit(procMega, chunk);
      procMega + Sum(chunks) == (|chunks| + correction) * chunk
  {
    var (correction, rest) := CorrectionSplit(procMega, chunk);
    ChunkTotal(chunks, chunk, rest);
    assert (|chunks| + correction) * chunk == |chunks| * chunk + correction * chunk;
  }

  /** `ExactAccounting` for any list: the empty list is short of the startup measurement by its rest. */
  lemma Accounting(chunks: seq<int>, procMega: int, chunk: int, correction: int, rest: int)
    ensures chunk > 0 && (correction, rest) == CorrectionSplit(procMega, chunk) && WellShaped(chunks, chunk, rest) ==>
      (|chunks| + correction) * chunk == if chunks == [] then procMega - rest else procMega + Sum(chunks)
  {
    if chunk > 0 && (correction, rest) == CorrectionSplit(procMega, chunk) && WellShaped(chunks, chunk, rest) && chunks != [] {
      ExactAccounting(chunks, procMega, chunk);
    }
  }

  /** Every chunk of a well-shaped list holds at least 1 MB. */
  lemma ChunksPositive(chunks: seq<int>, chunk: int, rest: int)
    requires 0 <= rest < chunk && WellShaped(chunks, chunk, rest)
    ensures forall k :: 0 <= k < |chunks| ==> chunks[k] >= 1
  {
  }

  // ---------------------------------------------------------------------------
  // Trend

  /** How many time slots one pass through the pattern takes. */
  function StepsInPattern(p: MemPattern, timeSlotSec: int): (n: Result<int, Error>)
    ensures n.Err? <==> |p.patternType| == 0 || timeSlotSec == 0
    ensures n.Err? ==> n.error == EmptyPatternType || n.error == ZeroDivision
  {
    var seconds :- DurationInSeconds(p);
    if timeSlotSec == 0 then Err(ZeroDivision) else Ok(FloorDiv(seconds, timeSlotSec))
  }

  /** The slot count is `duration_seconds // time_slot_sec`, rounded towards minus infinity. */
  lemma StepsInPatternIsFloor(p: MemPattern, timeSlotSec: int)
    requires timeSlotSec != 0 && |p.patternType| > 0
    ensures StepsInPattern(p, timeSlotSec).Ok? && DurationInSeconds(p).Ok?
    ensures timeSlotSec > 0 ==>
      StepsInPattern(p, timeSlotSec).value * timeSlotSec <= DurationInSeconds(p).value
      < StepsInPattern(p, timeSlotSec).value * timeSlotSec + timeSlotSec
    ensures timeSlotSec < 0 ==>
      StepsInPattern(p, timeSlotSec).value * timeSlotSec + timeSlotSec < DurationInSeconds(p).value
      <= StepsInPattern(p, timeSlotSec).value * timeSlotSec
  {
  }

  /** `get_trend_multiplier`, over reals (float rounding is not modelled). */
  function TrendMultiplier(p: MemPattern, timeSlotSec: int, slope: real, step: int): (m: Result<real, Error>)
    ensures m.Ok? <==> StepsInPattern(p, timeSlotSec).Ok? && StepsInPattern(p, timeSlotSec).value != 0
    ensures m.Err? ==> m.error == EmptyPatternType || m.error == ZeroDivision
  {
    match StepsInPattern(p, timeSlotSec)
    case Err(e) => Err(e)
    case Ok(n) => if n == 0 then Err(ZeroDivision) else Ok(1.0 + (step as real) * slope / (n as real))
  }

  /** Whether the multiplier can be computed does not depend on the step, and at step 0 it is 1. */
  lemma TrendStartsAtOne(p: MemPattern, timeSlotSec: int, slope: real, step: int)
    ensures TrendMultiplier(p, timeSlotSec, slope, step).Ok? == TrendMultiplier(p, timeSlotSec, slope, 0).Ok?
    ensures TrendMultiplier(p, timeSlotSec, slope, 0).Ok? ==> TrendMultiplier(p, timeSlotSec, slope, 0).value == 1.0
  {
  }

  /** Dividing a multiple of `n` by `n` (as the multiplier does) cancels `n`. */
  lemma CancelSteps(k: int, n: int, slope: real)
    requires n != 0
    ensures ((k * n) as real) * slope / (n as real) == (k as real) * slope
  {
    var kr, nr := k as real, n as real;
    assert (k * n) as real == kr * nr;
    calc {
      (kr * nr) * slope / nr;
      == (kr * slope) * nr / nr;
      == kr * slope;
    }
  }

  /** The multiplier once the step count of the pattern is known (an unfolding helper for the trend lemmas). */
  lemma TrendAt(p: MemPattern, timeSlotSec: int, slope: real, step: int)
    requires StepsInPattern(p, timeSlotSec).Ok? && StepsInPattern(p, timeSlotSec).value != 0
    ensures TrendMultiplier(p, timeSlotSec, slope, step) ==
      Ok(1.0 + (step as real) * slope / (StepsInPattern(p, timeSlotSec).value as real))
  {
  }

  /** After `k` full passes through the pattern the multiplier has grown by `k * slope`. */
  lemma TrendPerCycle(p: MemPattern, timeSlotSec: int, slope: real, k: int)
    requires StepsInPattern(p, timeSlotSec).Ok? && StepsInPattern(p, timeSlotSec).value != 0
    ensures var n := StepsInPattern(p, timeSlotSec).value;
      TrendMultiplier(p, timeSlotSec, slope, k * n) == Ok(1.0 + (k as real) * slope)
  {
    var n := StepsInPattern(p, timeSlotSec).value;
    var step := k * n;
    CancelSteps(k, n, slope);
    TrendAt(p, timeSlotSec, slope, step);
    var x := (step as real) * slope / (n as real);
    assert TrendMultiplier(p, timeSlotSec, slope, step) == Ok(1.0 + x);
    assert x == (k as real) * slope;
  }

  /** Each step adds the same increment `slope / steps`. */
  lemma TrendIsLinear(p: MemPattern, timeSlotSec: int, slope: real, step: int)
    requires TrendMultiplier(p, timeSlotSec, slope, 0).Ok?
    ensures StepsInPattern(p, timeSlotSec).Ok? && StepsInPattern(p, timeSlotSec).value != 0
    ensures TrendMultiplier(p, timeSlotSec, slope, step + 1).value - TrendMultiplier(p, timeSlotSec, slope, step).value
      == slope / (StepsInPattern(p, timeSlotSec).value as real)
  {
    assert StepsInPattern(p, timeSlotSec).Ok? && StepsInPattern(p, timeSlotSec).value != 0;
    var nr := StepsInPattern(p, timeSlotSec).value as real;
    calc {
      TrendMultiplier(p, timeSlotSec, slope, step + 1).value - TrendMultiplier(p, timeSlotSec, slope, step).value;
    ==  { TrendAt(p, timeSlotSec, slope, step); TrendAt(p, timeSlotSec, slope, step + 1); }
      (1.0 + ((step + 1) as real) * slope / nr) - (1.0 + (step as real) * slope / nr);
    ==  { StepIncrement(step, slope, nr); }
      slope / nr;
    }
  }

  /** One more step adds `slope / n` to the multiplier `1 + step * slope / n`. */
  lemma StepIncrement(step: int, slope: real, nr: real)
    requires nr != 0.0
    ensures (1.0 + ((step + 1) as real) * slope / nr) - (1.0 + (step as real) * slope / nr) == slope / nr
  {
    var sr := step as real;
    assert (step + 1) as real == sr + 1.0;
    assert (sr + 1.0) * slope == sr * slope + slope;
    assert (sr * slope + slope) / nr == sr * slope / nr + slope / nr;
  }

  // ---------------------------------------------------------------------------
  // One tick of the run loop

  /** What the environment supplies during one tick: the clock, the random draw, the OS measurement. */
  datatype TickInput = TickInput(now: Timestamp, draw: nat, osMega: int)

  /** The phase shift `run_process` subtracts from every clock reading. */
  function StartShift(p: MemPattern, params: MemConsumerParams, startNow: Timestamp): (shift: int)
    ensures !params.startFromBeginning ==> shift == 0
    ensures Valid(startNow) ==> shift >= 0
    ensures Valid(startNow) && GranularityOf(p.patternType).Some? ==> shift < CycleSpan(GranularityOf(p.patternType).value)
  {
    if params.startFromBeginning then TimeShift(p.patternType, startNow) else 0
  }

  /** `int(alloc_size * multiplier)`: the pattern value scaled by the trend, truncated towards zero. */
  function Scaled(value: int, m: real): int {
    Trunc((value as real) * m)
  }

  /**
   * Starting from the pattern beginning moves every clock reading back to the
   * cycle start, where a supported table reads its all-zeros key.
   */
  lemma StartFromBeginning(p: MemPattern, params: MemConsumerParams, startNow: Timestamp)
    requires params.startFromBeginning && Valid(startNow)
    ensures Minus(startNow, StartShift(p, params, startNow)) == CycleStart(p.patternType, startNow)
    ensures GranularityOf(p.patternType).Some? && p.resolution != 0 ==>
      BuildKey(p.patternType, p.resolution, Minus(startNow, StartShift(p, params, startNow))) == Ok(Some(Zeros(|p.patternType|)))
  {
    CycleStartIsShiftBack(p.patternType, startNow);
    if GranularityOf(p.patternType).Some? && p.resolution != 0 {
      CycleStartKey(p.patternType, p.resolution, startNow);
    }
  }

  /**
   * The target percentage of one tick: the pattern value at `now - shift`,
   * scaled by the trend multiplier only when the slope is positive.
   */
  function TickTarget(p: MemPattern, params: MemConsumerParams, shift: int, now: Timestamp, draw: nat, step: int): (target: Result<int, Error>)
    ensures target.Ok? ==> GetValue(p, Minus(now, shift), draw).Ok? && GetValue(p, Minus(now, shift), draw).value.Some?
    ensures target.Err? ==>
      target.error == ZeroDivision || target.error == NoneOperand ||
      target.error == EmptyRandomRange || target.error == EmptyPatternType
  {
    var value :- GetValue(p, Minus(now, shift), draw);
    if params.linearTrendSlope > 0.0 then
      var m :- TrendMultiplier(p, params.timeSlotSec, params.linearTrendSlope, step);
      if value.None? then Err(NoneOperand) else Ok(Scaled(value.value, m))
    else
      if value.None? then Err(NoneOperand) else Ok(value.value)
  }

  /** Without a positive slope the target is the pattern value itself; a missing value fails. */
  lemma TargetWithoutTrend(p: MemPattern, params: MemConsumerParams, shift: int, now: Timestamp, draw: nat, step: int)
    requires params.linearTrendSlope <= 0.0
    ensures var v := GetValue(p, Minus(now, shift), draw);
      TickTarget(p, params, shift, now, draw, step) ==
        if v.Err? then Err(v.error) else if v.value.None? then Err(NoneOperand) else Ok(v.value.value)
  {
  }

  /** With a positive slope the first tick's target is still the pattern value, the multiplier being 1. */
  lemma TargetAtFirstStep(p: MemPattern, params: MemConsumerParams, shift: int, now: Timestamp, draw: nat)
    requires params.linearTrendSlope > 0.0
    requires TrendMultiplier(p, params.timeSlotSec, params.linearTrendSlope, 0).Ok?
    requires GetValue(p, Minus(now, shift), draw).Ok? && GetValue(p, Minus(now, shift), draw).value.Some?
    ensures TickTarget(p, params, shift, now, draw, 0) == Ok(GetValue(p, Minus(now, shift), draw).value.value)
  {
    var v := GetValue(p, Minus(now, shift), draw).value.value;
    TrendStartsAtOne(p, params.timeSlotSec, params.linearTrendSlope, 0);
    var m := TrendMultiplier(p, params.timeSlotSec, params.linearTrendSlope, 0).value;
    assert (v as real) * m == v as real;
    assert Trunc(v as real) == v;
  }

  /** With a positive slope the target is the pattern value scaled by the multiplier, truncated as `int()` does. */
  lemma TargetWithTrend(p: MemPattern, params: MemConsumerParams, shift: int, now: Timestamp, draw: nat, step: int, v: int, m: real)
    requires params.linearTrendSlope > 0.0
    requires GetValue(p, Minus(now, shift), draw) == Ok(Some(v))
    requires TrendMultiplier(p, params.timeSlotSec, params.linearTrendSlope, step) == Ok(m)
    ensures TickTarget(p, params, shift, now, draw, step) == Ok(Trunc((v as real) * m))
  {
    var value := GetValue(p, Minus(now, shift), draw);
    var trend := TrendMultiplier(p, params.timeSlotSec, params.linearTrendSlope, step);
    assert !value.IsFailure() && value.Extract() == Some(v);
    assert !trend.IsFailure() && trend.Extract() == m;
    assert TickTarget(p, params, shift, now, draw, step) == Ok(Scaled(v, m));
  }

  /** A rising trend never takes a tick below the pattern value. */
  lemma TargetWithTrendGrows(p: MemPattern, params: MemConsumerParams, shift: int, now: Timestamp, draw: nat, step: int, v: int)
    requires params.linearTrendSlope > 0.0 && v >= 0 && step >= 0
    requires GetValue(p, Minus(now, shift), draw) == Ok(Some(v))
    requires StepsInPattern(p, params.timeSlotSec).Ok? && StepsInPattern(p, params.timeSlotSec).value > 0
    ensures TickTarget(p, params, shift, now, draw, step).Ok?
    ensures TickTarget(p, params, shift, now, draw, step).value >= v
  {
    var slope := params.linearTrendSlope;
    var nr := StepsInPattern(p, params.timeSlotSec).value as real;
    TrendAt(p, params.timeSlotSec, slope, step);
    var m := 1.0 + (step as real) * slope / nr;
    GrowingMultiplier(step, slope, nr);
    TruncOfScaleUp(v, m);
    TargetWithTrend(p, params, shift, now, draw, step, v, m);
  }

  /** A non-negative step on a rising trend gives a multiplier of at least 1. */
  lemma GrowingMultiplier(step: int, slope: real, nr: real)
    requires step >= 0 && slope > 0.0 && nr > 0.0
    ensures 1.0 + (step as real) * slope / nr >= 1.0
  {
    assert (step as real) * slope >= 0.0;
  }

  /** Scaling a non-negative value by at least 1 and truncating never goes below the value. */
  lemma TruncOfScaleUp(v: int, m: real)
    requires v >= 0 && m >= 1.0
    ensures Trunc((v as real) * m) >= v
  {
    assert (v as real) * m == (v as real) + (v as real) * (m - 1.0);
    assert (v as real) * (m - 1.0) >= 0.0;
  }

  /** After `k` full passes through the pattern the target is the pattern value times `1 + k * slope`. */
  lemma TargetPerCycle(p: MemPattern, params: MemConsumerParams, shift: int, now: Timestamp, draw: nat, k: int, v: int)
    requires params.linearTrendSlope > 0.0
    requires GetValue(p, Minus(now, shift), draw) == Ok(Some(v))
    requires StepsInPattern(p, params.timeSlotSec).Ok? && StepsInPattern(p, params.timeSlotSec).value != 0
    ensures TickTarget(p, params, shift, now, draw, k * StepsInPattern(p, params.timeSlotSec).value) ==
      Ok(Trunc((v as real) * (1.0 + (k as real) * params.linearTrendSlope)))
  {
    TrendPerCycle(p, params.timeSlotSec, params.linearTrendSlope, k);
    TargetWithTrend(p, params, shift, now, draw, k * StepsInPattern(p, params.timeSlotSec).value, v,
      1.0 + (k as real) * params.linearTrendSlope);
  }

  /** `duration_sec // time_slot_sec`: how many ticks after the first the loop runs. */
  function StepsNumber(params: MemConsumerParams): (n: Result<int, Error>)
    ensures n.Err? <==> params.timeSlotSec == 0
    ensures n.Ok? && params.timeSlotSec > 0 ==>
      n.value * params.timeSlotSec <= params.durationSec < n.value * params.timeSlotSec + params.timeSlotSec
  {
    if params.timeSlotSec == 0 then Err(ZeroDivision) else Ok(FloorDiv(params.durationSec, params.timeSlotSec))
  }

  /** With the defaults there is no step limit, no phase shift and no trend: every target is the pattern value. */
  lemma DefaultsFollowPattern(p: MemPattern, startNow: Timestamp, now: Timestamp, draw: nat, step: int)
    requires Valid(now)
    ensures StepsNumber(DefaultParams()) == Ok(-1)
    ensures StartShift(p, DefaultParams(), startNow) == 0
    ensures var v := GetValue(p, now, draw);
      TickTarget(p, DefaultParams(), 0, now, draw, step) ==
        if v.Err? then Err(v.error) else if v.value.None? then Err(NoneOperand) else Ok(v.value.value)
  {
    assert FloorDiv(-1, 5) == -1;
    MinusZero(now);
    TargetWithoutTrend(p, DefaultParams(), 0, now, draw, step);
  }

  /** What one tick asks of the chunk list: its target percentage and the OS measurement after the resize. */
  datatype Allocation = Allocation(target: int, osMega: int)

  /**
   * The chunk list after one tick: resized to `target - correction` chunks,
   * then dropped altogether when the OS measurement is more than three chunks
   * away from the tracked total.
   */
  function AfterTick(chunks: seq<int>, a: Allocation, correction: int, chunk: int, rest: int): (r: seq<int>)
    ensures r == [] || |r| == Max(0, a.target - correction)
    ensures r != [] ==> Abs(a.osMega - (|r| + correction) * chunk) <= ResetOfAllocationThreshold * chunk
    ensures WellShaped(chunks, chunk, rest) ==> WellShaped(r, chunk, rest)
  {
    var resized := Resized(chunks, a.target - correction, chunk, rest);
    if Abs(a.osMega - (|resized| + correction) * chunk) > ResetOfAllocationThreshold * chunk then [] else resized
  }

  /** Resizing and then dropping the list on drift, as two steps, is one tick (an unfolding helper for `Allocate`). */
  lemma AfterTickIs(chunks: seq<int>, a: Allocation, correction: int, chunk: int, rest: int, r: seq<int>)
    requires var resized := Resized(chunks, a.target - correction, chunk, rest);
      r == if Abs(a.osMega - (|resized| + correction) * chunk) > ResetOfAllocationThreshold * chunk then [] else resized
    ensures r == AfterTick(chunks, a, correction, chunk, rest)
  {
  }

  /** The chunk list after the ticks of `plan`, in order. */
  function Replay(chunks: seq<int>, plan: seq<Allocation>, correction: int, chunk: int, rest: int): (r: seq<int>)
    ensures plan != [] ==> r == [] || |r| == Max(0, plan[|plan| - 1].target - correction)
    ensures WellShaped(chunks, chunk, rest) ==> WellShaped(r, chunk, rest)
  {
    if plan == [] then chunks
    else AfterTick(Replay(chunks, plan[..|plan| - 1], correction, chunk, rest), plan[|plan| - 1], correction, chunk, rest)
  }

  /** One more tick extends the replay by that tick. */
  lemma ReplayStep(chunks: seq<int>, plan: seq<Allocation>, a: Allocation, correction: int, chunk: int, rest: int)
    ensures Replay(chunks, plan + [a], correction, chunk, rest) ==
      AfterTick(Replay(chunks, plan, correction, chunk, rest), a, correction, chunk, rest)
  {
    assert (plan + [a])[..|plan|] == plan;
  }

  /** Replaying two runs of ticks one after the other is replaying them together. */
  lemma {:induction false} ReplayAppend(chunks: seq<int>, first: seq<Allocation>, second: seq<Allocation>, correction: int, chunk: int, rest: int)
    ensures Replay(chunks, first + second, correction, chunk, rest) ==
      Replay(Replay(chunks, first, correction, chunk, rest), second, correction, chunk, rest)
  {
    if second == [] {
      assert first + second == first;
    } else {
      var init := second[..|second| - 1];
      assert (first + second)[..|first + second| - 1] == first + init;
      ReplayAppend(chunks, first, init, correction, chunk, rest);
    }
  }

  /** Once a tick drops the list, the ticks before it no longer matter. */
  lemma ReplayForgetsBeforeReset(chunks: seq<int>, before: seq<Allocation>, after: seq<Allocation>, correction: int, chunk: int, rest: int)
    requires Replay(chunks, before, correction, chunk, rest) == []
    ensures Replay(chunks, before + after, correction, chunk, rest) == Replay([], after, correction, chunk, rest)
  {
    ReplayAppend(chunks, before, after, correction, chunk, rest);
  }


  /** Repeating a tick's target without drift leaves the list as it is. */
  lemma SteadyTick(chunks: seq<int>, a: Allocation, correction: int, chunk: int, rest: int)
    requires AfterTick(chunks, a, correction, chunk, rest) != []
    ensures var r := AfterTick(chunks, a, correction, chunk, rest);
      AfterTick(r, a, correction, chunk, rest) == r
  {
    var r := AfterTick(chunks, a, correction, chunk, rest);
    ResizedIdempotent(chunks, a.target - correction, chunk, rest);
    assert Resized(r, a.target - correction, chunk, rest) == r;
  }

  /** The ticks a run applied to the chunk list: a failed sleep comes after its tick's allocation. */
  function AppliedTicks(r: RunOutcome): nat {
    if r.Failed? && r.error == NegativeSleep then r.ticks + 1 else r.ticks
  }

  /**
   * How `run_process` ended: it returned 0 after its last step, it was
   * interrupted (the environment stopped supplying ticks; it also returns 0),
   * or an exception escaped. `ticks` counts the completed ticks.
   */
  datatype RunOutcome = Finished(ticks: nat) | Interrupted(ticks: nat) | Failed(ticks: nat, error: Error)

  // ---------------------------------------------------------------------------
  // The controller

  class MemConsumer {
    const pattern: MemPattern
    const params: MemConsumerParams
    const chunkSizeMega: int
    /** The process memory measured at startup, in MB. */
    const initialMega: int
    const correction: int
    const correctionRest: int
    /** The owned chunks, by size in MB. */
    var memoryArr: seq<int>

    ghost predicate Valid()
      reads this
    {
      && params.maxRamMega >= 100
      && chunkSizeMega == ChunkSize(params.maxRamMega)
      && (correction, correctionRest) == CorrectionSplit(initialMega, chunkSizeMega)
      && WellShaped(memoryArr, chunkSizeMega, correctionRest)
    }

    /** `procMega` is the process memory the OS reports at startup. */
    constructor (pattern: MemPattern, params: MemConsumerParams, procMega: int)
      requires params.maxRamMega >= 100
      ensures Valid()
      ensures this.pattern == pattern && this.params == params && initialMega == procMega
      ensures chunkSizeMega * MaxNumberOfChunks <= params.maxRamMega
      ensures correction * chunkSizeMega + correctionRest == procMega && 0 <= correctionRest < chunkSizeMega
      ensures memoryArr == []
    {
      this.pattern := pattern;
      this.params := params;
      var chunk := ChunkSize(params.maxRamMega);
      chunkSizeMega := chunk;
      initialMega := procMega;
      correction := procMega / chunk;
      correctionRest := procMega % chunk;
      memoryArr := [];
    }

    /** `mem_array_allocated_memory_mega`: the memory the consumer believes the process holds. */
    function TrackedMega(): (mega: int)
      reads this
      ensures Valid() ==> mega == if memoryArr == [] then initialMega - correctionRest else initialMega + Sum(memoryArr)
    {
      Accounting(memoryArr, initialMega, chunkSizeMega, correction, correctionRest);
      (|memoryArr| + correction) * chunkSizeMega
    }

    /** Grow or shrink the chunk list to `allocSize - correction` chunks. */
    method ChangeAllocation(allocSize: int)
      requires Valid()
      modifies this
      ensures Valid()
      ensures memoryArr == Resized(old(memoryArr), allocSize - correction, chunkSizeMega, correctionRest)
      ensures |memoryArr| == Max(0, allocSize - correction)
      ensures allocSize >= correction ==> TrackedMega() == allocSize * chunkSizeMega
    {
      var current := |memoryArr|;
      if current < allocSize - correction {
        var k := current;
        while k < allocSize - correction
          invariant current <= k <= allocSize - correction
          invariant |memoryArr| == k && memoryArr[..current] == old(memoryArr)
          invariant forall j :: current <= j < k ==> memoryArr[j] == ChunkSizeAt(j, chunkSizeMega, correctionRest)
        {
          if k == 0 {
            memoryArr := memoryArr + [chunkSizeMega - correctionRest];
          } else {
            memoryArr := memoryArr + [chunkSizeMega];
          }
          k := k + 1;
        }
      } else {
        memoryArr := memoryArr[..Max(0, allocSize - correction)];
      }
      assert memoryArr == Resized(old(memoryArr), allocSize - correction, chunkSizeMega, correctionRest);
      assert |memoryArr| == Max(0, allocSize - correction);
      assert TrackedMega() == (|memoryArr| + correction) * chunkSizeMega;
    }

    /** Drop every chunk when the OS-measured memory is more than 3 chunks away from the tracked total. */
    method ResetOnDrift(osMega: int) returns (reset: bool)
      requires Valid()
      modifies this
      ensures Valid()
      ensures reset == (Abs(osMega - old(TrackedMega())) > ResetOfAllocationThreshold * chunkSizeMega)
      ensures memoryArr == if reset then [] else old(memoryArr)
    {
      reset := Abs(osMega - TrackedMega()) > ResetOfAllocationThreshold * chunkSizeMega;
      if reset {
        memoryArr := [];
      }
    }

    /** The allocation part of one tick of `run_process`: resize, then reset on drift. */
    method Allocate(allocSize: int, osMega: int)
      requires Valid()
      modifies this
      ensures Valid()
      ensures memoryArr == AfterTick(old(memoryArr), Allocation(allocSize, osMega), correction, chunkSizeMega, correctionRest)
    {
      ghost var before := memoryArr;
      ChangeAllocation(allocSize);
      ghost var resized := memoryArr;
      assert TrackedMega() == (|resized| + correction) * chunkSizeMega;
      var _ := ResetOnDrift(osMega);
      AfterTickIs(before, Allocation(allocSize, osMega), correction, chunkSizeMega, correctionRest, memoryArr);
    }

    /**
     * `run_process`: one tick per input until the step count is reached; the
     * input running out stands for the interrupt that ends an unbounded run.
     */
    method RunProcess(startNow: Timestamp, inputs: seq<TickInput>) returns (r: RunOutcome, ghost plan: seq<Allocation>)
      requires Valid()
      modifies this
      ensures Valid()
      ensures r.ticks <= |inputs|
      ensures r.Finished? ==> StepsNumber(params).Ok? && 0 < StepsNumber(params).value && r.ticks == StepsNumber(params).value + 1
      ensures r.Interrupted? ==>
        (r.ticks == |inputs| && StepsNumber(params).Ok? &&
         (StepsNumber(params).value <= 0 || |inputs| <= StepsNumber(params).value))
      ensures params.timeSlotSec > 0 &&
        (forall k :: 0 <= k < |inputs| && (StepsNumber(params).value <= 0 || k <= StepsNumber(params).value) ==>
          TickTarget(pattern, params, StartShift(pattern, params, startNow), inputs[k].now, inputs[k].draw, k).Ok?)
        ==> !r.Failed?
      ensures params.timeSlotSec <= 0 ==> r.ticks == 0
      ensures r.Failed? ==> forall k :: 0 <= k < r.ticks ==>
        TickTarget(pattern, params, StartShift(pattern, params, startNow), inputs[k].now, inputs[k].draw, k).Ok?
      ensures r.Failed? ==>
        (params.timeSlotSec == 0 && r.error == ZeroDivision) ||
        (params.timeSlotSec < 0 && r.error == NegativeSleep && 0 < |inputs| &&
         TickTarget(pattern, params, StartShift(pattern, params, startNow), inputs[0].now, inputs[0].draw, 0).Ok?) ||
        (params.timeSlotSec != 0 && r.ticks < |inputs| &&
         TickTarget(pattern, params, StartShift(pattern, params, startNow), inputs[r.ticks].now, inputs[r.ticks].draw, r.ticks) == Err(r.error))
      ensures |plan| == AppliedTicks(r) <= |inputs|
      ensures forall k :: 0 <= k < |plan| ==>
        TickTarget(pattern, params, StartShift(pattern, params, startNow), inputs[k].now, inputs[k].draw, k) == Ok(plan[k].target) &&
        plan[k].osMega == inputs[k].osMega
      ensures memoryArr == Replay(old(memoryArr), plan, correction, chunkSizeMega, correctionRest)
    {
      plan := [];
      if params.timeSlotSec == 0 {
        return Failed(0, ZeroDivision), plan;
      }
      var stepsNumber := FloorDiv(params.durationSec, params.timeSlotSec);
      assert StepsNumber(params) == Ok(stepsNumber);
      var shift := 0;
      if params.startFromBeginning {
        shift := TimeShift(pattern.patternType, startNow);
      }
      assert shift == StartShift(pattern, params, startNow);
      var step := 0;
      while step < |inputs|
        invariant 0 <= step <= |inputs|
        invariant Valid()
        invariant 0 < stepsNumber ==> step <= stepsNumber
        invariant step > 0 ==> params.timeSlotSec > 0
        invariant |plan| == step
        invariant forall k :: 0 <= k < step ==>
          TickTarget(pattern, params, shift, inputs[k].now, inputs[k].draw, k) == Ok(plan[k].target) &&
          plan[k].osMega == inputs[k].osMega
        invariant memoryArr == Replay(old(memoryArr), plan, correction, chunkSizeMega, correctionRest)
      {
        var tick := inputs[step];
        var target := TickTarget(pattern, params, shift, tick.now, tick.draw, step);
        if target.Err? {
          return Failed(step, target.error), plan;
        }
        ghost var a := Allocation(target.value, tick.osMega);
        ReplayStep(old(memoryArr), plan, a, correction, chunkSizeMega, correctionRest);
        ghost var done := plan;
        plan := plan + [a];
        forall k | 0 <= k < step + 1
          ensures TickTarget(pattern, params, shift, inputs[k].now, inputs[k].draw, k) == Ok(plan[k].target) &&
            plan[k].osMega == inputs[k].osMega
        {
          if k < step {
            assert plan[k] == done[k];
          }
        }
        Allocate(target.value, tick.osMega);
        if params.timeSlotSec < 0 {
          return Failed(step, NegativeSleep), plan;
        }
        if 0 < stepsNumber <= step {
          return Finished(step + 1), plan;
        }
        step := step + 1;
      }
      return Interrupted(step), plan;
    }
  }
}
