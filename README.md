# ram_utilization memory consumer, modelled in Dafny

The memory consumer makes its own process follow a time-dependent memory
curve. Two classes hold all the logic:

- `MemPattern` (`memory_consumer/mem_pattern.py`) is a cyclic lookup table. It is
  loaded from csv rows keyed by the time columns the header names (`s`, `m`,
  `m,s`, `h,m` or `d,h,m`). A timestamp is mapped to the key of its
  resolution bucket, and the stored percentage is returned, optionally moved by
  bounded random noise. The table also gives its cycle length and the offset of
  a timestamp from the start of its cycle.
- `MemConsumer` (`memory_consumer/mem_consumer.py`) owns a list of memory chunks,
  each 1% of the maximal memory. It learns a baseline (`correction` chunks plus a
  `rest`) from the process memory at startup. It grows or shrinks the list to a
  target percentage, scales targets by a linear trend, and runs a tick loop. The
  loop resets the list when the OS-measured memory drifts away from the tracked
  total.

Files:

- `wrappers.dfy`: `Option` and `Result`.
- `py_runtime.dfy`: Python's floor division and float truncation, plus the exceptions the core raises (`PyRuntime.Error`).
- `datetimes.dfy`: a timestamp as weekday, hour, minute, second and microsecond, and naive subtraction of seconds.
- `mem_pattern.dfy`: the pattern table. The constructor loop is the method `Load`, proved equal to the function `Build`.
- `mem_consumer.dfy`: chunk arithmetic, the trend, one tick's target, and the class `MemConsumer` with `ChangeAllocation`, `ResetOnDrift` and `RunProcess`.
- `pattern_scenarios.dfy`: complete tables of the four granularities the repository's tests use (`s`, `m`, `m,s`, `d,h,m`), and the timestamps those tests use.

The pattern is a datatype because nothing changes it after construction. The
consumer is a class because `change_allocation` and `run_process` change its
chunk list in place. Chunks are modelled by their size in MB. The class
invariant `Valid()` says that chunk 0 is `chunk - rest` MB and every other
chunk is `chunk` MB.

## Model

| member | source | states |
|---|---|---|
| `MemPatterns.Load` | memory_consumer/mem_pattern.py:24-45 | Reading the rows one at a time gives exactly `Build`. A missing header fails, a row too short to index fails at its index, fewer than two rows leave the resolution unset. Otherwise the table is filled in file order, with the resolution and the duration. |
| `MemPatterns.FirstShortRow` | memory_consumer/mem_pattern.py:35-42 | Finds the first row that cannot be read at index -1 (or at -2 in the first two rows). Every earlier row is readable. `None` means every row is readable. |
| `MemPatterns.BuildSucceeds` | memory_consumer/mem_pattern.py:27-45 | Construction succeeds exactly when there is a header, at least two rows, and every row is readable. A failure is the missing header, the unset resolution, or the first short row. |
| `MemPatterns.Build` | memory_consumer/mem_pattern.py:31-45 | A constructed pattern has a header and at least two rows. It keeps the noise percent and takes the header without its last column as its type. A failure is only the missing header, the unset resolution or a short row. The row loop it uses, `Ingest`, is specified by the `Ingest...` lemmas below. |
| `MemPatterns.BuildShape` | memory_consumer/mem_pattern.py:31-45 | The resolution is row 1's second-to-last column minus row 0's. The pattern type is the header without its last column. The keys are the rows' keys. The duration is the number of distinct keys times the resolution. |
| `MemPatterns.IngestKeys` | memory_consumer/mem_pattern.py:35-37 | The filled table holds exactly the keys the rows name. |
| `MemPatterns.IngestLastWins` | memory_consumer/mem_pattern.py:35-37 | A key holds the value of the last row that names it. |
| `MemPatterns.IngestDistinct` | memory_consumer/mem_pattern.py:35-37 | Rows with pairwise distinct keys give one table entry each. |
| `MemPatterns.IngestOverwrite` | memory_consumer/mem_pattern.py:36-37 | A row that repeats an earlier key adds no entry and replaces the value. |
| `MemPatterns.BuildLastWins` | memory_consumer/mem_pattern.py:35-37 | In a constructed pattern, every key holds the value of the last row naming it. |
| `MemPatterns.BuildDistinctDuration` | memory_consumer/mem_pattern.py:45 | With distinct keys, the table has one entry per row, and the duration is the row count times the resolution. |
| `MemPatterns.BuildKey` | memory_consumer/mem_pattern.py:94-123 | A key of a supported type has one component per column of the type. The only error is the division by zero of resolution 0. |
| `MemPatterns.KeyFollowsHeader` | memory_consumer/mem_pattern.py:94-122 | For each of the five supported types and a non-zero resolution, the key has one component per header column. It holds the named timestamp fields unchanged, except the last, which is bucketed to the resolution. |
| `MemPatterns.KeyErrors` | memory_consumer/mem_pattern.py:94-123 | An unsupported type gives the `(None, None)` key. A supported type with resolution 0 raises a division by zero. Nothing else fails. |
| `MemPatterns.BucketBounds` | memory_consumer/mem_pattern.py:96-121 | For a positive resolution `r`, the bucket `b` of `c` satisfies `b <= c < b + r` and `b % r == 0`. Bucketing is idempotent. |
| `MemPatterns.BucketOfInterval` | memory_consumer/mem_pattern.py:96-121 | Every component in `[k*r, k*r + r)` falls into the bucket `k*r`. |
| `MemPatterns.DurationInSeconds` | memory_consumer/mem_pattern.py:133-135 | Indexing the last column of the type fails exactly when the type is empty. |
| `MemPatterns.DurationScalesByUnit` | memory_consumer/mem_pattern.py:133-135 | For the five supported types, the cycle length in seconds is the duration times 60 for `m`, `h,m` and `d,h,m`, and the duration itself for `s` and `m,s`. An empty type fails (see `DurationInSeconds`). |
| `MemPatterns.CycleStart` | memory_consumer/mem_pattern.py:155-172 | The cycle start of a valid timestamp is a valid timestamp no later in the week, and it keeps the microsecond. |
| `MemPatterns.TimeShift` | memory_consumer/mem_pattern.py:152-173 | The shift from the cycle start is never negative. For a supported type it is shorter than one minute, hour, day or week respectively. |
| `MemPatterns.TimeShiftByGranularity` | memory_consumer/mem_pattern.py:156-173 | The shift is the second for `s`; minute*60+second for `m` and `m,s`; hour*3600+minute*60+second for `h,m`; weekday*86400+hour*3600+minute*60+second for `d,h,m`; 0 otherwise. |
| `MemPatterns.MinusZero` | memory_consumer/mem_consumer.py:191-200 | Subtracting the zero shift of a run that does not start from the pattern beginning leaves a valid clock reading unchanged. |
| `MemPatterns.CycleStartIsShiftBack` | memory_consumer/mem_pattern.py:152-173 | Subtracting the shift from `t` lands exactly on the cycle start. The cycle start plus the shift is `t` again, within the same week. |
| `MemPatterns.CycleStartKey` | memory_consumer/mem_pattern.py:94-122 | The cycle start of every supported type builds the all-zeros key. |
| `MemPatterns.RandInt` | memory_consumer/mem_pattern.py:73 | The random pick lies in `[lo, hi]`, both ends included. |
| `MemPatterns.Noise` | memory_consumer/mem_pattern.py:70-74 | A value comes back present exactly when it went in present. A `None` operand and an empty random range are the only failures, and they need a non-zero noise percent. |
| `MemPatterns.NoiseOff` | memory_consumer/mem_pattern.py:70-71 | With noise 0, the value, present or `None`, is returned unchanged. |
| `MemPatterns.NoiseBounds` | memory_consumer/mem_pattern.py:72-74 | With noise, the result lies in `[max(0, v - v*p//100), v + v*p//100]`. |
| `MemPatterns.NoiseTotalOnPercentages` | memory_consumer/mem_pattern.py:72-73 | A non-negative value with a positive noise percent never makes the random range empty, and the result is non-negative. |
| `MemPatterns.NoiseReachesRange` | memory_consumer/mem_pattern.py:73 | Every value of the noise range is produced by some random draw. |
| `MemPatterns.NoiseOfMissing` | memory_consumer/mem_pattern.py:72 | With noise, a missing value raises a `TypeError`. |
| `MemPatterns.GetValue` | memory_consumer/mem_pattern.py:189-195 | A lookup fails only with a division by zero, a `None` operand or an empty random range. Without noise, a present result is one of the table's values. |
| `MemPatterns.LookupNoiseless` | memory_consumer/mem_pattern.py:189-195 | Without noise, `get_value` returns the stored value for the built key, or `None` when the key is absent or the type is unsupported. |
| `MemPatterns.NoisyLookupBounds` | memory_consumer/mem_pattern.py:189-195 | With noise on, a lookup returns a value within `[max(0, v - v*p//100), v + v*p//100]` of the value `v` the same table gives without noise. |
| `MemPatterns.SameBucketSameValue` | memory_consumer/mem_pattern.py:104-122 | Two timestamps with equal non-bucketed fields and the same bucket build the same key. With the same draw they give the same value. |
| `MemPatterns.CycleStartLookup` | memory_consumer/mem_pattern.py:152-195 | Without noise, looking up `t - shift(t)` gives the first row's value, provided that row holds the all-zeros key and no later row overwrites it. |
| `PyRuntime.FloorDiv` | memory_consumer/mem_pattern.py:96-97 | Python's `//` rounds towards minus infinity for either sign of the divisor. |
| `PyRuntime.Trunc` | memory_consumer/mem_consumer.py:203 | `int()` of a float truncates towards zero. |
| `DateTimes.Minus` | memory_consumer/mem_consumer.py:198-200 | Subtracting seconds from a valid timestamp gives a valid timestamp. Its position in the week moves back by that many seconds, modulo a week, and its microsecond is kept. |
| `MemConsumers.DefaultParams` | memory_consumer/mem_consumer.py:43-47 | The defaults give at least 100 MB, a positive time slot, a negative (unbounded) duration, slope 0 and no start from the pattern beginning. |
| `MemConsumers.ChunkSize` | memory_consumer/mem_consumer.py:68 | A chunk is the maximal memory divided by 100, rounded down. It is at least 1 MB once the maximum is at least 100. |
| `MemConsumers.CorrectionSplit` | memory_consumer/mem_consumer.py:71-75 | `correction*chunk + rest == proc` and `0 <= rest < chunk`. |
| `MemConsumers.MemConsumer.constructor` | memory_consumer/mem_consumer.py:61-75 | Starts with no chunks. Sets the chunk size and the correction/rest split of the startup measurement, and establishes the class invariant. |
| `MemConsumers.MemConsumer.TrackedMega` | memory_consumer/mem_consumer.py:123-128 | Under the class invariant, the tracked total is the startup measurement minus its rest for an empty list, and the startup measurement plus the chunk sizes otherwise. |
| `MemConsumers.MemConsumer.ChangeAllocation` | memory_consumer/mem_consumer.py:144-157 | The list becomes `Resized(old, alloc - correction)`. It holds exactly `max(0, alloc - correction)` chunks and keeps the chunk-size invariant. When `alloc >= correction`, the tracked memory is `alloc * chunk`. |
| `MemConsumers.MemConsumer.ResetOnDrift` | memory_consumer/mem_consumer.py:214-222 | The list is emptied exactly when the OS-measured memory differs from the tracked total by more than 3 chunks. Otherwise it is untouched. |
| `MemConsumers.MemConsumer.Allocate` | memory_consumer/mem_consumer.py:204-222 | The list after one tick's allocation and drift check is `AfterTick` of the list before, the target and the OS measurement. |
| `MemConsumers.MemConsumer.RunProcess` | memory_consumer/mem_consumer.py:187-234 | The loop stops on its own only when `steps_number > 0`, and then after exactly `steps_number + 1` ticks. With `steps_number <= 0` it ends only when interrupted. It cannot fail when the time slot is positive and every tick up to `steps_number` (every input, when unbounded) has a target. A failed run had targets for all its earlier ticks and failed in one of three ways: a division by zero for slot 0, a negative sleep after tick 0 for a negative slot, or the error of the target of the tick at which it stopped. A slot `<= 0` completes no tick. Tick `k` allocates `TickTarget` at step `k`, and the final list is the `Replay` of those allocations over the initial list, the tick whose sleep fails included. |
| `MemConsumers.Resized` | memory_consumer/mem_consumer.py:144-156 | The list holds `max(0, target)` chunks. Existing positions keep their chunk, and new position `k` gets `chunk - rest` MB for `k == 0` and `chunk` MB otherwise. |
| `MemConsumers.ResizedKeepsPrefix` | memory_consumer/mem_consumer.py:144-156 | Growing keeps every existing chunk and only appends. Shrinking keeps a prefix. |
| `MemConsumers.ResizedWellShaped` | memory_consumer/mem_consumer.py:146-156 | Resizing keeps chunk 0 at `chunk - rest` MB and every other chunk at `chunk` MB. |
| `MemConsumers.ResizedIdempotent` | memory_consumer/mem_consumer.py:144-156 | A second resize to the same target changes nothing. |
| `MemConsumers.ChunkTotal` | memory_consumer/mem_consumer.py:146-154 | A non-empty list totals `len*chunk - rest` MB. |
| `MemConsumers.ExactAccounting` | memory_consumer/mem_consumer.py:125-128 | For a non-empty list, the startup memory plus the chunks equals the tracked total `(len + correction) * chunk` exactly. |
| `MemConsumers.Accounting` | memory_consumer/mem_consumer.py:123-128 | With the startup split, `(len + correction) * chunk` is the startup memory minus the rest for an empty list, and the startup memory plus the chunks otherwise. |
| `MemConsumers.ChunksPositive` | memory_consumer/mem_consumer.py:146-154 | Every chunk holds at least 1 MB. |
| `MemConsumers.StepsInPattern` | memory_consumer/mem_consumer.py:175-178 | The number of slots in one pattern cycle fails exactly when the type is empty or the slot is 0, with those two errors. |
| `MemConsumers.StepsInPatternIsFloor` | memory_consumer/mem_consumer.py:175-178 | For a non-empty type and a non-zero slot, the count is Python's floor of the cycle length in seconds over the slot: `n*slot <= seconds < n*slot + slot` for a positive slot, mirrored for a negative one. |
| `MemConsumers.TrendMultiplier` | memory_consumer/mem_consumer.py:175-179 | The multiplier exists exactly when the slot count exists and is non-zero. |
| `MemConsumers.TrendStartsAtOne` | memory_consumer/mem_consumer.py:175-179 | Whether the multiplier can be computed does not depend on the step. At step 0 it is 1. |
| `MemConsumers.TrendPerCycle` | memory_consumer/mem_consumer.py:175-179 | After `k` full passes through the pattern (`k * steps` steps), the multiplier is `1 + k*slope`. |
| `MemConsumers.TrendIsLinear` | memory_consumer/mem_consumer.py:175-179 | Each step adds `slope / (duration_seconds // time_slot)`, and that denominator is non-zero. |
| `MemConsumers.StartShift` | memory_consumer/mem_consumer.py:189-195 | The shift is 0 unless the run starts from the pattern beginning. For a valid start time it is non-negative, and shorter than one cycle for a supported type. Its value moves the start time back to the cycle start (see `StartFromBeginning`). |
| `MemConsumers.StartFromBeginning` | memory_consumer/mem_consumer.py:191-200 | With `start_from_beginning` set, the start time minus the shift is exactly the cycle start, and for a supported type with a non-zero resolution it builds the all-zeros key, the first row of the pattern. |
| `MemConsumers.TickTarget` | memory_consumer/mem_consumer.py:198-203 | A tick has a target only when the pattern holds a value at `now - shift`. Failures are those of the lookup and of the trend. |
| `MemConsumers.TargetWithTrend` | memory_consumer/mem_consumer.py:202-203 | With a positive slope, a pattern value `v` and a multiplier `m`, the target is `int(v * m)`, truncated towards zero. |
| `MemConsumers.TargetWithTrendGrows` | memory_consumer/mem_consumer.py:202-203 | With a positive slope, a positive slot count and a non-negative value, no tick's target falls below the pattern value. |
| `MemConsumers.TargetPerCycle` | memory_consumer/mem_consumer.py:175-203 | For a positive slope, after `k` full passes through the pattern, the target is `int(v * (1 + k*slope))`. |
| `MemConsumers.StepsNumber` | memory_consumer/mem_consumer.py:188 | Fails exactly for slot 0. For a positive slot it is the floor of duration over slot: `n*slot <= duration < (n+1)*slot`. |
| `MemConsumers.TargetWithoutTrend` | memory_consumer/mem_consumer.py:198-204 | Without a positive slope, a tick's target is the pattern value itself. A missing value fails. |
| `MemConsumers.TargetAtFirstStep` | memory_consumer/mem_consumer.py:202-203 | With a positive slope, the first tick's target is still the pattern value. |
| `MemConsumers.DefaultsFollowPattern` | memory_consumer/mem_consumer.py:187-203 | With the default parameters `steps_number` is -1, so the loop never finishes by itself, the shift is 0, and every target is the pattern value at the clock reading. |
| `MemConsumers.AfterTick` | memory_consumer/mem_consumer.py:204-222 | After one tick the list is empty, or it holds `max(0, target - correction)` chunks and its tracked total is within 3 chunks of the OS measurement. The chunk-size invariant is kept. |
| `MemConsumers.Replay` | memory_consumer/mem_consumer.py:197-232 | After a run of ticks the list is empty or sized for the last target, and the chunk-size invariant is kept. |
| `MemConsumers.ReplayStep` | memory_consumer/mem_consumer.py:197-232 | One more tick applies one more `AfterTick` to the replayed list. |
| `MemConsumers.ReplayAppend` | memory_consumer/mem_consumer.py:197-232 | Replaying two runs of ticks in turn is the same as replaying them together. |
| `MemConsumers.ReplayForgetsBeforeReset` | memory_consumer/mem_consumer.py:214-222 | After a reset empties the list, the later ticks act as if the run had started from an empty list. |
| `MemConsumers.SteadyTick` | memory_consumer/mem_consumer.py:144-222 | A tick whose drift check kept its list leaves that list unchanged when it is repeated with the same target and measurement: the resize is a no-op and the drift check passes again. |
| `PatternScenarios.SecondTable` | tests/test_mem_pattern.py:37-43 | A complete `s` table has resolution 1, duration 60 and a 60 s cycle, and 30 steps of 2 s. |
| `PatternScenarios.MinuteTable` | tests/test_mem_pattern.py:19-25 | A complete `m` table has resolution 1, duration 60 and a 3600 s cycle, and 720 steps of 5 s. |
| `PatternScenarios.MinuteSecondTable` | tests/test_mem_pattern.py:28-34 | A complete `m,s` table has resolution 30, duration 3600 and a 3600 s cycle, and 720 steps of 5 s. |
| `PatternScenarios.DayHourMinuteTable` | tests/test_mem_pattern.py:10-16 | A complete `d,h,m` table has resolution 5, duration 7*24*60 and a one-week cycle, and 120960 steps of 5 s. |
| `PatternScenarios.HalfMinuteTable` | memory_consumer/mem_pattern.py:94-98 | With the `s` table `{0: 60, 30: 10}` (resolution 30, cycle 60 s), seconds 0-29 fall into bucket 0 and read 60, and seconds 30-59 fall into bucket 30 and read 10. |
| `PatternScenarios.MinuteSecondBuckets` | tests/test_mem_pattern.py:95-111 | With resolution 30, 59:30 and 59:59 share the key (59, 30) and the value, and 59:29 has (59, 0). |
| `PatternScenarios.DayHourMinuteBuckets` | tests/test_mem_pattern.py:46-62 | With resolution 5, Tuesday 00:00 and 00:01 share the key (1, 0, 0) and the value. |
| `PatternScenarios.TimeShiftExamples` | tests/test_mem_pattern.py:136-214 | The shifts the tests expect for `s`, `m`, `m,s` and `d,h,m` timestamps. |

## Behaviour of note

- Rows are not checked against the header's arity. Only the indexes the loop reads (`item[-1]`, and `item[-2]` in the first two rows) can fail.
- A resolution of 0 (or a negative one) is accepted at construction. Resolution 0 fails later, with a division by zero, when a key is built for a supported type. A negative resolution buckets with floor division.
- A missing key is not a lookup error. Without noise, `get_value` returns `None`. With noise, `_noise_value` raises a `TypeError`. In the run loop, a `None` target raises a `TypeError`.
- The trend is applied only for a strictly positive slope. A negative slope is ignored by the run loop, though `get_trend_multiplier` accepts it.

## Left out

- CSV reading and `int()` parsing: the header (absent for an empty file) and the rows of integers are inputs.
- psutil (`os_allocated_memory_mega`, `memory_info`): the startup measurement and the per-tick measurement are integer parameters.
- `datetime.now()`, `sleep` and the settle interval: clock readings arrive with each tick. Weekday, hour, minute and second are taken as given, with no calendar conversion.
- `KeyboardInterrupt`: modelled as the input ticks running out between ticks. An interrupt in the middle of a tick is not modelled.
- `bytearray` contents and `gc`: chunks are modelled by their size in MB.
- Float rounding: the trend multiplier and the scaled target are computed over reals, so the tests' exact float equalities are not reproduced.
- `random.randint`: modelled as `lo + draw % (hi - lo + 1)` for an arbitrary `draw`.
- `__str__`, `__repr__` and the printed status lines.
- `memory_consumer/start_mem_consumer.py`, which is argument and environment-variable handling. Only its `max_ram_mega >= 100` check is kept.
- `setup.py`, which is packaging metadata.
- MemConsumers.MemConsumer.constructor: requires `max_ram_mega >= 100`, the check start_mem_consumer.py makes before constructing. The division by zero the source's constructor raises for `0 <= max_ram_mega <= 99` (chunk size 0) is not modelled, nor the negative chunk size (no exception) a negative `max_ram_mega` gives.
