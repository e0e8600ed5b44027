/**
 * The pattern tables and timestamps the repository's tests use, and what
 * the model proves about them: complete tables of the `s`, `m`, `m,s` and
 * `d,h,m` granularities, their cycle lengths and the trend denominators
 * derived from them.
 */
module PatternScenarios {
  import opened Wrappers
  import opened PyRuntime
  import opened DateTimes
  import opened MemPatterns
  import opened MemConsumers

  /** A one-column table (`s` or `m`) with one row per second or per minute. */
  function UnitRows(vals: seq<int>): (rows: seq<seq<int>>)
    requires |vals| == 60
    ensures |rows| == 60
  {
    seq(60, i requires 0 <= i < 60 => [i, vals[i]])
  }

  /** A `m,s` table with one row per half minute. */
  function MinuteSecondRows(vals: seq<int>): (rows: seq<seq<int>>)
    requires |vals| == 120
    ensures |rows| == 120
  {
    seq(120, i requires 0 <= i < 120 => [i / 2, (i % 2) * 30, vals[i]])
  }

  /** A `d,h,m` table with one row per five minutes of the week. */
  function DayHourMinuteRows(vals: seq<int>): (rows: seq<seq<int>>)
    requires |vals| == 2016
    ensures |rows| == 2016
  {
    seq(2016, i requires 0 <= i < 2016 => [i / 288, (i / 12) % 24, (i % 12) * 5, vals[i]])
  }

  /** A complete `s` table: resolution 1, 60 seconds, 30 steps of 2 s. */
  lemma SecondTable(noisePercent: int, vals: seq<int>)
    requires |vals| == 60
    ensures Build(noisePercent, Some(["s", "value"]), UnitRows(vals)).Ok?
    ensures var p := Build(noisePercent, Some(["s", "value"]), UnitRows(vals)).value;
      && p.resolution == 1 && p.duration == 60
      && DurationInSeconds(p) == Ok(CycleSpan(Second))
      && StepsInPattern(p, 2) == Ok(30)
  {
    var rows := UnitRows(vals);
    BuildSucceeds(noisePercent, Some(["s", "value"]), rows);
    forall i, j | 0 <= i < j < |rows| ensures KeyOf(rows[i]) != KeyOf(rows[j]) {
      assert KeyOf(rows[i]) == [i] && KeyOf(rows[j]) == [j];
    }
    BuildDistinctDuration(noisePercent, Some(["s", "value"]), rows);
    assert DropLast(["s", "value"]) == ["s"];
  }

  /** A complete `m` table: resolution 1, 60 minutes, one hour, 720 steps of 5 s. */
  lemma MinuteTable(noisePercent: int, vals: seq<int>)
    requires |vals| == 60
    ensures Build(noisePercent, Some(["m", "value"]), UnitRows(vals)).Ok?
    ensures var p := Build(noisePercent, Some(["m", "value"]), UnitRows(vals)).value;
      && p.resolution == 1 && p.duration == 60
      && DurationInSeconds(p) == Ok(CycleSpan(Minute))
      && StepsInPattern(p, 5) == Ok(720)
  {
    var rows := UnitRows(vals);
    BuildSucceeds(noisePercent, Some(["m", "value"]), rows);
    forall i, j | 0 <= i < j < |rows| ensures KeyOf(rows[i]) != KeyOf(rows[j]) {
      assert KeyOf(rows[i]) == [i] && KeyOf(rows[j]) == [j];
    }
    BuildDistinctDuration(noisePercent, Some(["m", "value"]), rows);
    assert DropLast(["m", "value"]) == ["m"];
  }

  /** A complete `m,s` table: resolution 30, 3600 seconds, 720 steps of 5 s. */
  lemma MinuteSecondTable(noisePercent: int, vals: seq<int>)
    requires |vals| == 120
    ensures Build(noisePercent, Some(["m", "s", "value"]), MinuteSecondRows(vals)).Ok?
    ensures var p := Build(noisePercent, Some(["m", "s", "value"]), MinuteSecondRows(vals)).value;
      && p.resolution == 30 && p.duration == 60 * 60
      && DurationInSeconds(p) == Ok(CycleSpan(MinuteSecond))
      && StepsInPattern(p, 5) == Ok(720)
  {
    var rows := MinuteSecondRows(vals);
    var header := Some(["m", "s", "value"]);
    BuildSucceeds(noisePercent, header, rows);
    forall i, j | 0 <= i < j < |rows| ensures KeyOf(rows[i]) != KeyOf(rows[j]) {
      assert KeyOf(rows[i]) == [i / 2, (i % 2) * 30];
      assert KeyOf(rows[j]) == [j / 2, (j % 2) * 30];
    }
    BuildDistinctDuration(noisePercent, header, rows);
    assert DropLast(["m", "s", "value"]) == ["m", "s"];
  }

  /** The position of row `i` of the week table is recovered from its day, hour and minute. */
  lemma WeekRowIndex(i: int)
    requires 0 <= i < 2016
    ensures i == (i / 288) * 288 + ((i / 12) % 24) * 12 + i % 12
  {
    var q := i / 12;
    assert i == q * 12 + i % 12;
    assert q == (q / 24) * 24 + q % 24;
    assert q / 24 == i / 288;
  }

  /** A complete `d,h,m` table: resolution 5, 7*24*60 minutes, one week, 120960 steps of 5 s. */
  lemma DayHourMinuteTable(noisePercent: int, vals: seq<int>)
    requires |vals| == 2016
    ensures Build(noisePercent, Some(["d", "h", "m", "value"]), DayHourMinuteRows(vals)).Ok?
    ensures var p := Build(noisePercent, Some(["d", "h", "m", "value"]), DayHourMinuteRows(vals)).value;
      && p.resolution == 5 && p.duration == 7 * 24 * 60
      && DurationInSeconds(p) == Ok(CycleSpan(DayHourMinute))
      && StepsInPattern(p, 5) == Ok(120960)
  {
    var rows := DayHourMinuteRows(vals);
    var header := Some(["d", "h", "m", "value"]);
    BuildSucceeds(noisePercent, header, rows);
    forall i, j | 0 <= i < j < |rows| ensures KeyOf(rows[i]) != KeyOf(rows[j]) {
      assert KeyOf(rows[i]) == [i / 288, (i / 12) % 24, (i % 12) * 5];
      assert KeyOf(rows[j]) == [j / 288, (j / 12) % 24, (j % 12) * 5];
      WeekRowIndex(i);
      WeekRowIndex(j);
    }
    BuildDistinctDuration(noisePercent, header, rows);
    assert DropLast(["d", "h", "m", "value"]) == ["d", "h", "m"];
  }

  /** The two-row `s` table `{0: 60, 30: 10}`: the first half minute reads 60, the second 10. */
  lemma HalfMinuteTable(t: Timestamp, draw: nat)
    requires Valid(t)
    ensures Build(0, Some(["s", "value"]), [[0, 60], [30, 10]]).Ok?
    ensures var p := Build(0, Some(["s", "value"]), [[0, 60], [30, 10]]).value;
      && p.resolution == 30
      && DurationInSeconds(p) == Ok(60)
      && GetValue(p, t, draw) == Ok(Some(if t.second < 30 then 60 else 10))
  {
    var rows := [[0, 60], [30, 10]];
    var header := Some(["s", "value"]);
    BuildSucceeds(0, header, rows);
    BuildDistinctDuration(0, header, rows);
    BuildLastWins(0, header, rows, 0);
    BuildLastWins(0, header, rows, 1);
    assert DropLast(["s", "value"]) == ["s"];
    var p := Build(0, header, rows).value;
    assert KeyOf(rows[0]) == [0] && KeyOf(rows[1]) == [30];
    assert p.data[[0]] == 60 && p.data[[30]] == 10;
    if t.second < 30 {
      BucketOfInterval(t.second, 0, 30);
      assert BuildKey(p.patternType, 30, t) == Ok(Some([0]));
    } else {
      BucketOfInterval(t.second, 1, 30);
      assert BuildKey(p.patternType, 30, t) == Ok(Some([30]));
    }
  }

  /** In an `m,s` table of resolution 30, 2:59:30 and 2:59:59 share the key (59, 30), and 0:59:29 has (59, 0). */
  lemma MinuteSecondBuckets(p: MemPattern, draw: nat)
    requires p.patternType == ["m", "s"] && p.resolution == 30
    ensures BuildKey(p.patternType, p.resolution, Timestamp(5, 2, 59, 30, 0)) == Ok(Some([59, 30]))
    ensures BuildKey(p.patternType, p.resolution, Timestamp(5, 2, 59, 59, 0)) == Ok(Some([59, 30]))
    ensures BuildKey(p.patternType, p.resolution, Timestamp(2, 0, 59, 29, 0)) == Ok(Some([59, 0]))
    ensures GetValue(p, Timestamp(5, 2, 59, 30, 0), draw) == GetValue(p, Timestamp(5, 2, 59, 59, 0), draw)
  {
    BucketOfInterval(30, 1, 30);
    BucketOfInterval(59, 1, 30);
    BucketOfInterval(29, 0, 30);
  }

  /** In a `d,h,m` table of resolution 5, Tuesday 00:00 and 00:01 share the key (1, 0, 0). */
  lemma DayHourMinuteBuckets(p: MemPattern, draw: nat)
    requires p.patternType == ["d", "h", "m"] && p.resolution == 5
    ensures BuildKey(p.patternType, p.resolution, Timestamp(1, 0, 0, 0, 0)) == Ok(Some([1, 0, 0]))
    ensures BuildKey(p.patternType, p.resolution, Timestamp(1, 0, 1, 0, 0)) == Ok(Some([1, 0, 0]))
    ensures GetValue(p, Timestamp(1, 0, 0, 0, 0), draw) == GetValue(p, Timestamp(1, 0, 1, 0, 0), draw)
  {
    BucketOfInterval(0, 0, 5);
    BucketOfInterval(1, 0, 5);
  }

  /** The shifts the tests expect: seconds for `s`, minutes and seconds for `m,s`, the week for `d,h,m`. */
  lemma TimeShiftExamples()
    ensures TimeShift(["s"], Timestamp(5, 2, 59, 18, 0)) == 18
    ensures TimeShift(["m"], Timestamp(0, 2, 59, 18, 0)) == 59 * 60 + 18
    ensures TimeShift(["m", "s"], Timestamp(0, 2, 0, 15, 0)) == 15
    ensures TimeShift(["d", "h", "m"], Timestamp(3, 2, 0, 15, 0)) == 3 * 86400 + 2 * 3600 + 15
    ensures TimeShift(["d", "h", "m"], Timestamp(6, 15, 1, 18, 0)) == 6 * 86400 + 15 * 3600 + 60 + 18
  {
  }
}
