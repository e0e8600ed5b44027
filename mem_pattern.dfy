/**
 * The time-dependent memory pattern: a cyclic lookup table keyed by the
 * time components named in the csv header, built once from the csv rows,
 * bucketed to the resolution inferred from the first two rows, and read with
 * optional bounded noise.
 */
module MemPatterns {
  import opened Wrappers
  import opened PyRuntime
  import opened DateTimes

  /** The five header shapes the pattern understands. */
  datatype Granularity = Second | Minute | MinuteSecond | HourMinute | DayHourMinute

  /** Which granularity a pattern type (the header without its value column) names, if any. */
  function GranularityOf(patternType: seq<string>): Option<Granularity> {
    if patternType == ["s"] then Some(Second)
    else if patternType == ["m"] then Some(Minute)
    else if patternType == ["m", "s"] then Some(MinuteSecond)
    else if patternType == ["h", "m"] then Some(HourMinute)
    else if patternType == ["d", "h", "m"] then Some(DayHourMinute)
    else None
  }

  /** A loaded pattern. `duration` counts smallest units (minutes or seconds). */
  datatype MemPattern = MemPattern(
    noisePercent: int,
    patternType: seq<string>,
    data: map<seq<int>, int>,
    resolution: int,
    duration: int)

  // ---------------------------------------------------------------------------
  // Rows of the csv file

  /** A row is keyed by every column but the last. */
  function KeyOf(row: seq<int>): seq<int>
    requires |row| > 0
  {
    row[..|row| - 1]
  }

  /** The last column of a row is its value. */
  function ValueOf(row: seq<int>): int
    requires |row| > 0
  {
    row[|row| - 1]
  }

  /** The column the resolution is read from. */
  function SecondToLast(row: seq<int>): int
    requires |row| >= 2
  {
    row[|row| - 2]
  }

  /** Row `i` is read at index -1, and the first two rows also at index -2. */
  function MinRowLength(i: nat): nat {
    if i < 2 then 2 else 1
  }

  ghost predicate RowsWellFormed(rows: seq<seq<int>>) {
    forall i :: 0 <= i < |rows| ==> |rows[i]| >= MinRowLength(i)
  }

  ghost predicate NonEmptyRows(rows: seq<seq<int>>) {
    forall i :: 0 <= i < |rows| ==> |rows[i]| > 0
  }

  /** The index of the first row, from `from` on, that is too short to be read. */
  function FirstShortRow(rows: seq<seq<int>>, from: nat): (r: Option<nat>)
    requires from <= |rows|
    decreases |rows| - from
    ensures r.None? ==> forall i :: from <= i < |rows| ==> |rows[i]| >= MinRowLength(i)
    ensures r.Some? ==> from <= r.value < |rows| && |rows[r.value]| < MinRowLength(r.value)
    ensures r.Some? ==> forall i :: from <= i < r.value ==> |rows[i]| >= MinRowLength(i)
  {
    if from == |rows| then None
    else if |rows[from]| < MinRowLength(from) then Some(from)
    else FirstShortRow(rows, from + 1)
  }

  /** A row that is too short, after readable ones only, is the first short row. */
  lemma FirstShortRowAt(rows: seq<seq<int>>, i: nat)
    requires i < |rows| && |rows[i]| < MinRowLength(i)
    requires forall j :: 0 <= j < i ==> |rows[j]| >= MinRowLength(j)
    ensures FirstShortRow(rows, 0) == Some(i)
  {
  }

  /** The table the rows fill, in file order, a later row overwriting an earlier one. */
  function Ingest(rows: seq<seq<int>>): map<seq<int>, int>
    requires NonEmptyRows(rows)
  {
    if rows == [] then map[]
    else
      var last := rows[|rows| - 1];
      Ingest(rows[..|rows| - 1])[KeyOf(last) := ValueOf(last)]
  }

  /** The keys the rows name. */
  ghost function RowKeys(rows: seq<seq<int>>): set<seq<int>>
    requires NonEmptyRows(rows)
  {
    set i | 0 <= i < |rows| :: KeyOf(rows[i])
  }

  /** The pattern type is the header without its last column. */
  function DropLast(header: seq<string>): seq<string> {
    if |header| == 0 then [] else header[..|header| - 1]
  }

  /**
   * What loading the csv yields: the header (missing when the file is empty)
   * and the data rows parsed as integers.
   */
  function Build(noisePercent: int, header: Option<seq<string>>, rows: seq<seq<int>>): (r: Result<MemPattern, Error>)
    ensures r.Ok? ==> header.Some? && |rows| >= 2
    ensures r.Ok? ==> r.value.noisePercent == noisePercent && r.value.patternType == DropLast(header.value)
    ensures r.Err? ==> r.error == HeaderMissing || r.error == ResolutionUnset || r.error.RowTooShort?
  {
    if header.None? then Err(HeaderMissing)
    else match FirstShortRow(rows, 0)
      case Some(i) => Err(RowTooShort(i))
      case None =>
        if |rows| < 2 then Err(ResolutionUnset)
        else
          assert NonEmptyRows(rows) by {
            forall i | 0 <= i < |rows| ensures |rows[i]| > 0 {
              assert |rows[i]| >= MinRowLength(i);
            }
          }
          var data := Ingest(rows);
          var resolution := SecondToLast(rows[1]) - SecondToLast(rows[0]);
          Ok(MemPattern(noisePercent, DropLast(header.value), data, resolution, |data| * resolution))
  }

  /** Reading the rows one by one, as the constructor does. */
  method Load(noisePercent: int, header: Option<seq<string>>, rows: seq<seq<int>>) returns (r: Result<MemPattern, Error>)
    ensures r == Build(noisePercent, header, rows)
  {
    if header.None? {
      return Err(HeaderMissing);
    }
    var patternType := DropLast(header.value);
    var data: map<seq<int>, int> := map[];
    var res := 0;
    var resolution: Option<int> := None;
    var i := 0;
    while i < |rows|
      invariant 0 <= i <= |rows|
      invariant forall j :: 0 <= j < i ==> |rows[j]| >= MinRowLength(j)
      invariant NonEmptyRows(rows[..i]) && data == Ingest(rows[..i])
      invariant i > 0 ==> res == SecondToLast(rows[0])
      invariant resolution == if i < 2 then None else Some(SecondToLast(rows[1]) - SecondToLast(rows[0]))
    {
      var item := rows[i];
      if |item| == 0 {
        FirstShortRowAt(rows, i);
        return Err(RowTooShort(i));
      }
      assert rows[..i + 1][..i] == rows[..i];
      data := data[item[..|item| - 1] := item[|item| - 1]];
      if i == 0 {
        if |item| < 2 {
          FirstShortRowAt(rows, i);
          return Err(RowTooShort(i));
        }
        res := item[|item| - 2];
      }
      if i == 1 {
        if |item| < 2 {
          FirstShortRowAt(rows, i);
          return Err(RowTooShort(i));
        }
        resolution := Some(item[|item| - 2] - res);
      }
      i := i + 1;
    }
    assert rows[..i] == rows;
    if resolution.None? {
      return Err(ResolutionUnset);
    }
    r := Ok(MemPattern(noisePercent, patternType, data, resolution.value, |data| * resolution.value));
  }

  // ---------------------------------------------------------------------------
  // What construction yields

  /** The table holds exactly the keys the rows name. */
  lemma {:induction false} IngestKeys(rows: seq<seq<int>>)
    requires NonEmptyRows(rows)
    ensures Ingest(rows).Keys == RowKeys(rows)
  {
    if rows != [] {
      var init := rows[..|rows| - 1];
      IngestKeys(init);
      assert RowKeys(rows) == RowKeys(init) + {KeyOf(rows[|rows| - 1])} by {
        forall k | k in RowKeys(rows) ensures k in RowKeys(init) + {KeyOf(rows[|rows| - 1])} {
          var i :| 0 <= i < |rows| && k == KeyOf(rows[i]);
          if i < |rows| - 1 {
            assert init[i] == rows[i];
          }
        }
        forall k | k in RowKeys(init) ensures k in RowKeys(rows) {
          var i :| 0 <= i < |init| && k == KeyOf(init[i]);
          assert rows[i] == init[i];
        }
      }
    }
  }

  /** A key holds the value of the last row that names it. */
  lemma {:induction false} IngestLastWins(rows: seq<seq<int>>, j: nat)
    requires NonEmptyRows(rows) && j < |rows|
    requires forall i :: j < i < |rows| ==> KeyOf(rows[i]) != KeyOf(rows[j])
    ensures KeyOf(rows[j]) in Ingest(rows) && Ingest(rows)[KeyOf(rows[j])] == ValueOf(rows[j])
  {
    if j < |rows| - 1 {
      var init := rows[..|rows| - 1];
      assert init[j] == rows[j];
      IngestLastWins(init, j);
    }
  }

  /** Rows with pairwise distinct keys give one entry each. */
  lemma {:induction false} IngestDistinct(rows: seq<seq<int>>)
    requires NonEmptyRows(rows)
    requires forall i, j :: 0 <= i < j < |rows| ==> KeyOf(rows[i]) != KeyOf(rows[j])
    ensures |Ingest(rows)| == |rows|
  {
    if rows != [] {
      var init := rows[..|rows| - 1];
      IngestDistinct(init);
      IngestKeys(init);
      assert KeyOf(rows[|rows| - 1]) !in Ingest(init);
    }
  }

  /** Construction succeeds exactly when there is a header, at least two rows, and every row can be read. */
  lemma BuildSucceeds(noisePercent: int, header: Option<seq<string>>, rows: seq<seq<int>>)
    ensures Build(noisePercent, header, rows).Ok? <==> header.Some? && |rows| >= 2 && RowsWellFormed(rows)
    ensures Build(noisePercent, header, rows).Err? ==>
      Build(noisePercent, header, rows).error in {HeaderMissing, ResolutionUnset} ||
      (Build(noisePercent, header, rows).error.RowTooShort? &&
       var i := Build(noisePercent, header, rows).error.row;
       i < |rows| && |rows[i]| < MinRowLength(i) && RowsWellFormed(rows[..i]))
  {
    var r := FirstShortRow(rows, 0);
    if r.Some? {
      var i := r.value;
      forall k | 0 <= k < i ensures |rows[..i][k]| >= MinRowLength(k) {
        assert rows[..i][k] == rows[k];
      }
    }
  }

  /**
   * A constructed pattern: its resolution is the step between the second-to-last
   * columns of the first two rows, its keys are the rows' keys, and its duration
   * is the number of distinct keys times the resolution.
   */
  lemma BuildShape(noisePercent: int, header: Option<seq<string>>, rows: seq<seq<int>>)
    requires Build(noisePercent, header, rows).Ok?
    ensures |rows| >= 2 && RowsWellFormed(rows) && NonEmptyRows(rows)
    ensures var p := Build(noisePercent, header, rows).value;
      && p.noisePercent == noisePercent
      && p.patternType == DropLast(header.value)
      && p.resolution == rows[1][|rows[1]| - 2] - rows[0][|rows[0]| - 2]
      && p.data.Keys == RowKeys(rows)
      && p.duration == |RowKeys(rows)| * p.resolution
  {
    BuildSucceeds(noisePercent, header, rows);
    assert NonEmptyRows(rows) by {
      forall i | 0 <= i < |rows| ensures |rows[i]| > 0 {
        assert |rows[i]| >= MinRowLength(i);
      }
    }
    IngestKeys(rows);
  }

  /** In a constructed pattern every key holds the value of the last row naming it. */
  lemma BuildLastWins(noisePercent: int, header: Option<seq<string>>, rows: seq<seq<int>>, j: nat)
    requires Build(noisePercent, header, rows).Ok?
    requires j < |rows| && |rows[j]| > 0
    requires forall i :: j < i < |rows| && |rows[i]| > 0 ==> KeyOf(rows[i]) != KeyOf(rows[j])
    ensures var p := Build(noisePercent, header, rows).value;
      KeyOf(rows[j]) in p.data && p.data[KeyOf(rows[j])] == ValueOf(rows[j])
  {
    BuildShape(noisePercent, header, rows);
    IngestLastWins(rows, j);
  }

  /** With distinct keys the duration is the row count times the resolution. */
  lemma BuildDistinctDuration(noisePercent: int, header: Option<seq<string>>, rows: seq<seq<int>>)
    requires Build(noisePercent, header, rows).Ok?
    requires forall i, j :: 0 <= i < j < |rows| && |rows[i]| > 0 && |rows[j]| > 0 ==> KeyOf(rows[i]) != KeyOf(rows[j])
    ensures var p := Build(noisePercent, header, rows).value;
      |p.data| == |rows| && p.duration == |rows| * p.resolution
  {
    BuildShape(noisePercent, header, rows);
    IngestDistinct(rows);
  }

  /** A row repeating an earlier key replaces its value and adds no entry. */
  lemma IngestOverwrite(rows: seq<seq<int>>, row: seq<int>)
    requires NonEmptyRows(rows) && |row| > 0
    requires exists i :: 0 <= i < |rows| && |rows[i]| > 0 && KeyOf(rows[i]) == KeyOf(row)
    ensures NonEmptyRows(rows + [row])
    ensures |Ingest(rows + [row])| == |Ingest(rows)|
    ensures Ingest(rows + [row])[KeyOf(row)] == ValueOf(row)
  {
    var all := rows + [row];
    assert all[..|all| - 1] == rows;
    IngestKeys(rows);
    var i :| 0 <= i < |rows| && |rows[i]| > 0 && KeyOf(rows[i]) == KeyOf(row);
    assert KeyOf(row) in Ingest(rows);
  }

  // ---------------------------------------------------------------------------
  // Keys

  /** The start of the resolution bucket holding `c`. */
  function Bucket(c: int, r: int): int
    requires r != 0
  {
    FloorDiv(c, r) * r
  }

  /**
   * The key a timestamp is looked up under; `Ok(None)` stands for the
   * `(None, None)` returned for an unsupported pattern type, which matches no row.
   */
  function BuildKey(patternType: seq<string>, r: int, t: Timestamp): (key: Result<Option<seq<int>>, Error>)
    ensures key.Ok? && key.value.Some? ==> |key.value.value| == |patternType|
    ensures key.Err? ==> key.error == ZeroDivision
  {
    match GranularityOf(patternType)
    case None => Ok(None)
    case Some(g) =>
      if r == 0 then Err(ZeroDivision)
      else Ok(Some(
        match g
        case Second => [Bucket(t.second, r)]
        case Minute => [Bucket(t.minute, r)]
        case MinuteSecond => [t.minute, Bucket(t.second, r)]
        case HourMinute => [t.hour, Bucket(t.minute, r)]
        case DayHourMinute => [t.weekday, t.hour, Bucket(t.minute, r)]))
  }

  /** The timestamp field a header column names. */
  function Component(unit: string, t: Timestamp): int {
    if unit == "d" then t.weekday
    else if unit == "h" then t.hour
    else if unit == "m" then t.minute
    else t.second
  }

  /** The timestamp fields the pattern type names, in header order. */
  function Fields(patternType: seq<string>, t: Timestamp): (f: seq<int>)
    ensures |f| == |patternType|
  {
    seq(|patternType|, i requires 0 <= i < |patternType| => Component(patternType[i], t))
  }

  /**
   * For every supported type the key has one component per header column:
   * the fields the header names, unchanged, except the last, which is bucketed.
   */
  lemma KeyFollowsHeader(patternType: seq<string>, r: int, t: Timestamp)
    requires GranularityOf(patternType).Some? && r != 0
    ensures |patternType| > 0
    ensures var f := Fields(patternType, t);
      BuildKey(patternType, r, t) == Ok(Some(f[..|f| - 1] + [Bucket(f[|f| - 1], r)]))
  {
    var f := Fields(patternType, t);
    var key := f[..|f| - 1] + [Bucket(f[|f| - 1], r)];
    match GranularityOf(patternType).value
    case Second =>
      assert f == [Component("s", t)];
      assert key == [Bucket(t.second, r)];
    case Minute =>
      assert f == [Component("m", t)];
      assert key == [Bucket(t.minute, r)];
    case MinuteSecond =>
      assert f == [Component("m", t), Component("s", t)];
      assert key == [t.minute, Bucket(t.second, r)];
    case HourMinute =>
      assert f == [Component("h", t), Component("m", t)];
      assert key == [t.hour, Bucket(t.minute, r)];
    case DayHourMinute =>
      assert f == [Component("d", t), Component("h", t), Component("m", t)];
      assert key == [t.weekday, t.hour, Bucket(t.minute, r)];
  }

  /** No key for an unsupported type, and a division by zero for a zero resolution. */
  lemma KeyErrors(patternType: seq<string>, r: int, t: Timestamp)
    ensures GranularityOf(patternType).None? <==> BuildKey(patternType, r, t) == Ok(None)
    ensures BuildKey(patternType, r, t).Err? <==> GranularityOf(patternType).Some? && r == 0
  {
  }

  /** Multiplying by a positive resolution keeps the order. */
  lemma MulMonotonic(a: int, b: int, r: int)
    requires r > 0 && a <= b
    ensures a * r <= b * r
  {
    assert b * r - a * r == (b - a) * r;
  }

  /** Every component in `[k*r, k*r + r)` falls into the bucket starting at `k*r`. */
  lemma BucketOfInterval(c: int, k: int, r: int)
    requires r > 0 && k * r <= c < k * r + r
    ensures Bucket(c, r) == k * r
  {
    var q := FloorDiv(c, r);
    assert q * r <= c < q * r + r;
    if q < k {
      assert (q + 1) * r == q * r + r;
      MulMonotonic(q + 1, k, r);
    } else if q > k {
      assert (k + 1) * r == k * r + r;
      MulMonotonic(k + 1, q, r);
    }
  }

  /** A bucket starts at a multiple of the resolution, at most one resolution below its members, and bucketing is idempotent. */
  lemma BucketBounds(c: int, r: int)
    requires r > 0
    ensures var b := Bucket(c, r); b <= c < b + r && b % r == 0 && Bucket(b, r) == b
  {
    var q := FloorDiv(c, r);
    var b := q * r;
    BucketOfInterval(b, q, r);
    assert b / r == q by {
      assert b == r * (b / r) + b % r;
      BucketOfInterval(b, b / r, r);
    }
  }

  // ---------------------------------------------------------------------------
  // Cycle length and the cycle start

  /** `get_pattern_duration_in_seconds`: minutes are scaled to seconds. */
  function DurationInSeconds(p: MemPattern): (seconds: Result<int, Error>)
    ensures seconds.Err? <==> |p.patternType| == 0
  {
    if |p.patternType| == 0 then Err(EmptyPatternType)
    else if p.patternType[|p.patternType| - 1] == "m" then Ok(p.duration * 60)
    else Ok(p.duration)
  }

  /** How many seconds one smallest unit of a granularity lasts. */
  function UnitSeconds(g: Granularity): int {
    match g
    case Second | MinuteSecond => 1
    case Minute | HourMinute | DayHourMinute => 60
  }

  /** For every supported type the duration is scaled by the length of its smallest unit. */
  lemma DurationScalesByUnit(p: MemPattern)
    requires GranularityOf(p.patternType).Some?
    ensures DurationInSeconds(p) == Ok(p.duration * UnitSeconds(GranularityOf(p.patternType).value))
  {
  }

  /** The span, in seconds, of one pass through a complete table of a granularity. */
  function CycleSpan(g: Granularity): int {
    match g
    case Second => SecondsPerMinute
    case Minute | MinuteSecond => SecondsPerHour
    case HourMinute => SecondsPerDay
    case DayHourMinute => SecondsPerWeek
  }

  /** The instant the current cycle began: the start of the minute, hour, day or week, same microsecond. */
  function CycleStart(patternType: seq<string>, t: Timestamp): (s: Timestamp)
    ensures Valid(t) ==> Valid(s) && SecondOfWeek(s) <= SecondOfWeek(t)
    ensures s.microsecond == t.microsecond
  {
    match GranularityOf(patternType)
    case None => t
    case Some(Second) => t.(second := 0)
    case Some(Minute) => t.(minute := 0, second := 0)
    case Some(MinuteSecond) => t.(minute := 0, second := 0)
    case Some(HourMinute) => t.(hour := 0, minute := 0, second := 0)
    case Some(DayHourMinute) => t.(weekday := 0, hour := 0, minute := 0, second := 0)
  }

  /** `get_time_shift_from_start`, in whole seconds (the microseconds cancel). */
  function TimeShift(patternType: seq<string>, t: Timestamp): (d: int)
    ensures Valid(t) ==> d >= 0
    ensures Valid(t) && GranularityOf(patternType).Some? ==> d < CycleSpan(GranularityOf(patternType).value)
  {
    SecondOfWeek(t) - SecondOfWeek(CycleStart(patternType, t))
  }

  /** The shift per granularity. */
  lemma TimeShiftByGranularity(patternType: seq<string>, t: Timestamp)
    ensures TimeShift(patternType, t) ==
      match GranularityOf(patternType)
      case None => 0
      case Some(Second) => t.second
      case Some(Minute) | Some(MinuteSecond) => t.minute * 60 + t.second
      case Some(HourMinute) => t.hour * 3600 + t.minute * 60 + t.second
      case Some(DayHourMinute) => t.weekday * 86400 + t.hour * 3600 + t.minute * 60 + t.second
  {
  }

  /** Two valid timestamps at the same second of the week and microsecond are the same. */
  lemma SecondOfWeekInjective(a: Timestamp, b: Timestamp)
    requires Valid(a) && Valid(b) && a.microsecond == b.microsecond
    requires SecondOfWeek(a) == SecondOfWeek(b)
    ensures a == b
  {
    var n := SecondOfWeek(a);
    assert a.weekday == n / 86400 && b.weekday == n / 86400;
    var m := n - a.weekday * 86400;
    assert a.hour == m / 3600 && b.hour == m / 3600;
    var k := m - a.hour * 3600;
    assert a.minute == k / 60 && b.minute == k / 60;
  }

  /** Subtracting no seconds gives the same timestamp back. */
  lemma MinusZero(t: Timestamp)
    requires Valid(t)
    ensures Minus(t, 0) == t
  {
    var u := Minus(t, 0);
    assert SecondOfWeek(u) == SecondOfWeek(t);
    SecondOfWeekInjective(u, t);
  }

  /** Going back by the shift lands exactly on the cycle start. */
  lemma CycleStartIsShiftBack(patternType: seq<string>, t: Timestamp)
    requires Valid(t)
    ensures Minus(t, TimeShift(patternType, t)) == CycleStart(patternType, t)
    ensures SecondOfWeek(CycleStart(patternType, t)) + TimeShift(patternType, t) == SecondOfWeek(t)
  {
    var s := CycleStart(patternType, t);
    var u := Minus(t, TimeShift(patternType, t));
    assert Valid(s);
    assert 0 <= SecondOfWeek(s) < SecondsPerWeek;
    assert SecondOfWeek(u) == SecondOfWeek(s);
    SecondOfWeekInjective(u, s);
  }

  /** The list of `n` zeros: the key of the first bucket of every cycle. */
  function Zeros(n: nat): (z: seq<int>)
    ensures |z| == n && forall i :: 0 <= i < n ==> z[i] == 0
  {
    seq(n, _ => 0)
  }

  /** The cycle start builds the all-zeros key. */
  lemma CycleStartKey(patternType: seq<string>, r: int, t: Timestamp)
    requires GranularityOf(patternType).Some? && r != 0
    ensures BuildKey(patternType, r, CycleStart(patternType, t)) == Ok(Some(Zeros(|patternType|)))
  {
    assert FloorDiv(0, r) == 0;
    match GranularityOf(patternType).value
    case Second =>
      assert Zeros(1) == [0];
    case Minute =>
      assert Zeros(1) == [0];
    case MinuteSecond =>
      assert Zeros(2) == [0, 0];
    case HourMinute =>
      assert Zeros(2) == [0, 0];
    case DayHourMinute =>
      assert Zeros(3) == [0, 0, 0];
  }

  // ---------------------------------------------------------------------------
  // Noise and lookup

  /** `random.randint(lo, hi)` driven by an arbitrary draw: every value of the range is some draw's. */
  function RandInt(lo: int, hi: int, draw: nat): (x: int)
    requires lo <= hi
    ensures lo <= x <= hi
  {
    lo + draw % (hi - lo + 1)
  }

  /** The draw `x - lo` picks `x`. */
  lemma RandIntHits(lo: int, hi: int, x: int)
    requires lo <= x <= hi
    ensures RandInt(lo, hi, x - lo) == x
  {
  }

  /** The margin noise may move a value by. */
  function Margin(value: int, noisePercent: int): int {
    FloorDiv(value * noisePercent, 100)
  }

  /** `_noise_value`, for the value found (or `None`) and a random draw. */
  function Noise(noisePercent: int, value: Option<int>, draw: nat): (r: Result<Option<int>, Error>)
    ensures r.Ok? ==> (r.value.Some? <==> value.Some?)
    ensures r.Err? ==> r.error == NoneOperand || r.error == EmptyRandomRange
    ensures r.Err? ==> noisePercent != 0
  {
    if noisePercent == 0 then Ok(value)
    else if value.None? then Err(NoneOperand)
    else
      var margin := Margin(value.value, noisePercent);
      var lo := Max(0, value.value - margin);
      var hi := value.value + margin;
      if lo > hi then Err(EmptyRandomRange) else Ok(Some(RandInt(lo, hi, draw)))
  }

  /** Without noise the value passes through, missing or not. */
  lemma NoiseOff(value: Option<int>, draw: nat)
    ensures Noise(0, value, draw) == Ok(value)
  {
  }

  /** With noise, a found value comes back within `[max(0, v - margin), v + margin]`. */
  lemma NoiseBounds(noisePercent: int, v: int, draw: nat)
    requires noisePercent != 0
    requires Noise(noisePercent, Some(v), draw).Ok?
    ensures var x := Noise(noisePercent, Some(v), draw).value;
      x.Some? && Max(0, v - Margin(v, noisePercent)) <= x.value <= v + Margin(v, noisePercent)
  {
  }

  /** A non-negative value with a positive noise percent never fails, and stays non-negative. */
  lemma NoiseTotalOnPercentages(noisePercent: int, v: int, draw: nat)
    requires noisePercent > 0 && v >= 0
    ensures Noise(noisePercent, Some(v), draw).Ok?
    ensures Noise(noisePercent, Some(v), draw).value.Some?
    ensures Noise(noisePercent, Some(v), draw).value.value >= 0
  {
    assert v * noisePercent >= 0;
  }

  /** Every value of the noise range is produced by some draw. */
  lemma NoiseReachesRange(noisePercent: int, v: int, x: int)
    requires noisePercent != 0
    requires Max(0, v - Margin(v, noisePercent)) <= x <= v + Margin(v, noisePercent)
    ensures exists draw: nat :: Noise(noisePercent, Some(v), draw) == Ok(Some(x))
  {
    var m := Margin(v, noisePercent);
    var lo, hi := Max(0, v - m), v + m;
    RandIntHits(lo, hi, x);
    assert Noise(noisePercent, Some(v), x - lo) == Ok(Some(x));
  }

  /** A missing value cannot be noised. */
  lemma NoiseOfMissing(noisePercent: int, draw: nat)
    requires noisePercent != 0
    ensures Noise(noisePercent, None, draw) == Err(NoneOperand)
  {
  }

  /** `get_value`: the (noised) value stored under the timestamp's key, `None` if there is none. */
  function GetValue(p: MemPattern, t: Timestamp, draw: nat): (r: Result<Option<int>, Error>)
    ensures r.Err? ==> r.error == ZeroDivision || r.error == NoneOperand || r.error == EmptyRandomRange
    ensures r.Ok? && r.value.Some? && p.noisePercent == 0 ==> r.value.value in p.data.Values
  {
    var key :- BuildKey(p.patternType, p.resolution, t);
    var value := if key.Some? && key.value in p.data then Some(p.data[key.value]) else None;
    Noise(p.noisePercent, value, draw)
  }

  /** Without noise the lookup is the stored value of the key, or `None`. */
  lemma LookupNoiseless(p: MemPattern, t: Timestamp, draw: nat)
    requires p.noisePercent == 0
    ensures BuildKey(p.patternType, p.resolution, t).Ok? ==>
      GetValue(p, t, draw) == Ok(
        var key := BuildKey(p.patternType, p.resolution, t).value;
        if key.Some? && key.value in p.data then Some(p.data[key.value]) else None)
    ensures GranularityOf(p.patternType).None? ==> GetValue(p, t, draw) == Ok(None)
  {
  }

  /**
   * With noise on, a lookup lands within the noise margin of the value the same
   * table gives without noise.
   */
  lemma NoisyLookupBounds(p: MemPattern, t: Timestamp, draw: nat, draw0: nat, v: int)
    requires p.noisePercent != 0
    requires GetValue(p.(noisePercent := 0), t, draw0) == Ok(Some(v))
    requires GetValue(p, t, draw).Ok?
    ensures GetValue(p, t, draw).value.Some?
    ensures Max(0, v - Margin(v, p.noisePercent)) <= GetValue(p, t, draw).value.value <= v + Margin(v, p.noisePercent)
  {
    NoiseBounds(p.noisePercent, v, draw);
  }

  /** Two timestamps with the same key components and the same bucket give the same value (for the same draw). */
  lemma SameBucketSameValue(p: MemPattern, t1: Timestamp, t2: Timestamp, draw: nat)
    requires GranularityOf(p.patternType).Some? && p.resolution != 0
    requires var f1, f2 := Fields(p.patternType, t1), Fields(p.patternType, t2);
      |f1| > 0 && f1[..|f1| - 1] == f2[..|f2| - 1] &&
      Bucket(f1[|f1| - 1], p.resolution) == Bucket(f2[|f2| - 1], p.resolution)
    ensures BuildKey(p.patternType, p.resolution, t1) == BuildKey(p.patternType, p.resolution, t2)
    ensures GetValue(p, t1, draw) == GetValue(p, t2, draw)
  {
    KeyFollowsHeader(p.patternType, p.resolution, t1);
    KeyFollowsHeader(p.patternType, p.resolution, t2);
  }

  /**
   * Looking up `t - shift(t)` in a noiseless pattern whose first row holds the
   * all-zeros key (and is not overwritten) gives the first row's value.
   */
  lemma CycleStartLookup(header: Option<seq<string>>, rows: seq<seq<int>>, t: Timestamp, draw: nat)
    requires Build(0, header, rows).Ok?
    requires var p := Build(0, header, rows).value;
      GranularityOf(p.patternType).Some? && p.resolution != 0
    requires |rows| > 0 && |rows[0]| > 0 && KeyOf(rows[0]) == Zeros(|Build(0, header, rows).value.patternType|)
    requires forall i :: 0 < i < |rows| && |rows[i]| > 0 ==> KeyOf(rows[i]) != KeyOf(rows[0])
    requires Valid(t)
    ensures var p := Build(0, header, rows).value;
      GetValue(p, Minus(t, TimeShift(p.patternType, t)), draw) == Ok(Some(ValueOf(rows[0])))
  {
    var p := Build(0, header, rows).value;
    CycleStartIsShiftBack(p.patternType, t);
    CycleStartKey(p.patternType, p.resolution, t);
    BuildLastWins(0, header, rows, 0);
  }
}
