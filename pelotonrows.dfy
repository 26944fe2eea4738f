/**
 * The training rows the workout service's replies are turned into
 * (src/peloton.cpp, `performance_onfinish`).
 *
 * A performance reply offers three sources, tried in order: per-sample
 * resistance and cadence targets (compacted into rows of equal targets),
 * treadmill speed/incline targets over time offsets, and plain segments with
 * an intensity in METs. JSON values are given here already parsed: an absent
 * number reads as 0 and an absent array as empty, as `QJsonValue` does.
 */
module PelotonRows {
  import opened Wrappers
  import opened Strings
  import opened QtTime
  import opened Seqs

  /** The six requested targets of one sample. */
  datatype Targets = Targets(
    resistance: int,
    lowerResistance: int,
    upperResistance: int,
    cadence: int,
    lowerCadence: int,
    upperCadence: int)

  /** The requested resistances converted to the connected bike's own scale. */
  datatype BikeResistance = BikeResistance(resistance: int, lower: int, upper: int)

  /** The fields of a training row each source fills; the others keep their defaults. */
  datatype TrainRow =
    | ResistanceRow(duration: QTime, bike: Option<BikeResistance>, targets: Targets)
    | SpeedRow(duration: QTime, speed: real, inclination: real, forceSpeed: bool)
    | MetsRow(duration: QTime, mets: int)

  /** The kind of the connected device. */
  datatype DeviceKind = BikeDevice | TreadmillDevice | OtherDevice

  /** `array.at(i).toInt()`: 0 past the end. */
  function At(a: seq<int>, i: nat): int
  {
    if i < |a| then a[i] else 0
  }

  // ---------------------------------------------------------------------
  // Resistance and cadence targets
  // ---------------------------------------------------------------------

  /** One entry of `target_graph_metrics`: its `graph_data` arrays by key. */
  datatype GraphMetric = GraphMetric(graphData: map<string, seq<int>>)

  /** `target_graph_metrics[index].graph_data[key]`, empty when absent. */
  function Series(metrics: seq<GraphMetric>, index: nat, key: string): seq<int>
  {
    if index < |metrics| && key in metrics[index].graphData then metrics[index].graphData[key] else []
  }

  /**
   * The per-sample targets: one per entry of the resistance series of the
   * configured difficulty (entry 1), with the lower and upper resistances and
   * the cadences (entry 0) at the same index.
   */
  function Samples(metrics: seq<GraphMetric>, difficulty: string): (ts: seq<Targets>)
    ensures |ts| == |Series(metrics, 1, difficulty)|
  {
    var current := Series(metrics, 1, difficulty);
    seq(|current|, i requires 0 <= i < |current| =>
      Targets(current[i], At(Series(metrics, 1, "lower"), i), At(Series(metrics, 1, "upper"), i),
              At(Series(metrics, 0, difficulty), i), At(Series(metrics, 0, "lower"), i),
              At(Series(metrics, 0, "upper"), i)))
  }

  /**
   * The bike-scale resistances: filled only when a device is connected, by
   * the device's own conversion `toBike`.
   */
  function BikeFields(device: Option<DeviceKind>, toBike: int -> int, t: Targets): Option<BikeResistance>
  {
    if device.Some? then Some(BikeResistance(toBike(t.resistance), toBike(t.lowerResistance), toBike(t.upperResistance)))
    else None
  }

  predicate AllResistanceRows(rows: seq<TrainRow>)
  {
    forall i :: 0 <= i < |rows| ==> rows[i].ResistanceRow?
  }

  /**
   * One sample: the first sample, or one whose targets differ from the last
   * row's, opens a row of `resolution` seconds; any other sample lengthens
   * the last row by `resolution` seconds.
   */
  function CompactStep(rows: seq<TrainRow>, first: bool, t: Targets, device: Option<DeviceKind>,
                       toBike: int -> int, resolution: int): (r: seq<TrainRow>)
    requires AllResistanceRows(rows) && (first || rows != [])
  {
    if first || t != rows[|rows| - 1].targets then
      rows + [ResistanceRow(MakeTime(0, 0, resolution), BikeFields(device, toBike, t), t)]
    else
      var last := rows[|rows| - 1];
      rows[..|rows| - 1] + [ResistanceRow(AddSecs(last.duration, resolution), last.bike, last.targets)]
  }

  /** The rows the samples compact into. */
  function Compact(samples: seq<Targets>, device: Option<DeviceKind>, toBike: int -> int, resolution: int)
    : (rows: seq<TrainRow>)
    ensures AllResistanceRows(rows)
    ensures |rows| <= |samples|
    ensures rows == [] <==> samples == []
    ensures rows != [] ==> rows[|rows| - 1].targets == samples[|samples| - 1]
  {
    if samples == [] then []
    else
      var n := |samples| - 1;
      CompactStep(Compact(samples[..n], device, toBike, resolution), n == 0, samples[n], device, toBike, resolution)
  }

  /** The last sample is the last step. */
  lemma CompactUnfold(samples: seq<Targets>, device: Option<DeviceKind>, toBike: int -> int, resolution: int)
    requires samples != []
    ensures var n := |samples| - 1;
            var before := Compact(samples[..n], device, toBike, resolution);
            AllResistanceRows(before) && (n == 0 <==> before == [])
            && Compact(samples, device, toBike, resolution) == CompactStep(before, n == 0, samples[n], device, toBike, resolution)
  {
  }

  /** Compacting one more sample is one more step. */
  lemma CompactPrefix(samples: seq<Targets>, i: nat, device: Option<DeviceKind>, toBike: int -> int, resolution: int)
    requires i < |samples|
    ensures var before := Compact(samples[..i], device, toBike, resolution);
            AllResistanceRows(before) && (i == 0 || before != [])
            && Compact(samples[..i + 1], device, toBike, resolution)
               == CompactStep(before, i == 0, samples[i], device, toBike, resolution)
  {
    assert samples[..i + 1][..i] == samples[..i];
  }

  /** Sample `i` of the graph data is read from the six series at index `i`. */
  lemma SampleAt(metrics: seq<GraphMetric>, difficulty: string, i: nat)
    requires i < |Series(metrics, 1, difficulty)|
    ensures Samples(metrics, difficulty)[i]
            == Targets(Series(metrics, 1, difficulty)[i], At(Series(metrics, 1, "lower"), i),
                       At(Series(metrics, 1, "upper"), i), At(Series(metrics, 0, difficulty), i),
                       At(Series(metrics, 0, "lower"), i), At(Series(metrics, 0, "upper"), i))
  {
  }

  /** No two neighbouring rows request the same six targets. */
  predicate NoAdjacentDuplicates(rows: seq<TrainRow>)
    requires AllResistanceRows(rows)
  {
    forall i :: 0 <= i < |rows| - 1 ==> rows[i].targets != rows[i + 1].targets
  }

  /** Each row's bike fields are its converted targets when a device is connected, and absent otherwise. */
  predicate BikeFieldsMatch(rows: seq<TrainRow>, device: Option<DeviceKind>, toBike: int -> int)
    requires AllResistanceRows(rows)
  {
    forall i :: 0 <= i < |rows| ==> rows[i].bike == BikeFields(device, toBike, rows[i].targets)
  }

  lemma CompactStepKeeps(rows: seq<TrainRow>, first: bool, t: Targets, device: Option<DeviceKind>,
                         toBike: int -> int, resolution: int)
    requires AllResistanceRows(rows) && (first <==> rows == [])
    requires NoAdjacentDuplicates(rows) && BikeFieldsMatch(rows, device, toBike)
    ensures var next := CompactStep(rows, first, t, device, toBike, resolution);
            AllResistanceRows(next) && NoAdjacentDuplicates(next) && BikeFieldsMatch(next, device, toBike)
  {
    var next := CompactStep(rows, first, t, device, toBike, resolution);
    if first || t != rows[|rows| - 1].targets {
      var row := ResistanceRow(MakeTime(0, 0, resolution), BikeFields(device, toBike, t), t);
      assert next == rows + [row];
      assert forall i :: 0 <= i < |rows| ==> next[i] == rows[i];
    } else {
      var m := |rows| - 1;
      var last := rows[m];
      var row := ResistanceRow(AddSecs(last.duration, resolution), last.bike, last.targets);
      assert next == rows[..m] + [row];
      assert forall i :: 0 <= i < m ==> next[i] == rows[i];
      assert next[m].targets == rows[m].targets && next[m].bike == rows[m].bike;
    }
  }

  /**
   * Compaction leaves no two neighbouring rows with the same targets, and
   * every row's bike fields are filled exactly when a device is connected.
   */
  lemma {:induction false} CompactRowsDistinct(samples: seq<Targets>, device: Option<DeviceKind>,
                                               toBike: int -> int, resolution: int)
    ensures var rows := Compact(samples, device, toBike, resolution);
            NoAdjacentDuplicates(rows) && BikeFieldsMatch(rows, device, toBike)
  {
    if samples != [] {
      var n := |samples| - 1;
      var before := Compact(samples[..n], device, toBike, resolution);
      CompactUnfold(samples, device, toBike, resolution);
      CompactRowsDistinct(samples[..n], device, toBike, resolution);
      CompactStepKeeps(before, n == 0, samples[n], device, toBike, resolution);
    }
  }

  /** `k` copies of `t`. */
  function Repeat(t: Targets, k: nat): (r: seq<Targets>)
    ensures |r| == k && forall i :: 0 <= i < k ==> r[i] == t
  {
    seq(k, _ => t)
  }

  /** Total seconds of a row list. */
  function TotalSeconds(rows: seq<TrainRow>): nat
  {
    if rows == [] then 0 else TotalSeconds(rows[..|rows| - 1]) + Seconds(rows[|rows| - 1].duration)
  }

  /** The samples a row list stands for, `resolution` seconds per sample. */
  function Expand(rows: seq<TrainRow>, resolution: int): seq<Targets>
    requires resolution > 0 && AllResistanceRows(rows)
  {
    if rows == [] then []
    else
      var last := rows[|rows| - 1];
      Expand(rows[..|rows| - 1], resolution) + Repeat(last.targets, Seconds(last.duration) / resolution)
  }

  lemma MulAtLeast(a: int, d: nat)
    requires a >= 1
    ensures a * d >= d
  {
  }

  lemma DivUnique(x: nat, d: nat, q: int, r: int)
    requires d > 0 && 0 <= r < d && x == q * d + r
    ensures x / d == q
  {
    var q2, r2 := x / d, x % d;
    assert x == q2 * d + r2;
    if q2 > q {
      MulAtLeast(q2 - q, d);
    } else if q2 < q {
      MulAtLeast(q - q2, d);
    }
  }

  lemma DivStep(s: nat, d: nat)
    requires d > 0
    ensures (s + d) / d == s / d + 1
  {
    var q, r := s / d, s % d;
    assert s == q * d + r;
    assert (q + 1) * d == q * d + d;
    DivUnique(s + d, d, q + 1, r);
  }

  /** Every row lasts a positive number of seconds. */
  predicate PositiveDurations(rows: seq<TrainRow>)
  {
    forall i :: 0 <= i < |rows| ==> rows[i].duration.Time? && rows[i].duration.secs > 0
  }

  /** A row list with one more row: its seconds and its samples follow. */
  lemma AppendRow(rows: seq<TrainRow>, row: TrainRow, resolution: int)
    requires resolution > 0 && AllResistanceRows(rows) && row.ResistanceRow?
    ensures AllResistanceRows(rows + [row])
    ensures TotalSeconds(rows + [row]) == TotalSeconds(rows) + Seconds(row.duration)
    ensures Expand(rows + [row], resolution)
            == Expand(rows, resolution) + Repeat(row.targets, Seconds(row.duration) / resolution)
  {
    assert (rows + [row])[..|rows|] == rows;
  }

  /** Opening a row of `resolution` seconds adds one sample and `resolution` seconds. */
  lemma OpenRowStep(rows: seq<TrainRow>, row: TrainRow, resolution: int)
    requires 0 < resolution < 60 && AllResistanceRows(rows) && PositiveDurations(rows)
    requires row.ResistanceRow? && row.duration == MakeTime(0, 0, resolution)
    ensures AllResistanceRows(rows + [row]) && PositiveDurations(rows + [row])
    ensures TotalSeconds(rows + [row]) == TotalSeconds(rows) + resolution
    ensures Expand(rows + [row], resolution) == Expand(rows, resolution) + [row.targets]
  {
    AppendRow(rows, row, resolution);
    assert Repeat(row.targets, resolution / resolution) == [row.targets];
  }

  /** Replacing the last row by one a sample longer adds that sample to the expansion. */
  lemma ExtendExpand(before: seq<TrainRow>, last: TrainRow, row: TrainRow, resolution: int)
    requires resolution > 0 && AllResistanceRows(before) && last.ResistanceRow? && row.ResistanceRow?
    requires row.targets == last.targets
    requires Seconds(row.duration) / resolution == Seconds(last.duration) / resolution + 1
    ensures Expand(before + [row], resolution) == Expand(before + [last], resolution) + [last.targets]
  {
    AppendRow(before, last, resolution);
    AppendRow(before, row, resolution);
    var k := Seconds(last.duration) / resolution;
    assert Repeat(last.targets, k + 1) == Repeat(last.targets, k) + [last.targets];
    AppendAssociative(Expand(before, resolution), Repeat(last.targets, k), [last.targets]);
  }

  /** Lengthening the last row by `resolution` seconds, when that does not wrap, adds one sample. */
  lemma ExtendRowStep(rows: seq<TrainRow>, resolution: int)
    requires 0 < resolution < 60 && AllResistanceRows(rows) && PositiveDurations(rows) && rows != []
    requires TotalSeconds(rows) + resolution < SecondsPerDay
    ensures var m := |rows| - 1;
            var next := rows[..m] + [ResistanceRow(AddSecs(rows[m].duration, resolution), rows[m].bike, rows[m].targets)];
            && AllResistanceRows(next) && PositiveDurations(next)
            && TotalSeconds(next) == TotalSeconds(rows) + resolution
            && Expand(next, resolution) == Expand(rows, resolution) + [rows[m].targets]
  {
    var m := |rows| - 1;
    var last := rows[m];
    var before := rows[..m];
    var s := last.duration.secs;
    assert rows == before + [last];
    TotalSecondsLast(before, last);
    AddSecsNoWrap(last.duration, resolution);
    var row := ResistanceRow(Time(s + resolution), last.bike, last.targets);
    DivStep(s, resolution);
    ExtendDurations(before, last, row);
    ExtendExpand(before, last, row, resolution);
  }

  lemma TotalSecondsLast(before: seq<TrainRow>, last: TrainRow)
    ensures TotalSeconds(before + [last]) == TotalSeconds(before) + Seconds(last.duration)
  {
    assert (before + [last])[..|before|] == before;
  }

  /** Replacing the last row by a longer one keeps the durations positive and adds the difference. */
  lemma ExtendDurations(before: seq<TrainRow>, last: TrainRow, row: TrainRow)
    requires AllResistanceRows(before + [last]) && PositiveDurations(before + [last])
    requires row.ResistanceRow? && row.duration.Time? && row.duration.secs > 0
    ensures AllResistanceRows(before + [row]) && PositiveDurations(before + [row])
    ensures TotalSeconds(before + [row]) == TotalSeconds(before + [last]) - Seconds(last.duration) + Seconds(row.duration)
  {
    TotalSecondsLast(before, last);
    TotalSecondsLast(before, row);
    assert forall i :: 0 <= i < |before| ==> (before + [row])[i] == (before + [last])[i];
  }

  /** One compaction step adds one sample of `resolution` seconds, when that does not wrap. */
  lemma CompactStepRoundTrip(rows: seq<TrainRow>, first: bool, t: Targets, device: Option<DeviceKind>,
                             toBike: int -> int, resolution: int)
    requires 0 < resolution < 60 && AllResistanceRows(rows) && PositiveDurations(rows)
    requires first <==> rows == []
    requires TotalSeconds(rows) + resolution < SecondsPerDay
    ensures var next := CompactStep(rows, first, t, device, toBike, resolution);
            && AllResistanceRows(next) && PositiveDurations(next)
            && TotalSeconds(next) == TotalSeconds(rows) + resolution
            && Expand(next, resolution) == Expand(rows, resolution) + [t]
  {
    if first || t != rows[|rows| - 1].targets {
      OpenRowStep(rows, ResistanceRow(MakeTime(0, 0, resolution), BikeFields(device, toBike, t), t), resolution);
    } else {
      ExtendRowStep(rows, resolution);
    }
  }

  lemma MulSucc(k: nat, n: nat, r: int)
    requires k == n + 1 && r > 0
    ensures k * r == n * r + r && n * r < k * r
  {
  }

  /**
   * With a resolution below one minute and a workout shorter than a day (so
   * that no duration wraps), every row lasts a positive number of seconds and
   * the durations add up to samples times resolution.
   */
  lemma {:induction false} CompactDurations(samples: seq<Targets>, device: Option<DeviceKind>,
                                            toBike: int -> int, resolution: int)
    requires 0 < resolution < 60
    requires |samples| * resolution < SecondsPerDay
    ensures var rows := Compact(samples, device, toBike, resolution);
            PositiveDurations(rows) && TotalSeconds(rows) == |samples| * resolution
  {
    if samples != [] {
      var n := |samples| - 1;
      var before := Compact(samples[..n], device, toBike, resolution);
      CompactUnfold(samples, device, toBike, resolution);
      MulSucc(|samples|, |samples[..n]|, resolution);
      CompactDurations(samples[..n], device, toBike, resolution);
      CompactStepRoundTrip(before, n == 0, samples[n], device, toBike, resolution);
    }
  }

  /** Expanding the rows of one more sample gives one more sample. */
  lemma CompactExpandStep(samples: seq<Targets>, device: Option<DeviceKind>, toBike: int -> int, resolution: int)
    requires 0 < resolution < 60 && samples != []
    requires |samples| * resolution < SecondsPerDay
    ensures var n := |samples| - 1;
            Expand(Compact(samples, device, toBike, resolution), resolution) ==
            Expand(Compact(samples[..n], device, toBike, resolution), resolution) + [samples[n]]
  {
    var n := |samples| - 1;
    var before := Compact(samples[..n], device, toBike, resolution);
    CompactUnfold(samples, device, toBike, resolution);
    MulSucc(|samples|, |samples[..n]|, resolution);
    CompactDurations(samples[..n], device, toBike, resolution);
    CompactStepRoundTrip(before, n == 0, samples[n], device, toBike, resolution);
  }

  /**
   * Compaction loses nothing: under the same bounds, expanding the rows back
   * into `resolution`-second samples gives the samples.
   */
  lemma {:induction false} CompactRoundTrip(samples: seq<Targets>, device: Option<DeviceKind>,
                                            toBike: int -> int, resolution: int)
    requires 0 < resolution < 60
    requires |samples| * resolution < SecondsPerDay
    ensures Expand(Compact(samples, device, toBike, resolution), resolution) == samples
  {
    if samples != [] {
      var n := |samples| - 1;
      MulSucc(|samples|, |samples[..n]|, resolution);
      CompactRoundTrip(samples[..n], device, toBike, resolution);
      CompactExpandStep(samples, device, toBike, resolution);
      assert samples == samples[..n] + [samples[n]];
    }
  }

  // ---------------------------------------------------------------------
  // Treadmill targets
  // ---------------------------------------------------------------------

  /** A `{lower, upper}` pair of a target metric. */
  datatype Bounds = Bounds(lower: real, upper: real)

  /** The `offsets` object of a target metric: seconds from the start of the class. */
  datatype Offsets = Offsets(start: int, end: int)

  /** One entry of `target_metrics`; `offsets` is `None` when the object is empty. */
  datatype TargetMetric = TargetMetric(metrics: seq<Bounds>, offsets: Option<Offsets>)

  const KilometresPerMile: real := 1.60934

  /** The speed factor: 1.60934 when the distance unit is miles ("MI", in any case). */
  function Miles(unit: string): real
  {
    if Upper(unit) == "MI" then KilometresPerMile else 1.0
  }

  /** Which value of a pair the difficulty setting picks. */
  datatype Level = LowerBound | UpperBound | Midpoint

  /** "LOWER" and "UPPER" in any case pick a bound; any other setting the midpoint. */
  function LevelOf(difficulty: string): (l: Level)
    ensures l == LowerBound <==> Upper(difficulty) == "LOWER"
    ensures l == UpperBound <==> Upper(difficulty) == "UPPER"
  {
    if Upper(difficulty) == "LOWER" then LowerBound
    else if Upper(difficulty) == "UPPER" then UpperBound
    else Midpoint
  }

  /** The value a level picks from a pair. */
  function Pick(level: Level, b: Bounds): real
  {
    match level
    case LowerBound => b.lower
    case UpperBound => b.upper
    case Midpoint => (b.upper - b.lower) / 2.0 + b.lower
  }

  /** Whatever the level, the picked value lies between the bounds; the midpoint is equidistant from both. */
  lemma PickWithinBounds(level: Level, b: Bounds)
    requires b.lower <= b.upper
    ensures b.lower <= Pick(level, b) <= b.upper
    ensures level == Midpoint ==> Pick(level, b) - b.lower == b.upper - Pick(level, b)
  {
  }

  /** The speed a row asks for: the picked value of the speed pair, scaled by the unit factor. */
  function Speed(level: Level, b: Bounds, miles: real): real
  {
    Pick(level, b) * miles
  }

  /** A target metric yields a row when it has a speed and an incline pair and non-empty offsets. */
  predicate HasTargetRow(tm: TargetMetric)
  {
    |tm.metrics| > 1 && tm.offsets.Some?
  }

  function TargetRow(tm: TargetMetric, unit: string, difficulty: string, forceSpeed: bool): TrainRow
    requires HasTargetRow(tm)
  {
    SpeedRow(TargetDuration(tm.offsets.value),
             Speed(LevelOf(difficulty), tm.metrics[0], Miles(unit)), Pick(LevelOf(difficulty), tm.metrics[1]), forceSpeed)
  }

  /**
   * A row's speed is the picked value of the first pair, multiplied by
   * 1.60934 when the unit is miles; its incline is the picked value of the
   * second pair, never scaled.
   */
  lemma TargetRowInMiles(tm: TargetMetric, unit: string, difficulty: string, forceSpeed: bool)
    requires HasTargetRow(tm) && Upper(unit) == "MI"
    ensures TargetRow(tm, unit, difficulty, forceSpeed).speed == Pick(LevelOf(difficulty), tm.metrics[0]) * KilometresPerMile
    ensures TargetRow(tm, unit, difficulty, forceSpeed).inclination == Pick(LevelOf(difficulty), tm.metrics[1])
  {
    var factor := Miles(unit);
    assert factor == KilometresPerMile;
    assert TargetRow(tm, unit, difficulty, forceSpeed).speed == Speed(LevelOf(difficulty), tm.metrics[0], factor);
  }

  /** In any other unit the speed is the picked value itself. */
  lemma TargetRowInKilometres(tm: TargetMetric, unit: string, difficulty: string, forceSpeed: bool)
    requires HasTargetRow(tm) && Upper(unit) != "MI"
    ensures TargetRow(tm, unit, difficulty, forceSpeed).speed == Pick(LevelOf(difficulty), tm.metrics[0])
  {
    var factor := Miles(unit);
    assert factor == 1.0;
    assert TargetRow(tm, unit, difficulty, forceSpeed).speed == Speed(LevelOf(difficulty), tm.metrics[0], factor);
  }

  /** The treadmill rows, in order. */
  function TargetRows(tms: seq<TargetMetric>, unit: string, difficulty: string, forceSpeed: bool): (r: seq<TrainRow>)
  {
    if tms == [] then []
    else
      var tm := tms[|tms| - 1];
      TargetRows(tms[..|tms| - 1], unit, difficulty, forceSpeed) +
        (if HasTargetRow(tm) then [TargetRow(tm, unit, difficulty, forceSpeed)] else [])
  }

  /** Converting one more target metric appends its row, if any. */
  lemma TargetRowsPrefix(tms: seq<TargetMetric>, i: nat, unit: string, difficulty: string, forceSpeed: bool)
    requires i < |tms|
    ensures TargetRows(tms[..i + 1], unit, difficulty, forceSpeed) ==
            TargetRows(tms[..i], unit, difficulty, forceSpeed) +
            (if HasTargetRow(tms[i]) then [TargetRow(tms[i], unit, difficulty, forceSpeed)] else [])
  {
    assert tms[..i + 1][..i] == tms[..i];
  }

  /** The number of target metrics that yield a row. */
  function TargetRowCount(tms: seq<TargetMetric>): nat
  {
    if tms == [] then 0 else TargetRowCount(tms[..|tms| - 1]) + (if HasTargetRow(tms[|tms| - 1]) then 1 else 0)
  }

  /**
   * One row per qualifying target metric, each a speed row whose duration is
   * end minus start (around the clock) and whose force-speed flag is the setting.
   */
  lemma {:induction false} TargetRowsShape(tms: seq<TargetMetric>, unit: string, difficulty: string, forceSpeed: bool)
    ensures var rows := TargetRows(tms, unit, difficulty, forceSpeed);
            && |rows| == TargetRowCount(tms) <= |tms|
            && forall i :: 0 <= i < |rows| ==> rows[i].SpeedRow? && rows[i].forceSpeed == forceSpeed
                                                && rows[i].duration.Time?
  {
    if tms != [] {
      TargetRowsShape(tms[..|tms| - 1], unit, difficulty, forceSpeed);
    }
  }

  /** A row's duration: `QTime(0, 0, 0)` plus end minus start seconds. */
  function TargetDuration(o: Offsets): QTime
  {
    AddSecs(Midnight, o.end - o.start)
  }

  /** The duration is exactly end minus start when that lies within a day, and is never null. */
  lemma TargetDurationValue(o: Offsets)
    ensures TargetDuration(o).Time?
    ensures 0 <= o.end - o.start < SecondsPerDay ==> TargetDuration(o) == Time(o.end - o.start)
  {
    assert Midnight == Time(0);
    if 0 <= o.end - o.start < SecondsPerDay {
      AddSecsFromMidnight(o.end - o.start);
    }
  }

  // ---------------------------------------------------------------------
  // Segments
  // ---------------------------------------------------------------------

  /** One entry of `segment_list`. */
  datatype Segment = Segment(length: int, mets: int)

  /** `QTime(0, len / 60, len % 60)` for a positive length. */
  function SegmentDuration(length: int): QTime
    requires length > 0
  {
    MakeTime(0, length / 60, length % 60)
  }

  /** A segment's duration is its length in seconds, up to an hour; from one hour on it is the null time. */
  lemma SegmentDurationValue(length: int)
    requires length > 0
    ensures SegmentDuration(length) == if length < 3600 then Time(length) else NullTime
  {
  }

  /** The segment rows: one per segment of positive length, in order. */
  function SegmentRows(segs: seq<Segment>): (r: seq<TrainRow>)
  {
    if segs == [] then []
    else
      var s := segs[|segs| - 1];
      SegmentRows(segs[..|segs| - 1]) + (if s.length > 0 then [MetsRow(SegmentDuration(s.length), s.mets)] else [])
  }

  /** The row a segment gives: none for a length of zero or less. */
  predicate SegmentGives(seg: Segment, row: TrainRow)
  {
    seg.length > 0 && row == MetsRow(SegmentDuration(seg.length), seg.mets)
  }

  /** Segments of length zero or less give no row; every other segment gives one with its METs. */
  lemma SegmentRowsExact(segs: seq<Segment>, row: TrainRow)
    ensures row in SegmentRows(segs) <==> exists i :: 0 <= i < |segs| && SegmentGives(segs[i], row)
  {
    if row in SegmentRows(segs) {
      var i := SegmentRowsSound(segs, row);
    }
    if exists i :: 0 <= i < |segs| && SegmentGives(segs[i], row) {
      var i :| 0 <= i < |segs| && SegmentGives(segs[i], row);
      SegmentRowsComplete(segs, i, row);
    }
  }

  /** Every segment row comes from a segment: the index of one is returned. */
  lemma {:induction false} SegmentRowsSound(segs: seq<Segment>, row: TrainRow) returns (i: nat)
    requires row in SegmentRows(segs)
    ensures i < |segs| && SegmentGives(segs[i], row)
  {
    var n := |segs| - 1;
    SegmentRowsLast(segs, row);
    if SegmentGives(segs[n], row) {
      i := n;
    } else {
      i := SegmentRowsSound(segs[..n], row);
    }
  }

  /** Every segment of positive length gives its row. */
  lemma {:induction false} SegmentRowsComplete(segs: seq<Segment>, i: nat, row: TrainRow)
    requires i < |segs| && SegmentGives(segs[i], row)
    ensures row in SegmentRows(segs)
  {
    var n := |segs| - 1;
    SegmentRowsLast(segs, row);
    if i < n {
      SegmentRowsComplete(segs[..n], i, row);
    }
  }

  /** The last segment's row, if any, comes after the rows of the others. */
  lemma SegmentRowsLast(segs: seq<Segment>, row: TrainRow)
    requires segs != []
    ensures row in SegmentRows(segs) <==> row in SegmentRows(segs[..|segs| - 1]) || SegmentGives(segs[|segs| - 1], row)
  {
  }

  // ---------------------------------------------------------------------
  // The performance reply
  // ---------------------------------------------------------------------

  /**
   * The parts of a performance reply the rows come from. An empty JSON
   * object is `None`; `targetGraphMetrics` is the `target_graph_metrics`
   * array of a non-empty `target_performance_metrics`.
   */
  datatype Performance = Performance(
    targetGraphMetrics: Option<seq<GraphMetric>>,
    targetMetrics: Option<seq<TargetMetric>>,
    distanceUnit: string,
    segments: seq<Segment>)

  /** Which source the rows are taken from. */
  predicate UsesTargets(p: Performance, device: Option<DeviceKind>)
  {
    p.targetGraphMetrics.None? && p.targetMetrics.Some? && device == Some(TreadmillDevice)
  }

  predicate UsesSegments(p: Performance)
  {
    p.targetGraphMetrics.None? && p.segments != []
  }

  /**
   * The third source asks the connected device for its kind without a null
   * check: the reply must not reach it without a device.
   */
  predicate CanBuildRows(p: Performance, device: Option<DeviceKind>)
  {
    !UsesTargets(p, device) && UsesSegments(p) ==> device.Some?
  }

  /** The rows of a performance reply: the three sources in priority order. */
  function BuildRows(p: Performance, device: Option<DeviceKind>, difficulty: string, forceSpeed: bool,
                     resolution: int, toBike: int -> int): (r: seq<TrainRow>)
    requires CanBuildRows(p, device)
  {
    if p.targetGraphMetrics.Some? then
      Compact(Samples(p.targetGraphMetrics.value, difficulty), device, toBike, resolution)
    else if UsesTargets(p, device) then
      TargetRows(p.targetMetrics.value, p.distanceUnit, difficulty, forceSpeed)
    else if UsesSegments(p) && device.value != BikeDevice then
      SegmentRows(p.segments)
    else []
  }

  /**
   * Each source is used only when the ones before it are absent, and its
   * rows are all of its kind; a bike never gets segment rows.
   */
  lemma BuildRowsSource(p: Performance, device: Option<DeviceKind>, difficulty: string, forceSpeed: bool,
                        resolution: int, toBike: int -> int)
    requires CanBuildRows(p, device)
    ensures var rows := BuildRows(p, device, difficulty, forceSpeed, resolution, toBike);
            && (p.targetGraphMetrics.Some? ==> AllResistanceRows(rows))
            && (UsesTargets(p, device) ==> forall i :: 0 <= i < |rows| ==> rows[i].SpeedRow?)
            && (device == Some(BikeDevice) && p.targetGraphMetrics.None? ==> rows == [])
  {
    if UsesTargets(p, device) {
      TargetRowsShape(p.targetMetrics.value, p.distanceUnit, difficulty, forceSpeed);
    }
  }
}
