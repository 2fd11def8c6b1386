/**
 * The daily aggregation script: step records, walking-speed records and
 * focus sessions are each reduced to one row per calendar day, aligned on
 * the day, and written as one daily table (Date, Steps, Speed, Study, Day).
 *
 * Timestamps are UTC seconds (parsing and zone conversion happen before the
 * model); floating-point values are exact reals.
 */
module CleanData {
  import opened Series
  import opened Align
  import opened Calendar

  /** A row of step_count_raw.csv: StartDate, EndDate and StepCount. */
  datatype StepEvent = StepEvent(start: int, end: int, count: nat)

  /** A row of step_speed_raw.csv: StartDate, EndDate and Speed. */
  datatype SpeedEvent = SpeedEvent(start: int, end: int, speed: real)

  /** A row of forest.csv, keeping Start Time and End Time (Tag, Note, Tree Type, Is Success are dropped). */
  datatype Session = Session(start: int, end: int)

  /**
   * A row of the output table, fields in its column order: the labels of
   * date, steps, speed, study and day are the list Columns.OutputColumns
   * proves the script writes (Date, Steps, Speed, Study, Day).
   */
  datatype DailyRecord = DailyRecord(date: Day, steps: int, speed: Option<real>, study: real, day: string)

  // ---- Steps ------------------------------------------------------------

  /** The steps table after EndDate is dropped and StartDate is cut to its day. */
  function StepRows(steps: seq<StepEvent>): seq<(Day, int)> {
    seq(|steps|, i requires 0 <= i < |steps| => (DayOf(steps[i].start), steps[i].count as int))
  }

  /** The step counts of the records that start on day d, in file order. */
  function CountsOn(steps: seq<StepEvent>, d: Day): seq<int> {
    Values(StepRows(steps), d)
  }

  /**
   * Daily step totals: one row per day on which some record starts,
   * ascending, holding the exact sum of that day's counts. Days without
   * records are absent, not zero.
   */
  function StepTotals(steps: seq<StepEvent>): (r: Series<int>)
    ensures Ascending(r)
    ensures forall d :: Lookup(r, d) == if CountsOn(steps, d) == [] then None else Some(Sum(CountsOn(steps, d)))
  {
    Aggregate(StepRows(steps), Sum)
  }

  /** A day has a step total exactly when at least one step record starts on it. */
  lemma StepDays(steps: seq<StepEvent>, d: Day)
    ensures Lookup(StepTotals(steps), d).Some? <==> exists i :: 0 <= i < |steps| && DayOf(steps[i].start) == d
  {
    var rows := StepRows(steps);
    if d in Keys(rows) {
      var i :| 0 <= i < |rows| && rows[i].0 == d;
      assert DayOf(steps[i].start) == d;
    }
    if exists i :: 0 <= i < |steps| && DayOf(steps[i].start) == d {
      var i :| 0 <= i < |steps| && DayOf(steps[i].start) == d;
      assert rows[i].0 == d;
    }
  }

  /** Step counts are natural numbers, so every daily total is non-negative. */
  lemma StepTotalNonNegative(steps: seq<StepEvent>, d: Day)
    ensures Sum(CountsOn(steps, d)) >= 0
  {
    var rows := StepRows(steps);
    var counts := CountsOn(steps, d);
    forall k | 0 <= k < |counts| ensures counts[k] >= 0 {
      ValuesFrom(rows, d, counts[k]);
    }
    SumNonNegative(counts);
  }

  // ---- Speeds -----------------------------------------------------------

  function SumReal(xs: seq<real>): real {
    if xs == [] then 0.0 else SumReal(xs[..|xs| - 1]) + xs[|xs| - 1]
  }

  /** The arithmetic mean; the groups it is applied to are never empty. */
  function Mean(xs: seq<real>): real {
    if xs == [] then 0.0 else SumReal(xs) / (|xs| as real)
  }

  /** The speeds table after EndDate is dropped and StartDate is cut to its day. */
  function SpeedRows(speeds: seq<SpeedEvent>): seq<(Day, real)> {
    seq(|speeds|, i requires 0 <= i < |speeds| => (DayOf(speeds[i].start), speeds[i].speed))
  }

  /** The speeds of the records that start on day d, in file order. */
  function SpeedsOn(speeds: seq<SpeedEvent>, d: Day): seq<real> {
    Values(SpeedRows(speeds), d)
  }

  /** The speed for day d: the mean of that day's speeds, or missing when it has none. */
  function SpeedOn(speeds: seq<SpeedEvent>, d: Day): Option<real> {
    if SpeedsOn(speeds, d) == [] then None else Some(Mean(SpeedsOn(speeds, d)))
  }

  /**
   * Daily mean speeds: one row per day on which some speed record starts,
   * ascending, holding the unweighted mean of that day's speeds.
   */
  function SpeedMeans(speeds: seq<SpeedEvent>): (r: Series<real>)
    ensures Ascending(r)
    ensures forall d :: Lookup(r, d) == SpeedOn(speeds, d)
  {
    Aggregate(SpeedRows(speeds), Mean)
  }

  /**
   * Steps left-joined with speeds: a row for exactly the days with step
   * records, holding the unchanged step total and the day's speed, which is
   * missing (not 0) when no speed record starts that day.
   */
  lemma StepsWithSpeed(steps: seq<StepEvent>, speeds: seq<SpeedEvent>, d: Day)
    ensures Lookup(LeftJoin(StepTotals(steps), SpeedMeans(speeds)), d) ==
            if CountsOn(steps, d) == [] then None else Some((Sum(CountsOn(steps, d)), SpeedOn(speeds, d)))
  {
    LeftJoinLookup(StepTotals(steps), SpeedMeans(speeds), d);
  }

  // ---- Focus sessions ---------------------------------------------------

  /** A session's length in minutes, from its full start and end timestamps. */
  function Minutes(s: Session): real {
    (s.end - s.start) as real / 60.0
  }

  /** The sessions table after Duration is computed and only then Start Time is cut to its day. */
  function FocusRows(forest: seq<Session>): seq<(Day, real)> {
    seq(|forest|, i requires 0 <= i < |forest| => (DayOf(forest[i].start), Minutes(forest[i])))
  }

  /** The durations of the sessions that start on day d, in file order. */
  function MinutesOn(forest: seq<Session>, d: Day): seq<real> {
    Values(FocusRows(forest), d)
  }

  /**
   * Daily focus totals: one row per day on which some session starts,
   * ascending, holding the sum of those sessions' durations. A session that
   * runs past midnight counts in full on its start day.
   */
  function FocusTotals(forest: seq<Session>): (r: Series<real>)
    ensures Ascending(r)
    ensures forall d :: Lookup(r, d) == if MinutesOn(forest, d) == [] then None else Some(SumReal(MinutesOn(forest, d)))
  {
    Aggregate(FocusRows(forest), SumReal)
  }

  /**
   * A session's whole duration, measured on its full timestamps, counts
   * towards the day it starts on, even when it ends on a later day.
   */
  lemma SessionOnStartDay(forest: seq<Session>, i: int)
    requires 0 <= i < |forest|
    ensures Minutes(forest[i]) in MinutesOn(forest, DayOf(forest[i].start))
    ensures Minutes(forest[i]) * 60.0 == (forest[i].end - forest[i].start) as real
  {
    ValuesHas(FocusRows(forest), i);
  }

  /** Day d lies between the start day of some session and the start day of some session. */
  predicate InFocusRange(forest: seq<Session>, d: Day) {
    exists i, j :: 0 <= i < |forest| && 0 <= j < |forest| && DayOf(forest[i].start) <= d <= DayOf(forest[j].start)
  }

  /** A day has a focus total exactly when some session starts on it. */
  lemma FocusDays(forest: seq<Session>, k: Day)
    ensures k in Keys(FocusTotals(forest)) <==> exists i :: 0 <= i < |forest| && DayOf(forest[i].start) == k
  {
    var rows := FocusRows(forest);
    AggregateKeys(rows, SumReal, k);
    if k in Keys(rows) {
      var i :| 0 <= i < |rows| && rows[i].0 == k;
      assert DayOf(forest[i].start) == k;
    }
    if exists i :: 0 <= i < |forest| && DayOf(forest[i].start) == k {
      var i :| 0 <= i < |forest| && DayOf(forest[i].start) == k;
      assert rows[i].0 == k;
    }
  }

  /** The range between the first and last focus day is the range between the earliest and latest session start day. */
  lemma FocusRange(forest: seq<Session>, d: Day)
    ensures InFocusRange(forest, d) <==>
            var f := FocusTotals(forest); f != [] && f[0].0 <= d <= f[|f| - 1].0
  {
    var f := FocusTotals(forest);
    if InFocusRange(forest, d) {
      var i, j :| 0 <= i < |forest| && 0 <= j < |forest| && DayOf(forest[i].start) <= d <= DayOf(forest[j].start);
      FocusDays(forest, DayOf(forest[i].start));
      FocusDays(forest, DayOf(forest[j].start));
      KeysBetween(f, DayOf(forest[i].start));
      KeysBetween(f, DayOf(forest[j].start));
    }
    if f != [] && f[0].0 <= d <= f[|f| - 1].0 {
      assert f[0].0 in Keys(f) && f[|f| - 1].0 in Keys(f);
      FocusDays(forest, f[0].0);
      FocusDays(forest, f[|f| - 1].0);
      var a :| 0 <= a < |forest| && DayOf(forest[a].start) == f[0].0;
      var b :| 0 <= b < |forest| && DayOf(forest[b].start) == f[|f| - 1].0;
      assert DayOf(forest[a].start) <= d <= DayOf(forest[b].start);
    }
  }

  /**
   * The focus calendar: for every day from the earliest to the latest
   * session start day, the day's focus total, and 0 for days without
   * sessions; no row for any other day.
   */
  lemma DenseFocus(forest: seq<Session>, d: Day)
    ensures Lookup(Densify(FocusTotals(forest), 0.0), d) ==
            if InFocusRange(forest, d) then Some(SumReal(MinutesOn(forest, d))) else None
  {
    var f := FocusTotals(forest);
    DensifyLookup(f, 0.0, d);
    assert Lookup(f, d).GetOr(0.0) == SumReal(MinutesOn(forest, d));
    FocusRange(forest, d);
  }

  // ---- Output -----------------------------------------------------------

  /** The output row of one joined row: the values pass through, the weekday is derived from the date. */
  function Record(row: (Day, ((int, Option<real>), real))): DailyRecord {
    DailyRecord(row.0, row.1.0.0, row.1.0.1, row.1.1, DayName(row.0))
  }

  /** The output rows of a joined table, in its order. */
  function Project(joined: Series<((int, Option<real>), real)>): seq<DailyRecord> {
    seq(|joined|, i requires 0 <= i < |joined| => Record(joined[i]))
  }

  /**
   * Projection keeps the joined table's days, in its order, one output row
   * per joined row, each made from the joined values of its own day.
   */
  lemma ProjectRows(joined: Series<((int, Option<real>), real)>)
    requires Ascending(joined)
    ensures forall i, j :: 0 <= i < j < |Project(joined)| ==> Project(joined)[i].date < Project(joined)[j].date
    ensures forall d :: (exists i :: 0 <= i < |Project(joined)| && Project(joined)[i].date == d) <==> d in Keys(joined)
    ensures forall i :: 0 <= i < |Project(joined)| ==>
                        Lookup(joined, Project(joined)[i].date) == Some(joined[i].1) &&
                        Project(joined)[i] == Record((Project(joined)[i].date, joined[i].1))
  {
    var data := Project(joined);
    assert |data| == |joined|;
    forall i | 0 <= i < |data| ensures data[i] == Record(joined[i]) && data[i].date == joined[i].0 {
    }
    forall i, j | 0 <= i < j < |data| ensures data[i].date < data[j].date {
    }
    forall d | d in Keys(joined) ensures exists i :: 0 <= i < |data| && data[i].date == d {
      var i :| 0 <= i < |joined| && joined[i].0 == d;
      assert data[i].date == d;
    }
    forall i | 0 <= i < |data| ensures Lookup(joined, data[i].date) == Some(joined[i].1) {
      LookupAt(joined, i);
    }
  }

  /** The row the script writes for day d, stated from the input records. */
  function RowFor(steps: seq<StepEvent>, speeds: seq<SpeedEvent>, forest: seq<Session>, d: Day): DailyRecord {
    DailyRecord(
      d,
      Sum(CountsOn(steps, d)),
      SpeedOn(speeds, d),
      SumReal(MinutesOn(forest, d)),
      DayName(d))
  }

  /**
   * The table after both joins, day by day: a row for exactly the days that
   * have step records and lie within the focus calendar, holding the step
   * total, the optional mean speed and the focus minutes of that day.
   */
  lemma DailyJoin(steps: seq<StepEvent>, speeds: seq<SpeedEvent>, forest: seq<Session>, d: Day)
    ensures Lookup(InnerJoin(LeftJoin(StepTotals(steps), SpeedMeans(speeds)), Densify(FocusTotals(forest), 0.0)), d) ==
            if CountsOn(steps, d) != [] && InFocusRange(forest, d)
            then Some(((Sum(CountsOn(steps, d)), SpeedOn(speeds, d)), SumReal(MinutesOn(forest, d))))
            else None
  {
    StepsWithSpeed(steps, speeds, d);
    DenseFocus(forest, d);
  }

  /**
   * The whole script: steps grouped and summed, left-joined with the daily
   * mean speeds, inner-joined with the densified focus calendar, and
   * projected to the output rows. The result has one row for each day that
   * has step records and lies within the focus calendar, ascending, and each
   * row carries that day's totals.
   */
  method Run(steps: seq<StepEvent>, speeds: seq<SpeedEvent>, forest: seq<Session>) returns (data: seq<DailyRecord>)
    ensures forall i, j :: 0 <= i < j < |data| ==> data[i].date < data[j].date
    ensures forall d :: (exists i :: 0 <= i < |data| && data[i].date == d) <==>
                        (CountsOn(steps, d) != [] && InFocusRange(forest, d))
    ensures forall i :: 0 <= i < |data| ==> data[i] == RowFor(steps, speeds, forest, data[i].date)
  {
    var stepsGrouped := StepTotals(steps);
    var speedMeans := SpeedMeans(speeds);
    var stepsWithSpeed := LeftJoin(stepsGrouped, speedMeans);
    var focus := FocusTotals(forest);
    focus := Densify(focus, 0.0);
    var joined := InnerJoin(stepsWithSpeed, focus);
    data := Project(joined);

    ProjectRows(joined);
    forall d ensures d in Keys(joined) <==> CountsOn(steps, d) != [] && InFocusRange(forest, d) {
      DailyJoin(steps, speeds, forest, d);
    }
    forall i | 0 <= i < |data| ensures data[i] == RowFor(steps, speeds, forest, data[i].date) {
      DailyJoin(steps, speeds, forest, data[i].date);
    }
  }

  // ---- The worked example -------------------------------------------

  /** 2024-01-01T00:00Z, day 19723. */
  const JAN_1: int := 19723 * SECONDS_PER_DAY

  /** Two step records on 2024-01-01 (5 and 3 steps) and one on 2024-01-02 (10 steps). */
  const EXAMPLE_STEPS: seq<StepEvent> := [
    StepEvent(JAN_1 + 8 * 3600, JAN_1 + 8 * 3600 + 60, 5),
    StepEvent(JAN_1 + 9 * 3600, JAN_1 + 9 * 3600 + 60, 3),
    StepEvent(JAN_1 + 32 * 3600, JAN_1 + 32 * 3600 + 60, 10)]

  /** One 30-minute session, 10:00 to 10:30 on 2024-01-01. */
  const EXAMPLE_FOREST: seq<Session> := [Session(JAN_1 + 10 * 3600, JAN_1 + 10 * 3600 + 1800)]

  lemma ExampleStepCounts()
    ensures CountsOn(EXAMPLE_STEPS, 19723) == [5, 3]
  {
    var rows := StepRows(EXAMPLE_STEPS);
    assert DayOf(JAN_1 + 8 * 3600) == 19723;
    assert DayOf(JAN_1 + 9 * 3600) == 19723;
    assert DayOf(JAN_1 + 32 * 3600) == 19724;
    assert rows == [(19723, 5), (19723, 3), (19724, 10)];
    assert rows[..2][..1] == [(19723, 5)] && rows[..2] == [(19723, 5), (19723, 3)];
    assert Values(rows[..2][..1], 19723) == [5];
    assert Values(rows[..2], 19723) == [5, 3];
  }

  lemma ExampleFocus(d: Day)
    ensures MinutesOn(EXAMPLE_FOREST, 19723) == [30.0]
    ensures InFocusRange(EXAMPLE_FOREST, d) <==> d == 19723
  {
    assert DayOf(JAN_1 + 10 * 3600) == 19723;
    assert FocusRows(EXAMPLE_FOREST) == [(19723, 30.0)];
  }

  /** A non-empty table in strictly ascending date order whose every row is r is the single row r. */
  lemma SingleDay(data: seq<DailyRecord>, r: DailyRecord)
    requires forall i, j :: 0 <= i < j < |data| ==> data[i].date < data[j].date
    requires |data| > 0
    requires forall i :: 0 <= i < |data| ==> data[i] == r
    ensures data == [r]
  {
    assert |data| < 2 || data[0].date < data[1].date;
  }

  /**
   * The worked example: with no speed records, the focus calendar is the
   * single day 2024-01-01, so the step day 2024-01-02 is dropped by the
   * inner join and one row remains, a Monday with 30 minutes and 8 steps.
   */
  method Scenario() returns (data: seq<DailyRecord>)
    ensures data == [DailyRecord(19723, 8, None, 30.0, "Monday")]
  {
    data := Run(EXAMPLE_STEPS, [], EXAMPLE_FOREST);
    ExampleStepCounts();
    ExampleFocus(19723);
    assert SpeedsOn([], 19723) == [];
    KnownWeekdays();
    var expected := DailyRecord(19723, 8, None, 30.0, "Monday");
    assert RowFor(EXAMPLE_STEPS, [], EXAMPLE_FOREST, 19723) == expected;
    assert exists i :: 0 <= i < |data| && data[i].date == 19723;
    forall i | 0 <= i < |data| ensures data[i] == expected {
      ExampleFocus(data[i].date);
    }
    SingleDay(data, expected);
  }
}
