/**
 * Column labels of the daily table and the two relabelling steps applied
 * after the final join: dropping a column and renaming columns.
 */
module Columns {
  import opened Series

  /**
   * The labels the script handles; StartTime stands for the header
   * 'Start Time' and DayCol for the weekday header 'Day', every other
   * constructor for the header of its own name.
   */
  datatype Column = StartDate | StepCount | Speed | StartTime | Duration | DayCol | Date | Study | Steps

  /**
   * Columns of the joined table once the weekday is added: the step side
   * (StartDate, StepCount, Speed), the focus side (Start Time, Duration),
   * then the weekday column.
   */
  const JOINED: seq<Column> := [StartDate, StepCount, Speed, StartTime, Duration, DayCol]

  /** The renaming applied to the output columns: StartDate to Date, Duration to Study, StepCount to Steps. */
  function Renamed(c: Column): Column {
    match c
    case StartDate => Date
    case Duration => Study
    case StepCount => Steps
    case _ => c
  }

  /** Removes column c, keeping the order of the others. */
  function Drop(cols: seq<Column>, c: Column): seq<Column> {
    if cols == [] then []
    else (if cols[0] == c then [] else [cols[0]]) + Drop(cols[1..], c)
  }

  /** Dropping removes c and keeps every other column. */
  lemma {:induction false} DropSpec(cols: seq<Column>, c: Column)
    ensures c !in Drop(cols, c)
    ensures forall x :: x != c ==> (x in Drop(cols, c) <==> x in cols)
  {
    if cols != [] {
      DropSpec(cols[1..], c);
      assert cols == [cols[0]] + cols[1..];
    }
  }

  /** Dropping works column by column, so the kept columns stay in their order. */
  lemma {:induction false} DropAppend(a: seq<Column>, b: seq<Column>, c: Column)
    ensures Drop(a + b, c) == Drop(a, c) + Drop(b, c)
  {
    if a == [] {
      assert a + b == b;
    } else {
      DropAppend(a[1..], b, c);
      var head := if a[0] == c then [] else [a[0]];
      assert (a + b)[0] == a[0] && (a + b)[1..] == a[1..] + b;
      assert Drop(a + b, c) == head + Drop(a[1..] + b, c);
      assert Drop(a, c) == head + Drop(a[1..], c);
      assert head + (Drop(a[1..], c) + Drop(b, c)) == (head + Drop(a[1..], c)) + Drop(b, c);
    }
  }

  /** A list without c is left as it is. */
  lemma {:induction false} DropAbsent(cols: seq<Column>, c: Column)
    requires c !in cols
    ensures Drop(cols, c) == cols
  {
    if cols != [] {
      DropAbsent(cols[1..], c);
      assert cols == [cols[0]] + cols[1..];
    }
  }

  /**
   * Dropping the only occurrence of c closes the gap it leaves: the columns
   * before it and the columns after it, in their order.
   */
  lemma DropOne(a: seq<Column>, b: seq<Column>, c: Column)
    requires c !in a && c !in b
    ensures Drop(a + [c] + b, c) == a + b
  {
    DropAppend(a + [c], b, c);
    DropAppend(a, [c], c);
    assert [c][1..] == [];
    assert Drop([c], c) == [];
    DropAbsent(a, c);
    DropAbsent(b, c);
    assert Drop(a + [c], c) == a;
  }

  /**
   * Dropping a column by its label: the columns without c, or None when
   * the table has no column c (the drop then fails with a missing-label
   * error).
   */
  function DropColumn(cols: seq<Column>, c: Column): (r: Option<seq<Column>>)
    ensures r.None? <==> c !in cols
    ensures r.Some? ==> r.value == Drop(cols, c)
  {
    if c in cols then Some(Drop(cols, c)) else None
  }

  /** Relabels every column through Renamed, in place. */
  function Rename(cols: seq<Column>): seq<Column> {
    if cols == [] then [] else [Renamed(cols[0])] + Rename(cols[1..])
  }

  /** Renaming keeps the number and positions of the columns and changes labels only. */
  lemma {:induction false} RenameSpec(cols: seq<Column>)
    ensures |Rename(cols)| == |cols|
    ensures forall i :: 0 <= i < |cols| ==> Rename(cols)[i] == Renamed(cols[i])
  {
    if cols != [] {
      RenameSpec(cols[1..]);
    }
  }

  /** The columns of the joined table that remain once Start Time is dropped. */
  const KEPT: seq<Column> := [StartDate, StepCount, Speed, Duration, DayCol]

  /** Dropping Start Time from the joined table succeeds and closes its gap. */
  lemma DropStartTime()
    ensures DropColumn(JOINED, StartTime) == Some(KEPT)
  {
    assert StartTime in JOINED by {
      assert JOINED[3] == StartTime;
    }
    assert Drop(JOINED, StartTime) == KEPT by {
      var before, after := [StartDate, StepCount, Speed], [Duration, DayCol];
      assert JOINED == before + [StartTime] + after;
      DropOne(before, after, StartTime);
      assert before + after == KEPT;
    }
  }

  /** After Start Time is dropped and the renames applied, the columns are Date, Steps, Speed, Study, Day. */
  lemma OutputColumns()
    ensures DropColumn(JOINED, StartTime).Some?
    ensures Rename(DropColumn(JOINED, StartTime).value) == [Date, Steps, Speed, Study, DayCol]
  {
    DropStartTime();
    RenameSpec(KEPT);
  }
}
