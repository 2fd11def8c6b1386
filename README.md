# Daily activity table

A model of the daily aggregation script `cleandata.py`. It reads three
exports:

- step-count records (start, end, count);
- walking-speed records (start, end, speed);
- focus sessions from the Forest app (start time, end time).

It reduces each export to one row per calendar day:

- steps are summed per day;
- speeds are averaged per day;
- focus durations in minutes are summed per day.

It then aligns the three on the day and writes one daily table with the
columns Date, Steps, Speed, Study and Day. The stages are:

1. Step totals per day (`CleanData.StepTotals`).
2. A left join with the daily mean speeds (`Align.LeftJoin`). The speed of a
   day without speed records is missing, not zero.
3. Focus totals per day (`CleanData.FocusTotals`). They are re-sampled to
   every day between the first and the last focus day, and a day without a
   session gets 0 (`Align.Densify`).
4. An inner join of the steps side with the focus calendar
   (`Align.InnerJoin`). Only days that have step records and lie within the
   focus calendar survive.
5. The weekday name of every remaining day (`Calendar.DayName`). Then the
   column `Start Time` is dropped and the remaining columns are renamed
   (`Columns`).

`CleanData.Run` chains the stages. Its contract states, for every day:

- the output has a row for that day exactly when the day has a step record
  and lies between two session start days;
- the rows are in ascending date order;
- each row holds that day's step total, its mean speed or a missing value,
  its total focus minutes and its weekday name.

`CleanData.Scenario` applies `Run` to a small worked example and proves that the result is a single row.

Files:

- `series.dfy`: day-keyed tables, as strictly ascending sequences of
  (day, value) pairs. It holds the group-by as `Group`/`Aggregate`.
- `align.dfy`: the two joins on the day, and the daily re-sampling.
- `calendar.dfy`: truncation of a UTC timestamp to its day, and weekday
  names.
- `columns.dfy`: the column list of the joined table, the drop and the
  renaming.
- `cleandata.dfy`: the three input record types, the per-day reductions,
  the output record and the script.

The script's column handling differs from a plain reading of its purpose.
Line 41 drops only `Start Time`, so the `Speed` column stays in the output.
The written table is therefore Date, Steps, Speed, Study, Day, and not just
Date, Day, Study and Steps. The model follows the code
(`Columns.OutputColumns`).

## Model

| member | source | states |
|---|---|---|
| Calendar.DayOf | cleandata.py:9 | A timestamp's day is the day whose midnight-to-midnight UTC span contains it. This includes timestamps before 1970. |
| Series.Group | cleandata.py:11 | Grouping by day gives an ascending table with a row for exactly the days present. Each row holds that day's values in file order. |
| Series.Aggregate | cleandata.py:11 | Group-then-reduce gives an ascending table. It has a row only for days that have values, and each row holds the reducer applied to that day's values. |
| Series.GroupUnique | cleandata.py:11 | The grouping is the only ascending table whose per-day rows are the day's values. |
| Series.AggregateKeys | cleandata.py:11 | The aggregated table has a row for a day exactly when some input row carries that day. |
| CleanData.StepTotals | cleandata.py:8-11 | Daily step totals are ascending by day. A day's value is the exact sum of the counts of the records that start on it. A day without records has no row, not a zero row. |
| CleanData.StepDays | cleandata.py:9-11 | A day has a step total exactly when at least one step record starts on that day. |
| CleanData.StepTotalNonNegative | cleandata.py:10-11 | Every daily step total is non-negative. |
| CleanData.SpeedMeans | cleandata.py:14-17 | Daily speeds are ascending by day. A day's value is the mean of its speeds (their sum divided by their number), and only days with speed records have a row. |
| Align.LeftJoin | cleandata.py:20 | The left join keeps every left row, in place, with its value unchanged. Each row is paired with the right table's value for that day, or with a missing value. |
| Align.LeftJoinLookup | cleandata.py:20 | The left join has a row for exactly the left table's days. Each row holds the left value and the right table's optional value for that day. |
| CleanData.StepsWithSpeed | cleandata.py:17-20 | After the left join, a day has a row exactly when it has step records. The row holds the day's step total and its mean speed, or a missing value when the day has no speed record. |
| CleanData.FocusTotals | cleandata.py:28-30 | Daily focus totals are ascending by day. A day's value is the sum of the minutes of the sessions that start on it. |
| CleanData.SessionOnStartDay | cleandata.py:28-29 | A session's duration is measured on its full timestamps before truncation. The whole duration counts towards its start day. |
| CleanData.FocusDays | cleandata.py:29-30 | A day has a focus total exactly when some session starts on it. |
| Align.Densify | cleandata.py:34 | Daily re-sampling yields one row for each day from the first day to the last, in order. Days of the input keep their value, other days get the fill value, and an empty table stays empty. |
| Align.DensifyLookup | cleandata.py:34 | The re-sampled table has a row for exactly the days between its first and last day. |
| CleanData.FocusRange | cleandata.py:30-34 | The span from the first to the last focus day equals the span from the earliest to the latest session start day. |
| CleanData.DenseFocus | cleandata.py:30-34 | The focus calendar has a row for exactly the days between the earliest and latest session start day. A row holds the day's focus minutes, which are 0 when no session starts that day. |
| Align.InnerJoin | cleandata.py:39 | The inner join is ascending and has rows for exactly the days present in both tables. Each row pairs the two values of its day. |
| Align.InnerJoinUnique | cleandata.py:39 | The inner join is the only ascending table that pairs the two values of exactly the common days. |
| Calendar.DayName | cleandata.py:40 | The weekday is one of the seven English day names. |
| Calendar.DayNamePeriodic | cleandata.py:40 | The weekday name repeats every seven days, forwards and backwards in time. |
| Calendar.DayNameWeek | cleandata.py:40 | Seven consecutive days have seven different names, so the period is exactly one week. |
| Calendar.DayNameNext | cleandata.py:40 | The day after a day with a given name carries the next name in Monday-to-Sunday order, with Sunday followed by Monday. |
| Calendar.DayNameFromMonday | cleandata.py:40 | Every day's name is fixed by its distance, modulo 7, from the Monday 2024-01-01. |
| Calendar.KnownWeekdays | cleandata.py:40 | 1970-01-01 is a Thursday and 2024-01-01 is a Monday. |
| CleanData.DailyJoin | cleandata.py:20-39 | After both joins, a day has a row exactly when it has step records and lies between two session start days. The row holds the day's step total, its optional mean speed and its focus minutes. |
| CleanData.ProjectRows | cleandata.py:40-41 | Output rows keep the joined table's days in ascending order, one row per joined row. Each row carries its day's joined values and the weekday name of its date. |
| Columns.DropColumn | cleandata.py:41 | Dropping a column by its label fails exactly when the table has no such column. Otherwise it yields the columns without that label. |
| Columns.DropSpec | cleandata.py:41 | Dropping a column removes it and keeps every other column. |
| Columns.DropAppend | cleandata.py:41 | Dropping works column by column, so the kept columns stay in their order. |
| Columns.DropOne | cleandata.py:41 | Dropping the only occurrence of a column leaves the columns before it followed by the columns after it. |
| Columns.RenameSpec | cleandata.py:44 | Renaming keeps the number and positions of the columns. StartDate becomes Date, Duration becomes Study and StepCount becomes Steps, and other columns are unchanged. |
| Columns.OutputColumns | cleandata.py:39-44 | The drop of Start Time succeeds, and the written table has the columns Date, Steps, Speed, Study, Day, in that order. |
| CleanData.Run | cleandata.py:8-44 | Output rows are in strictly ascending date order. There is a row for a day exactly when it has step records and lies between two session start days. Each row holds the day's step total, mean speed or missing value, focus minutes and weekday name. |
| CleanData.Scenario | cleandata.py:8-44 | The worked example has 5 and 3 steps on 2024-01-01, 10 steps on 2024-01-02 and one 30-minute session on 2024-01-01. It yields the single row (2024-01-01, 8, missing, 30.0, Monday). |

## Left out

- Reading the three CSV files (lines 4-6), writing `cleaned_data.csv` (line 47) and the `print` calls: file I/O. The records are parameters and the table is the result.
- The unused `requests` import (line 2) and the commented-out regrouping (line 43): they have no effect.
- Timestamp text parsing and time-zone handling (lines 9, 15, 25-26): every timestamp is taken as UTC seconds already parsed. Malformed timestamp text aborts the script, and this is not modelled.
- An empty start-timestamp cell becomes a missing time (NaT) at lines 9, 15 and 25. The groupby at lines 11, 17 and 30 then drops that row without any error, because it drops missing keys by default. The model's timestamps are always present, so this silent loss of rows is not captured.
- An empty `End Time` cell gives a missing duration at line 28, and the sum at line 30 skips it, so that session adds nothing to its day. The model's sessions always have an end.
- CleanData.StepTotals: does not model the 64-bit integers that `astype(int)` produces at line 10. A daily sum past 2^63 - 1 wraps around at line 11, while the model's `Sum` is unbounded.
- CleanData.StepEvent: its count is already a whole number. `astype(int)` at line 10 truncates a fractional count read as a float toward zero instead of rejecting it, and that truncation is not captured.
- A non-numeric `StepCount` or `Speed` value aborts the script (lines 10, 16-17). This is not modelled, because the record fields are typed.
- CleanData.SpeedEvent: an empty `Speed` cell is read as a missing number (NaN), which the cast at line 16 accepts. `mean()` at line 17 skips it, so a day with speeds 1.0 and an empty cell has mean 1.0, and a day whose speeds are all empty gets a missing mean that, after the left join at line 20, looks like a day without speed records. The model's speeds are always present, so neither case is captured.
- CleanData.StepEvent: its count is a `nat`: the script casts counts to integers without checking their sign. Step exports carry non-negative counts, and `CleanData.StepTotalNonNegative` relies on that.
- Floating point: speeds, means and minutes are exact reals. Rounding in the per-session division by 60 and in the sums and means is not modelled.
- Line 16 writes a float copy of `Speed` into a `StepCount` column of the speeds table. Line 17 keeps only `Speed`, so that copy never reaches the output and is not modelled.
- `EndDate` is kept in `StepEvent` and `SpeedEvent` as `end`, and `StepRows` and `SpeedRows` ignore it, which is how the model treats the drop at lines 8 and 14. `Tag`, `Note`, `Tree Type` and `Is Success`, dropped at line 23, are not part of `Session`.
- Index types: the steps side is indexed by date objects (line 38) and the focus side by timestamps at midnight (line 33). The model uses one day key for both and assumes the join matches equal days.
- The `Start Time` column of the re-sampled focus table, which is zero-filled in gap rows (line 34), is not carried. Line 41 drops it, so it never reaches the output.
- In-place updates (`inplace=True`) and the re-binding of the script's variables are modelled as values passed from stage to stage.
- Calendar.DayName: its own contract states only that the name is one of the seven. The calendar order is stated by `Calendar.DayNameNext` and `Calendar.DayNameFromMonday`.
- The companion extractor `parserdata.py` is not part of this model.
