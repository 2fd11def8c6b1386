/**
 * Calendar arithmetic on UTC timestamps: truncation of a timestamp in
 * seconds to its calendar day, and the English weekday name of a day.
 */
module Calendar {
  import opened Series

  const SECONDS_PER_DAY: int := 86400

  /** Weekday names in ISO order, Monday first. */
  const WEEKDAY_NAMES: seq<string> :=
    ["Monday", "Tuesday", "Wednesday", "Thursday", "Friday", "Saturday", "Sunday"]

  /** Position in WEEKDAY_NAMES of day 0, 1970-01-01, a Thursday. */
  const EPOCH_WEEKDAY: int := 3

  /**
   * The calendar day of a UTC timestamp in seconds: the day whose
   * midnight-to-midnight span contains it (floor division, also for
   * timestamps before 1970).
   */
  function DayOf(t: int): (d: Day)
    ensures d * SECONDS_PER_DAY <= t < (d + 1) * SECONDS_PER_DAY
  {
    t / SECONDS_PER_DAY
  }

  /** The English name of the weekday of day d. */
  function DayName(d: Day): (name: string)
    ensures name in WEEKDAY_NAMES
  {
    WEEKDAY_NAMES[(d + EPOCH_WEEKDAY) % 7]
  }

  /** Shifting a number by whole weeks keeps its remainder modulo 7. */
  lemma {:induction false} WeekShift(x: int, weeks: int)
    ensures (x + 7 * weeks) % 7 == x % 7
    decreases if weeks < 0 then -weeks else weeks
  {
    if weeks > 0 {
      WeekShift(x, weeks - 1);
      var y := x + 7 * (weeks - 1);
      assert x + 7 * weeks == y + 7;
      assert (y + 7) % 7 == y % 7;
    } else if weeks < 0 {
      WeekShift(x, weeks + 1);
      var y := x + 7 * weeks;
      assert x + 7 * (weeks + 1) == y + 7;
      assert (y + 7) % 7 == y % 7;
    }
  }

  /** The weekday name repeats every seven days, forwards and backwards. */
  lemma DayNamePeriodic(d: Day, weeks: int)
    ensures DayName(d + 7 * weeks) == DayName(d)
  {
    WeekShift(d + EPOCH_WEEKDAY, weeks);
    assert d + 7 * weeks + EPOCH_WEEKDAY == (d + EPOCH_WEEKDAY) + 7 * weeks;
  }

  /** The seven weekday names are pairwise different. */
  lemma NamesDistinct(a: int, b: int)
    requires 0 <= a < 7 && 0 <= b < 7 && a != b
    ensures WEEKDAY_NAMES[a] != WEEKDAY_NAMES[b]
  {
    var initials := ["Mo", "Tu", "We", "Th", "Fr", "Sa", "Su"];
    assert forall k :: 0 <= k < 7 ==> WEEKDAY_NAMES[k][..2] == initials[k];
    assert initials[a] != initials[b];
  }

  /** Seven consecutive days carry seven different names, so the period is exactly a week. */
  lemma DayNameWeek(d: Day, i: int, j: int)
    requires 0 <= i < j < 7
    ensures DayName(d + i) != DayName(d + j)
  {
    NamesDistinct((d + i + EPOCH_WEEKDAY) % 7, (d + j + EPOCH_WEEKDAY) % 7);
  }

  /** The day after a day named WEEKDAY_NAMES[k] is named WEEKDAY_NAMES[(k + 1) % 7]: the names run in calendar order. */
  lemma DayNameNext(d: Day, k: int)
    requires 0 <= k < 7 && DayName(d) == WEEKDAY_NAMES[k]
    ensures DayName(d + 1) == WEEKDAY_NAMES[(k + 1) % 7]
  {
    var w := (d + EPOCH_WEEKDAY) % 7;
    if w != k {
      NamesDistinct(w, k);
    }
    assert (d + 1 + EPOCH_WEEKDAY) % 7 == (w + 1) % 7;
  }

  /** 2024-01-01, a Monday. */
  const KNOWN_MONDAY: Day := 19723

  /**
   * The name of any day counted from a known Monday: day d is the
   * ((d - KNOWN_MONDAY) mod 7)-th day of its Monday-first week.
   */
  lemma DayNameFromMonday(d: Day)
    ensures DayName(d) == WEEKDAY_NAMES[(d - KNOWN_MONDAY) % 7]
  {
    DayNamePeriodic(d - KNOWN_MONDAY - EPOCH_WEEKDAY, 2818);
  }

  /** 1970-01-01 (day 0) was a Thursday and 2024-01-01 (day 19723) a Monday. */
  lemma KnownWeekdays()
    ensures DayName(0) == "Thursday"
    ensures DayName(KNOWN_MONDAY) == "Monday"
  {
  }
}
