/**
 * The calendar screen's arithmetic: the leading empty cells, one cell per day
 * of the month with its "has task" flag, and the year picker's range.
 */
module CalendarGrid {
  import opened Calendar
  import opened Tasks
  import opened DayQuery

  /** A grid cell: an empty spacer, or a day cell with its label and flag. */
  datatype Cell = Blank | DayCell(day: int, hasTasks: bool)

  /** `firstDayOfMonth - 1`: the empty cells before the 1st in a week that
      starts on Monday. */
  function LeadingBlanks(year: int, month: Month): (n: int)
    ensures 0 <= n <= 6
    ensures DayOfWeek(Date(year, month, 1)) == n + 1
  {
    DayOfWeek(Date(year, month, 1)) - 1
  }

  /** `dayHasTask` AS WRITTEN: `index` is the cell's 0-based position among
      the day cells, which the source compares with `task.day` directly. */
  function DayHasTask(tasks: seq<Task>, month: Month, index: int): (flagged: bool)
    ensures flagged <==> TasksOn(tasks, month, index) != []
  {
    AnyIsNonEmptyFilter(tasks, month, index);
    exists t :: t in tasks && t.day == index && t.month == month
  }

  /** The flag as evidently intended: tasks on the day the cell is labelled with. */
  predicate IntendedDayHasTask(tasks: seq<Task>, month: Month, dayOfMonth: int)
  {
    exists t :: t in tasks && t.day == dayOfMonth && t.month == month
  }

  /** The cells of the grid: the leading blanks, then the day cells labelled
      1 to the length of the month. */
  function Grid(year: int, month: Month, tasks: seq<Task>): (cells: seq<Cell>)
    ensures |cells| == LeadingBlanks(year, month) + LengthOfMonth(year, month)
    ensures forall i :: 0 <= i < |cells| ==> (cells[i].Blank? <==> i < LeadingBlanks(year, month))
    ensures forall i | LeadingBlanks(year, month) <= i < |cells| ::
              cells[i].DayCell? && cells[i].day == i - LeadingBlanks(year, month) + 1
  {
    seq(LeadingBlanks(year, month), _ => Blank) +
    seq(LengthOfMonth(year, month), index => DayCell(index + 1, DayHasTask(tasks, month, index)))
  }

  /** `(currentYear - 3 .. currentYear + 3).toList()` */
  function YearRange(currentYear: int): (years: seq<int>)
    ensures |years| == 7
    ensures years[0] == currentYear - 3 && years[6] == currentYear + 3
    ensures forall i :: 0 <= i < 6 ==> years[i + 1] == years[i] + 1
    ensures forall y :: y in years <==> currentYear - 3 <= y <= currentYear + 3
  {
    var years := seq(7, i => currentYear - 3 + i);
    forall y | currentYear - 3 <= y <= currentYear + 3 ensures y in years {
      assert years[y - currentYear + 3] == y;
    }
    years
  }

  // ---------------------------------------------------------------------------
  // Lemmas

  /** `any` with a test holds exactly when `filter` with it keeps something. */
  lemma AnyIsNonEmptyFilter(tasks: seq<Task>, month: Month, day: int)
    ensures (exists t :: t in tasks && t.day == day && t.month == month) <==> TasksOn(tasks, month, day) != []
  {
    var onDay := TasksOn(tasks, month, day);
    if onDay != [] {
      assert onDay[0] in onDay;
    }
  }

  /** Each day cell stands in the column of the weekday header ("Mon" ...
      "Sun") that names its date's day of the week. */
  lemma {:induction false} ColumnIsDayOfWeek(year: int, month: Month, tasks: seq<Task>, i: int)
    requires 0 <= i < |Grid(year, month, tasks)| && Grid(year, month, tasks)[i].DayCell?
    ensures var shown := Grid(year, month, tasks)[i].day;
      1 <= shown <= LengthOfMonth(year, month) &&
      DayOfWeek(Date(year, month, shown)) == i % 7 + 1
  {
    var b := LeadingBlanks(year, month);
    DayOfWeekInMonth(year, month, i - b);
  }

  /** As written, the flag on the cell labelled d + 1 tells whether the list
      of day d is non-empty, not the list the cell opens. */
  lemma {:induction false} FlagShowsPreviousDay(year: int, month: Month, tasks: seq<Task>, i: int)
    requires 0 <= i < |Grid(year, month, tasks)| && Grid(year, month, tasks)[i].DayCell?
    ensures var cell := Grid(year, month, tasks)[i];
      cell.hasTasks <==> Query(tasks, month, cell.day - 1) != []
  {
    var cell := Grid(year, month, tasks)[i];
    var q := Query(tasks, month, cell.day - 1);
    if q != [] {
      assert q[0] in q;
    }
  }

  /** Counterexample: a single task on March 5; the cell labelled 5 is not
      flagged, and the cell labelled 6, whose list is empty, is. */
  lemma FlagMissesTaskDay()
    ensures var tasks := [Task("Pay bills", "", false, March, 5)];
      var cells := Grid(2024, March, tasks);
      var i := LeadingBlanks(2024, March) + 4;
      && i + 1 < |cells|
      && cells[i] == DayCell(5, false) && Query(tasks, March, 5) != []
      && cells[i + 1] == DayCell(6, true) && Query(tasks, March, 6) == []
  {
    var payBills := Task("Pay bills", "", false, March, 5);
    var tasks := [payBills];
    assert payBills in Query(tasks, March, 5);
    assert !DayHasTask(tasks, March, 4);
    assert DayHasTask(tasks, March, 5);
  }

  /** The corrected flag is set exactly when the cell's own list is non-empty. */
  lemma {:induction false} IntendedFlagMatchesList(tasks: seq<Task>, month: Month, dayOfMonth: int)
    ensures IntendedDayHasTask(tasks, month, dayOfMonth) <==> Query(tasks, month, dayOfMonth) != []
  {
    var q := Query(tasks, month, dayOfMonth);
    if q != [] {
      assert q[0] in q;
    }
  }

  /** In 2024 February has 29 day cells; in 2023, 28. May 2024 begins on a
      Wednesday, so its grid opens with two blanks. */
  lemma GridExamples()
    ensures LengthOfMonth(2024, February) == 29
    ensures LengthOfMonth(2023, February) == 28
    ensures DayOfWeek(Date(2024, May, 1)) == 3 && LeadingBlanks(2024, May) == 2
  {
  }
}
