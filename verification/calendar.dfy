/**
 * The part of java.time the calendar screen relies on: months, leap years,
 * month lengths and the ISO day of the week, over the proleptic Gregorian
 * calendar (ISO 8601:2004, section 3.2.1) with days of the week numbered
 * Monday = 1 ... Sunday = 7 (section 3.2.2).
 */
module Calendar {

  /** java.time.Month */
  datatype Month =
    | January | February | March | April | May | June
    | July | August | September | October | November | December
  {
    /** Month.getValue(): 1 for January ... 12 for December. */
    function Value(): (v: int)
      ensures 1 <= v <= 12
    {
      match this
      case January => 1
      case February => 2
      case March => 3
      case April => 4
      case May => 5
      case June => 6
      case July => 7
      case August => 8
      case September => 9
      case October => 10
      case November => 11
      case December => 12
    }
  }

  /** Month.of(v); java throws for a value outside 1..12. */
  function MonthOf(v: int): (m: Month)
    requires 1 <= v <= 12
    ensures m.Value() == v
  {
    match v
    case 1 => January
    case 2 => February
    case 3 => March
    case 4 => April
    case 5 => May
    case 6 => June
    case 7 => July
    case 8 => August
    case 9 => September
    case 10 => October
    case 11 => November
    case _ => December
  }

  /** The month after m, for every month but December. */
  function NextMonth(m: Month): (n: Month)
    requires m != December
    ensures n.Value() == m.Value() + 1
  {
    MonthOf(m.Value() + 1)
  }

  /** Gregorian leap-year rule; Dafny's % never yields a negative remainder,
      so the rule reads the same for years before year 0. */
  predicate IsLeapYear(year: int)
  {
    year % 4 == 0 && (year % 100 != 0 || year % 400 == 0)
  }

  function LengthOfYear(year: int): (n: int)
    ensures n == 365 || n == 366
  {
    if IsLeapYear(year) then 366 else 365
  }

  /** YearMonth.lengthOfMonth() */
  function LengthOfMonth(year: int, m: Month): (n: int)
    ensures 28 <= n <= 31
    ensures m == February ==> n == (if IsLeapYear(year) then 29 else 28)
    ensures m != February ==> n >= 30
  {
    match m
    case February => if IsLeapYear(year) then 29 else 28
    case April => 30
    case June => 30
    case September => 30
    case November => 30
    case _ => 31
  }

  /** The days of year `year` that precede the first of month m. */
  function DaysBeforeMonth(year: int, m: Month): int
  {
    var common := [0, 31, 59, 90, 120, 151, 181, 212, 243, 273, 304, 334][m.Value() - 1];
    if m.Value() > 2 && IsLeapYear(year) then common + 1 else common
  }

  /** The days from 0000-01-01 to the first day of `year` (negative before year 0). */
  function DaysBeforeYear(year: int): int
  {
    365 * year + (year + 3) / 4 - (year + 99) / 100 + (year + 399) / 400
  }

  /** java.time.LocalDate: a date that LocalDate.of accepts. */
  datatype Date = Date(year: int, month: Month, day: int)

  predicate ValidDate(d: Date)
  {
    1 <= d.day <= LengthOfMonth(d.year, d.month)
  }

  type LocalDate = d: Date | ValidDate(d) witness Date(1970, January, 1)

  /** LocalDate.toEpochDay(): days since 1970-01-01. */
  function EpochDay(d: LocalDate): int
  {
    DaysBeforeYear(d.year) + DaysBeforeMonth(d.year, d.month) + d.day - 1 - 719528
  }

  /** LocalDate.getDayOfWeek().getValue(): Monday = 1 ... Sunday = 7. */
  function DayOfWeek(d: LocalDate): (w: int)
    ensures 1 <= w <= 7
  {
    (EpochDay(d) + 3) % 7 + 1
  }

  /** LocalDate.plusDays(1): the next calendar date. */
  function NextDay(d: LocalDate): (n: LocalDate)
  {
    if d.day < LengthOfMonth(d.year, d.month) then Date(d.year, d.month, d.day + 1)
    else if d.month != December then Date(d.year, NextMonth(d.month), 1)
    else Date(d.year + 1, January, 1)
  }

  // ---------------------------------------------------------------------------
  // Lemmas

  /** The months of a year follow one another without gaps: each month starts
      where the previous one ends, and December ends where the year ends. */
  lemma MonthFollows(year: int, m: Month)
    ensures m != December ==>
      DaysBeforeMonth(year, NextMonth(m)) == DaysBeforeMonth(year, m) + LengthOfMonth(year, m)
    ensures m == December ==>
      DaysBeforeMonth(year, m) + LengthOfMonth(year, m) == LengthOfYear(year)
  {
  }

  /** Each year starts where the previous one ends. */
  lemma {:induction false} YearFollows(year: int)
    ensures DaysBeforeYear(year + 1) == DaysBeforeYear(year) + LengthOfYear(year)
  {
    StepBy4(year);
    StepBy100(year);
    StepBy400(year);
    MultiplesNest(year);
  }

  // A multiple of 400 is a multiple of 100, and a multiple of 100 one of 4.
  lemma MultiplesNest(year: int)
    ensures year % 400 == 0 ==> year % 100 == 0
    ensures year % 100 == 0 ==> year % 4 == 0
  {
    if year % 400 == 0 {
      Multiple400(year, year / 400);
    }
    if year % 100 == 0 {
      Multiple100(year, year / 100);
    }
  }

  lemma {:induction false} Multiple400(year: int, q: int)
    requires year == 400 * q
    ensures year % 100 == 0
  {
    var k := 4 * q;
    assert year == 100 * k;
  }

  lemma {:induction false} Multiple100(year: int, q: int)
    requires year == 100 * q
    ensures year % 4 == 0
  {
    var k := 25 * q;
    assert year == 4 * k;
  }

  // The count of multiples of k up to a year grows by one exactly at a multiple of k.
  lemma {:induction false} StepBy4(year: int)
    ensures (year + 4) / 4 - (year + 3) / 4 == if year % 4 == 0 then 1 else 0
  {
    var q, r := year / 4, year % 4;
    assert year == 4 * q + r && 0 <= r < 4;
    assert (year + 4) / 4 == q + 1;
    if r == 0 {
      assert (year + 3) / 4 == q;
    } else {
      assert (year + 3) / 4 == q + 1;
    }
  }

  lemma {:induction false} StepBy100(year: int)
    ensures (year + 100) / 100 - (year + 99) / 100 == if year % 100 == 0 then 1 else 0
  {
    var q, r := year / 100, year % 100;
    assert year == 100 * q + r && 0 <= r < 100;
    assert (year + 100) / 100 == q + 1;
    if r == 0 {
      assert (year + 99) / 100 == q;
    } else {
      assert (year + 99) / 100 == q + 1;
    }
  }

  lemma {:induction false} StepBy400(year: int)
    ensures (year + 400) / 400 - (year + 399) / 400 == if year % 400 == 0 then 1 else 0
  {
    var q, r := year / 400, year % 400;
    assert year == 400 * q + r && 0 <= r < 400;
    assert (year + 400) / 400 == q + 1;
    if r == 0 {
      assert (year + 399) / 400 == q;
    } else {
      assert (year + 399) / 400 == q + 1;
    }
  }

  /** The next calendar date is one epoch day later. */
  lemma {:induction false} NextDayIsOneLater(d: LocalDate)
    ensures EpochDay(NextDay(d)) == EpochDay(d) + 1
  {
    MonthFollows(d.year, d.month);
    if d.day == LengthOfMonth(d.year, d.month) && d.month == December {
      YearFollows(d.year);
    }
  }

  /** The day of the week advances by one, Sunday wrapping round to Monday:
      together with the anchor below this fixes DayOfWeek on every date. */
  lemma {:induction false} DayOfWeekAdvances(d: LocalDate)
    ensures DayOfWeek(NextDay(d)) == DayOfWeek(d) % 7 + 1
  {
    var e := EpochDay(d);
    NextDayIsOneLater(d);
    ModAdd(e + 3, 1);
    assert DayOfWeek(NextDay(d)) == (e + 3 + 1) % 7 + 1;
  }

  /** Within a month, day k + 1 falls k weekdays after the first. */
  lemma {:induction false} DayOfWeekInMonth(year: int, m: Month, k: int)
    requires 0 <= k < LengthOfMonth(year, m)
    ensures DayOfWeek(Date(year, m, k + 1)) == (DayOfWeek(Date(year, m, 1)) - 1 + k) % 7 + 1
  {
    var e := EpochDay(Date(year, m, 1));
    assert EpochDay(Date(year, m, k + 1)) == e + k;
    ModAdd(e + 3, k);
  }

  lemma {:induction false} ModAdd(a: int, b: int)
    ensures (a + b) % 7 == (a % 7 + b) % 7
  {
    var q := a / 7;
    assert a == 7 * q + a % 7;
    assert a + b == 7 * q + (a % 7 + b);
  }

  /** 1970-01-01, epoch day 0, was a Thursday; 2024-01-01 was a Monday. */
  lemma DayOfWeekAnchors()
    ensures EpochDay(Date(1970, January, 1)) == 0
    ensures DayOfWeek(Date(1970, January, 1)) == 4
    ensures DayOfWeek(Date(2024, January, 1)) == 1
  {
  }
}
