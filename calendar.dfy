/**
 * Proleptic Gregorian calendar arithmetic as Python's `datetime` performs it:
 * dates, epoch day numbers, ISO 8601 week numbers, the current quarter's
 * first day and the previous calendar month.
 */
module Calendar {

  /** A calendar date, as Python's `datetime.date` holds it. */
  datatype Date = Date(year: int, month: int, day: int) {
    predicate Valid() {
      1 <= month <= 12 && 1 <= day <= 31
    }
  }

  /** A (year, month) pair naming one calendar month. */
  datatype YearMonth = YearMonth(year: int, month: int)

  const SecondsPerDay: int := 86400

  /** Months counted from year 0, so that consecutive months differ by one. */
  function MonthIndex(ym: YearMonth): int {
    12 * ym.year + ym.month - 1
  }

  /** Days from 1970-01-01 to the given date (negative before it). */
  function DaysFromCivil(d: Date): int
    requires d.Valid()
  {
    var y := if d.month <= 2 then d.year - 1 else d.year;
    var era := y / 400;
    var yoe := y - era * 400;
    var mp := if d.month > 2 then d.month - 3 else d.month + 9;
    var doy := (153 * mp + 2) / 5 + d.day - 1;
    var doe := yoe * 365 + yoe / 4 - yoe / 100 + doy;
    era * 146097 + doe - 719468
  }

  /**
   * Days from 0001-01-01 to January 1 of year `n + 1`: 365 a year plus one
   * for every leap year among the first `n` years.
   */
  function DaysBeforeYear(n: int): int {
    365 * n + n / 4 - n / 100 + n / 400
  }

  /** Epoch day of January 1 of `year`. */
  function NewYear(year: int): int {
    DaysBeforeYear(year - 1) - 719162
  }

  /** The Gregorian leap-year rule. */
  predicate IsLeapYear(y: int) {
    y % 4 == 0 && (y % 100 != 0 || y % 400 == 0)
  }

  /** The day-number algorithm puts January 1 of every year where counting whole years does. */
  lemma NewYearClosedForm(y: int)
    ensures DaysFromCivil(Date(y, 1, 1)) == NewYear(y)
  {
    var n := y - 1;
    var era := n / 400;
    var yoe := n - era * 400;
    assert n / 4 == era * 100 + yoe / 4;
    assert n / 100 == era * 4 + yoe / 100;
  }

  /** `DaysBeforeYear(n)` stays within three days of the mean year length times `n`. */
  lemma DaysBeforeYearBounds(n: int)
    ensures 146097 * n - 800 < 400 * DaysBeforeYear(n) < 146097 * n + 400
  {
  }

  /** A year has 366 days when it is a leap year and 365 otherwise. */
  lemma {:induction false} YearLength(y: int)
    ensures NewYear(y + 1) - NewYear(y)
         == if IsLeapYear(y) then 366 else 365
  {
    LeapSteps(y);
    if y % 400 == 0 {
      assert y == 400 * (y / 400);
    } else if y % 100 == 0 {
      assert y == 100 * (y / 100);
    }
  }

  /** Stepping from `y - 1` to `y` crosses a multiple of 4, 100 or 400 exactly when `y` is one. */
  lemma LeapSteps(y: int)
    ensures y / 4 - (y - 1) / 4 == if y % 4 == 0 then 1 else 0
    ensures y / 100 - (y - 1) / 100 == if y % 100 == 0 then 1 else 0
    ensures y / 400 - (y - 1) / 400 == if y % 400 == 0 then 1 else 0
  {
  }

  /** Later years start later. */
  lemma NewYearMonotone(a: int, b: int)
    requires a <= b
    ensures NewYear(a) <= NewYear(b)
    ensures a < b ==> NewYear(a) < NewYear(b)
  {
    DaysBeforeYearBounds(a - 1);
    DaysBeforeYearBounds(b - 1);
  }

  /**
   * The Gregorian year that contains epoch day `z`: estimated from the mean
   * year of 146097 / 400 days, then corrected by at most one year.
   */
  function YearOfDay(z: int): (y: int)
    ensures NewYear(y) <= z < NewYear(y + 1)
  {
    var e := 400 * (z + 719162) / 146097 + 1;
    DaysBeforeYearBounds(e - 2);
    DaysBeforeYearBounds(e + 1);
    if z < NewYear(e) then e - 1
    else if z < NewYear(e + 1) then e
    else e + 1
  }

  /** A day lies in exactly one year. */
  lemma YearOfDayUnique(z: int, y: int)
    requires NewYear(y) <= z < NewYear(y + 1)
    ensures YearOfDay(z) == y
  {
    var r := YearOfDay(z);
    if r < y {
      NewYearMonotone(r + 1, y);
      assert false;
    } else if r > y {
      NewYearMonotone(y + 1, r);
      assert false;
    }
  }

  /** ISO weekday of epoch day `z`, Monday = 0 ... Sunday = 6 (1970-01-01 was a Thursday). */
  function Weekday(z: int): (w: int)
    ensures 0 <= w < 7
  {
    (z + 3) % 7
  }

  /** The Monday that starts the ISO week containing epoch day `z`. */
  function WeekMonday(z: int): (m: int)
    ensures m <= z < m + 7
    ensures Weekday(m) == 0
  {
    z - Weekday(z)
  }

  /**
   * ISO 8601 week number of epoch day `z`: the week belongs to the year of
   * its Thursday, and is numbered from the week holding that year's first
   * Thursday.
   */
  function IsoWeekOfDay(z: int): (w: int)
    ensures 1 <= w <= 53
  {
    WeekOfThursday(WeekMonday(z) + 3)
  }

  /** Week number of the week whose Thursday is epoch day `thursday`. */
  function WeekOfThursday(thursday: int): (w: int)
    ensures 1 <= w <= 53
  {
    YearLength(YearOfDay(thursday));
    (thursday - NewYear(YearOfDay(thursday))) / 7 + 1
  }

  /** ISO week number of a UTC timestamp given in whole epoch seconds. */
  function IsoWeek(t: int): (w: int)
    ensures 1 <= w <= 53
  {
    IsoWeekOfDay(t / SecondsPerDay)
  }

  /** January 4 always lies in week 1, which ISO 8601 takes as week 1's definition. */
  lemma JanuaryFourthInWeekOne(y: int)
    ensures IsoWeekOfDay(DaysFromCivil(Date(y, 1, 4))) == 1
  {
    DayOfJanuary(y, 4);
    FourthDayInWeekOne(y);
  }

  /** The fourth day of a year lies in its week 1. */
  lemma FourthDayInWeekOne(y: int)
    ensures IsoWeekOfDay(NewYear(y) + 3) == 1
  {
    FirstThursday(WeekMonday(NewYear(y) + 3) + 3, y);
  }

  /** Days of January follow on from January 1. */
  lemma DayOfJanuary(y: int, d: int)
    requires 1 <= d <= 31
    ensures DaysFromCivil(Date(y, 1, d)) == NewYear(y) + d - 1
  {
    NewYearClosedForm(y);
  }

  /** Two Mondays less than a week apart are the same day. */
  lemma MondaysAWeekApart(a: int, b: int)
    requires Weekday(a) == 0 && Weekday(b) == 0
    requires a <= b < a + 7
    ensures a == b
  {
  }

  /**
   * The week after a given week is numbered one higher when both Thursdays
   * fall in the same year, and is week 1 when the next Thursday starts a new year.
   */
  lemma NextWeek(z: int)
    ensures var thisYear, nextYear := YearOfDay(WeekMonday(z) + 3), YearOfDay(WeekMonday(z) + 10);
      IsoWeekOfDay(z + 7) == if nextYear == thisYear then IsoWeekOfDay(z) + 1 else 1
  {
    NextMonday(z);
    NextThursday(WeekMonday(z) + 3);
  }

  /** The Monday a week later is seven days later. */
  lemma NextMonday(z: int)
    ensures WeekMonday(z + 7) == WeekMonday(z) + 7
  {
    var monday := WeekMonday(z);
    assert Weekday(monday + 7) == 0;
    if WeekMonday(z + 7) < monday + 7 {
      MondaysAWeekApart(WeekMonday(z + 7), monday + 7);
    } else {
      MondaysAWeekApart(monday + 7, WeekMonday(z + 7));
    }
  }

  /** Week numbers of consecutive Thursdays. */
  lemma NextThursday(thursday: int)
    ensures WeekOfThursday(thursday + 7)
         == if YearOfDay(thursday + 7) == YearOfDay(thursday) then WeekOfThursday(thursday) + 1 else 1
  {
    var y := YearOfDay(thursday);
    if thursday + 7 < NewYear(y + 1) {
      LaterThursday(thursday, y);
    } else {
      FirstThursday(thursday + 7, y + 1);
    }
  }

  /** A Thursday a week before the end of its year is followed by the next week number. */
  lemma LaterThursday(thursday: int, y: int)
    requires NewYear(y) <= thursday && thursday + 7 < NewYear(y + 1)
    ensures YearOfDay(thursday + 7) == YearOfDay(thursday) == y
    ensures WeekOfThursday(thursday + 7) == WeekOfThursday(thursday) + 1
  {
    YearOfDayUnique(thursday, y);
    YearOfDayUnique(thursday + 7, y);
  }

  /** A Thursday in the first seven days of a year belongs to that year's week 1. */
  lemma FirstThursday(thursday: int, y: int)
    requires NewYear(y) <= thursday < NewYear(y) + 7
    ensures YearOfDay(thursday) == y && WeekOfThursday(thursday) == 1
  {
    YearLength(y);
    YearOfDayUnique(thursday, y);
  }

  /** Every day of one Monday-to-Sunday week has the same ISO week number. */
  lemma SameWeekSameNumber(z1: int, z2: int)
    requires WeekMonday(z1) == WeekMonday(z2)
    ensures IsoWeekOfDay(z1) == IsoWeekOfDay(z2)
  {
  }

  /** First instant (epoch seconds) of a day, `datetime.combine(d, time.min)` in UTC. */
  function DayStart(d: Date): (t: int)
    requires d.Valid()
    ensures t / SecondsPerDay == DaysFromCivil(d)
    ensures t % SecondsPerDay == 0
  {
    DaysFromCivil(d) * SecondsPerDay
  }

  /**
   * Last whole second of a day. `datetime.combine(d, time.max)` is
   * 23:59:59.999999, and a whole-second timestamp lies at or before it
   * exactly when it lies at or before 23:59:59.
   */
  function DayEnd(d: Date): (t: int)
    requires d.Valid()
    ensures t / SecondsPerDay == DaysFromCivil(d)
    ensures t + 1 == DayStart(d) + SecondsPerDay
  {
    DaysFromCivil(d) * SecondsPerDay + SecondsPerDay - 1
  }

  predicate IsQuarterStartMonth(month: int) {
    month == 1 || month == 4 || month == 7 || month == 10
  }

  /** `get_current_quarter_start`: day 1 of the first month of `today`'s quarter. */
  function QuarterStart(today: Date): (q: Date)
    requires today.Valid()
    ensures q.Valid() && q.year == today.year && q.day == 1
    ensures IsQuarterStartMonth(q.month)
    ensures q.month <= today.month < q.month + 3
  {
    var startMonth :=
      if today.month <= 3 then 1
      else if today.month <= 6 then 4
      else if today.month <= 9 then 7
      else 10;
    Date(today.year, startMonth, 1)
  }

  /** A month starts a quarter exactly when it is its own quarter's first month. */
  lemma QuarterStartMonthIsOwnStart(today: Date)
    requires today.Valid()
    ensures IsQuarterStartMonth(today.month) <==> QuarterStart(today).month == today.month
  {
  }

  /** The month before `ym`: December of the previous year for January. */
  function PreviousMonth(ym: YearMonth): (p: YearMonth)
    requires 1 <= ym.month <= 12
    ensures 1 <= p.month <= 12
    ensures MonthIndex(p) + 1 == MonthIndex(ym)
  {
    if ym.month == 1 then YearMonth(ym.year - 1, 12)
    else YearMonth(ym.year, ym.month - 1)
  }

  /** An ISO week number from the Thursday's year and that year's first day. */
  lemma IsoWeekFrom(z: int, thursday: int, year: int, jan1: int)
    requires WeekMonday(z) + 3 == thursday
    requires YearOfDay(thursday) == year
    requires NewYear(year) == jan1
    ensures IsoWeekOfDay(z) == (thursday - jan1) / 7 + 1
  {
  }

  /** 2021-01-01, a Friday, lies in week 53 of ISO year 2020. */
  lemma WeekOfNewYear2021()
    ensures IsoWeekOfDay(18628) == 53 && YearOfDay(18627) == 2020
  {
    Monday18628();
    Year18627();
    Jan2020();
    IsoWeekFrom(18628, 18627, 2020, 18262);
  }

  /** Wednesday 2024-01-10 lies in week 2 of ISO year 2024. */
  lemma Week2Of2024()
    ensures IsoWeekOfDay(19732) == 2 && YearOfDay(19733) == 2024
  {
    Monday19732();
    Year19733();
    Jan2024();
    IsoWeekFrom(19732, 19733, 2024, 19723);
  }

  /** Wednesday 2025-01-08 lies in week 2 of ISO year 2025. */
  lemma Week2Of2025()
    ensures IsoWeekOfDay(20096) == 2 && YearOfDay(20097) == 2025
  {
    Monday20096();
    Year20097();
    Jan2025();
    IsoWeekFrom(20096, 20097, 2025, 20089);
  }

  /** Wednesday 2025-01-15 lies in week 3 of ISO year 2025. */
  lemma Week3Of2025()
    ensures IsoWeekOfDay(20103) == 3 && YearOfDay(20104) == 2025
  {
    Monday20103();
    Year20104();
    Jan2025();
    IsoWeekFrom(20103, 20104, 2025, 20089);
  }

  lemma Monday18628() ensures WeekMonday(18628) == 18624 {}
  lemma Monday19732() ensures WeekMonday(19732) == 19730 {}
  lemma Monday20096() ensures WeekMonday(20096) == 20094 {}
  lemma Monday20103() ensures WeekMonday(20103) == 20101 {}
  lemma Year18627() ensures YearOfDay(18627) == 2020 {}
  lemma Year19733() ensures YearOfDay(19733) == 2024 {}
  lemma Year20097() ensures YearOfDay(20097) == 2025 {}
  lemma Year20104() ensures YearOfDay(20104) == 2025 {}
  lemma Jan2020() ensures NewYear(2020) == 18262 {}
  lemma Jan2024() ensures NewYear(2024) == 19723 {}
  lemma Jan2025() ensures NewYear(2025) == 20089 {}

  /** The epoch days of the example dates. */
  lemma NewYear2021() ensures DaysFromCivil(Date(2021, 1, 1)) == 18628 {}
  lemma January10Of2024() ensures DaysFromCivil(Date(2024, 1, 10)) == 19732 {}
  lemma January8Of2025() ensures DaysFromCivil(Date(2025, 1, 8)) == 20096 {}
  lemma January15Of2025() ensures DaysFromCivil(Date(2025, 1, 15)) == 20103 {}
}
