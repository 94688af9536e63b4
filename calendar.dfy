/** Calendar arithmetic on day numbers (days since 1970-01-01, proleptic
    Gregorian): what the report scenes obtain from `Date` getters and setters.
    A timestamp's day number is `Math.floor(ms / 86400000)`. */
module Calendar {

  const DAY_MS: int := 86400000

  /** The day number of a millisecond timestamp. Dafny's `/` rounds toward
      negative infinity for a positive divisor, as `Math.floor` does. */
  function DayOf(ms: int): int
  {
    ms / DAY_MS
  }

  lemma DayOfBounds(ms: int)
    ensures DayOf(ms) * DAY_MS <= ms < DayOf(ms) * DAY_MS + DAY_MS
  {
  }

  predicate IsLeap(y: int)
  {
    y % 4 == 0 && (y % 100 != 0 || y % 400 == 0)
  }

  function DaysInYear(y: int): int
  {
    if IsLeap(y) then 366 else 365
  }

  /** Leap years strictly before year `y`, counted from year 1. */
  function LeapsBefore(y: int): int
  {
    (y - 1) / 4 - (y - 1) / 100 + (y - 1) / 400
  }

  /** The day number of 1 January of year `y` (`Date.UTC(y, 0, 1)` in days). */
  function Jan1(y: int): int
  {
    365 * (y - 1970) + LeapsBefore(y) - 477
  }

  lemma Jan1Epoch()
    ensures Jan1(1970) == 0
  {
  }

  /** Consecutive New Year's days are one year length apart. */
  lemma Jan1Next(y: int)
    ensures Jan1(y + 1) == Jan1(y) + DaysInYear(y)
  {
    QuarterStep(y);
    CenturyStep(y);
    QuadCenturyStep(y);
  }

  lemma QuarterStep(y: int)
    ensures y / 4 - (y - 1) / 4 == (if y % 4 == 0 then 1 else 0)
  {
  }

  lemma CenturyStep(y: int)
    ensures y / 100 - (y - 1) / 100 == (if y % 100 == 0 then 1 else 0)
  {
  }

  lemma QuadCenturyStep(y: int)
    ensures y / 400 - (y - 1) / 400 == (if y % 400 == 0 then 1 else 0)
  {
  }

  lemma {:induction false} Jan1Monotone(a: int, b: int)
    requires a <= b
    ensures Jan1(a) + 365 * (b - a) <= Jan1(b)
    decreases b - a
  {
    if a < b {
      Jan1Monotone(a, b - 1);
      Jan1Next(b - 1);
    }
  }

  function YearUp(y: int, d: int): (r: int)
    requires Jan1(y) <= d
    ensures Jan1(r) <= d < Jan1(r + 1)
    decreases d - Jan1(y)
  {
    Jan1Next(y);
    if d < Jan1(y + 1) then y else YearUp(y + 1, d)
  }

  function YearDown(y: int, d: int): (r: int)
    requires d < Jan1(y + 1)
    ensures Jan1(r) <= d < Jan1(r + 1)
    decreases Jan1(y + 1) - d
  {
    Jan1Next(y);
    if Jan1(y) <= d then y else YearDown(y - 1, d)
  }

  /** `getFullYear()`: the year whose 1 January is the last one on or before
      day `d`. */
  function YearOf(d: int): (y: int)
    ensures Jan1(y) <= d < Jan1(y + 1)
  {
    Jan1Epoch();
    if d >= 0 then YearUp(1970, d) else YearDown(1969, d)
  }

  /** A year is determined by any of its days. */
  lemma YearOfUnique(y: int, d: int)
    requires Jan1(y) <= d < Jan1(y + 1)
    ensures YearOf(d) == y
  {
    var z := YearOf(d);
    if z < y {
      Jan1Monotone(z + 1, y);
    } else if z > y {
      Jan1Monotone(y + 1, z);
    }
  }

  /** Days of year `y` before month `m` (0 = January, as `getMonth()`). */
  function DaysBeforeMonth(m: int, leap: bool): int
    requires 0 <= m <= 12
  {
    var base := [0, 31, 59, 90, 120, 151, 181, 212, 243, 273, 304, 334, 365][m];
    if leap && m >= 2 then base + 1 else base
  }

  function MonthSearch(m: int, k: int, leap: bool): (r: int)
    requires 0 <= m <= 11 && 0 <= k < DaysBeforeMonth(m + 1, leap)
    ensures 0 <= r <= m
    ensures DaysBeforeMonth(r, leap) <= k < DaysBeforeMonth(r + 1, leap)
  {
    if DaysBeforeMonth(m, leap) <= k then m else MonthSearch(m - 1, k, leap)
  }

  /** `getMonth()` of day `d`: 0 for January up to 11 for December. */
  function MonthOf(d: int): (m: int)
    ensures 0 <= m <= 11
    ensures MonthStart(YearOf(d), m) <= d < MonthStart(YearOf(d), m + 1)
  {
    var y := YearOf(d);
    Jan1Next(y);
    MonthSearch(11, d - Jan1(y), IsLeap(y))
  }

  /** The day number of the first day of month `m` of year `y`; month 12 is
      1 January of the next year. */
  function MonthStart(y: int, m: int): int
    requires 0 <= m <= 12
  {
    Jan1(y) + DaysBeforeMonth(m, IsLeap(y))
  }

  lemma MonthSearchUnique(m: int, k: int, leap: bool)
    requires 0 <= m <= 11 && DaysBeforeMonth(m, leap) <= k < DaysBeforeMonth(m + 1, leap)
    ensures MonthSearch(11, k, leap) == m
  {
  }

  /** Two days share month and year (the test the monthly scene applies)
      exactly when the first lies in the half-open day interval of the
      second's calendar month. */
  lemma SameMonthIsInterval(d: int, now: int)
    ensures (YearOf(d) == YearOf(now) && MonthOf(d) == MonthOf(now)) <==>
      MonthStart(YearOf(now), MonthOf(now)) <= d < MonthStart(YearOf(now), MonthOf(now) + 1)
  {
    var y, m := YearOf(now), MonthOf(now);
    if MonthStart(y, m) <= d < MonthStart(y, m + 1) {
      InMonthSameMonth(d, y, m);
    }
  }

  /** A day inside the day interval of month `m` of year `y` has that year
      and that month. */
  lemma InMonthSameMonth(d: int, y: int, m: int)
    requires 0 <= m <= 11
    requires MonthStart(y, m) <= d < MonthStart(y, m + 1)
    ensures YearOf(d) == y && MonthOf(d) == m
  {
    Jan1Next(y);
    assert Jan1(y) <= d < Jan1(y + 1);
    YearOfUnique(y, d);
    MonthSearchUnique(m, d - Jan1(y), IsLeap(y));
  }

  /** `getDay()`: 0 for Sunday up to 6 for Saturday (1970-01-01 was a
      Thursday). */
  function WeekDay(d: int): int
  {
    (d + 4) % 7
  }

  /** `(getDay() + 6) % 7`: how many days day `d` lies after the Monday that
      starts its Monday-to-Sunday week. */
  function DiffToMonday(d: int): (r: int)
    ensures 0 <= r <= 6
  {
    (WeekDay(d) + 6) % 7
  }

  /** The Monday on or before day `d`. */
  function MondayOf(d: int): int
  {
    d - DiffToMonday(d)
  }

  lemma MondayOfIsMonday(d: int)
    ensures WeekDay(MondayOf(d)) == 1
    ensures MondayOf(d) <= d < MondayOf(d) + 7
  {
  }

  /** Every day of one Monday-to-Sunday week has the same Monday. */
  lemma MondayOfWeek(monday: int, i: int)
    requires WeekDay(monday) == 1 && 0 <= i < 7
    ensures DiffToMonday(monday + i) == i
    ensures MondayOf(monday + i) == monday
  {
  }

  datatype IsoWeek = IsoWeek(week: int, year: int)

  /** `getISOWeekAndYear`: move to the Thursday of the date's week (Monday
      is day 1, Sunday day 7), then number the weeks of that Thursday's year
      from its 1 January. */
  function IsoWeekOf(d: int): (r: IsoWeek)
    ensures 1 <= r.week <= 53
    ensures r.year == YearOf(ThursdayOf(d))
  {
    var dayNum := IsoDayNum(d);
    WeekNumberOf(d + 4 - dayNum)
  }

  /** The week of day `t` counted from 1 January of its year,
      `Math.ceil((daysSinceJan1 + 1) / 7)`, paired with that year. */
  function WeekNumberOf(t: int): (r: IsoWeek)
    ensures 1 <= r.week <= 53
    ensures r.year == YearOf(t)
  {
    var y := YearOf(t);
    Jan1Next(y);
    var ordinal := t - Jan1(y) + 1;
    assert 1 <= ordinal <= 366;
    IsoWeek(CeilDiv7(ordinal), y)
  }

  /** `date.getUTCDay() || 7`: Monday is 1 and Sunday 7. */
  function IsoDayNum(d: int): (n: int)
    ensures d + 4 - n == MondayOf(d) + 3
  {
    if WeekDay(d) == 0 then 7 else WeekDay(d)
  }

  /** `Math.ceil(n / 7)` for a positive integer `n`. */
  function CeilDiv7(n: int): (r: int)
    requires 1 <= n <= 366
    ensures 1 <= r <= 53 && 7 * (r - 1) < n <= 7 * r
  {
    (n + 6) / 7
  }

  /** The Thursday of the Monday-to-Sunday week containing day `d`. */
  function ThursdayOf(d: int): (t: int)
    ensures WeekDay(t) == 4
    ensures t - 3 <= d <= t + 3
  {
    MondayOf(d) + 3
  }

  /** All seven days of one Monday-to-Sunday week get the same week number
      and year. */
  lemma IsoWeekConstantOnWeek(monday: int, i: int)
    requires WeekDay(monday) == 1 && 0 <= i < 7
    ensures IsoWeekOf(monday + i) == IsoWeekOf(monday)
  {
    MondayOfWeek(monday, i);
    MondayOfWeek(monday, 0);
    assert (monday + i) + 4 - IsoDayNum(monday + i) == monday + 4 - IsoDayNum(monday);
  }

  /** Week 1 is the week holding the first Thursday of the year (section
      4.1.4 of ISO 8601:2004): a date is in week 1 exactly when its week's
      Thursday is one of the first seven days of the week-numbering year. */
  lemma IsoWeekOneHasFirstThursday(d: int)
    ensures IsoWeekOf(d).week == 1 <==> ThursdayOf(d) - Jan1(IsoWeekOf(d).year) < 7
  {
  }
}
