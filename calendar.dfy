/** Calendar arithmetic used by the lesson generator.

    A date is a proleptic Gregorian day number, numbered like Python's
    date.toordinal(): 0001-01-01 is day 1, and consecutive dates are
    consecutive integers, so adding a timedelta of k days adds k. */
module Calendar {

  type Day = int

  /** The range of years a Python datetime accepts. */
  const MIN_YEAR: int := 1
  const MAX_YEAR: int := 9999

  /** The seven weekday codes a lesson may carry (MON ... SUN). */
  datatype Weekday = MON | TUE | WED | THU | FRI | SAT | SUN

  /** The weekday mapping of create_events: MON..SUN to 0..6, the numbering of
      Python's date.weekday(). The mapping is invertible. */
  function WeekdayNumber(w: Weekday): (n: int)
    ensures 0 <= n < 7
  {
    match w
    case MON => 0
    case TUE => 1
    case WED => 2
    case THU => 3
    case FRI => 4
    case SAT => 5
    case SUN => 6
  }

  function WeekdayFromNumber(n: int): Weekday
    requires 0 <= n < 7
  {
    if n == 0 then MON
    else if n == 1 then TUE
    else if n == 2 then WED
    else if n == 3 then THU
    else if n == 4 then FRI
    else if n == 5 then SAT
    else SUN
  }

  /** The mapping is a bijection between the seven codes and 0..6. */
  lemma WeekdayNumberRoundTrip(w: Weekday, n: int)
    requires 0 <= n < 7
    ensures WeekdayFromNumber(WeekdayNumber(w)) == w
    ensures WeekdayNumber(WeekdayFromNumber(n)) == n
  {
  }

  /** Python's date.weekday(): Monday is 0, Sunday is 6. */
  function DayOfWeek(d: Day): (n: int)
    ensures 0 <= n < 7
  {
    (d + 6) % 7
  }

  /** The weekday code of a date. */
  function DayName(d: Day): Weekday
  {
    WeekdayFromNumber(DayOfWeek(d))
  }

  /** is_weekend: despite its name, only Sunday counts; Saturday is a
      teaching day. */
  predicate IsWeekend(d: Day)
  {
    DayOfWeek(d) == 6
  }

  lemma WeekendIsSundayOnly(d: Day)
    ensures IsWeekend(d) <==> DayName(d) == SUN
    ensures DayName(d) == SAT ==> !IsWeekend(d)
  {
  }

  /** Moving a date by k days moves its weekday by k, modulo 7. */
  lemma DayOfWeekShift(d: Day, k: int)
    ensures DayOfWeek(d + k) == (DayOfWeek(d) + k) % 7
  {
    var q := (d + 6) / 7;
    assert d + 6 == 7 * q + DayOfWeek(d);
    assert d + k + 6 == 7 * q + (DayOfWeek(d) + k);
  }

  /** Whole weeks do not change the weekday. */
  lemma DayOfWeekWeeks(d: Day, weeks: int)
    ensures DayOfWeek(d + 7 * weeks) == DayOfWeek(d)
  {
    DayOfWeekShift(d, 7 * weeks);
  }

  predicate IsLeap(year: int)
  {
    year % 4 == 0 && (year % 100 != 0 || year % 400 == 0)
  }

  function DaysInMonth(year: int, month: int): (n: int)
    requires 1 <= month <= 12
    ensures 28 <= n <= 31
  {
    if month == 2 then (if IsLeap(year) then 29 else 28)
    else if month in {4, 6, 9, 11} then 30
    else 31
  }

  /** Days in the months of `year` before `month` (Python's _days_before_month). */
  function DaysBeforeMonth(year: int, month: int): int
    requires 1 <= month <= 12
  {
    [0, 31, 59, 90, 120, 151, 181, 212, 243, 273, 304, 334][month - 1]
      + (if month > 2 && IsLeap(year) then 1 else 0)
  }

  /** Days in the years before `year` (Python's _days_before_year). */
  function DaysBeforeYear(year: int): int
    requires year >= MIN_YEAR
  {
    var y := year - 1;
    y * 365 + y / 4 - y / 100 + y / 400
  }

  predicate ValidDate(year: int, month: int, day: int)
  {
    MIN_YEAR <= year <= MAX_YEAR && 1 <= month <= 12 && 1 <= day <= DaysInMonth(year, month)
  }

  /** The day number of year-month-day (Python's _ymd2ord). */
  function Ordinal(year: int, month: int, day: int): Day
    requires ValidDate(year, month, day)
  {
    DaysBeforeYear(year) + DaysBeforeMonth(year, month) + day
  }

  /** The ordinal numbering is gap-free: the day after any date, within a
      month, across a month end and across a year end, is the next number. */
  lemma OrdinalConsecutive(year: int, month: int, day: int)
    requires ValidDate(year, month, day)
    ensures day < DaysInMonth(year, month) ==>
              Ordinal(year, month, day + 1) == Ordinal(year, month, day) + 1
    ensures day == DaysInMonth(year, month) && month < 12 ==>
              Ordinal(year, month + 1, 1) == Ordinal(year, month, day) + 1
    ensures day == DaysInMonth(year, month) && month == 12 && year < MAX_YEAR ==>
              Ordinal(year + 1, 1, 1) == Ordinal(year, month, day) + 1
  {
    if day == DaysInMonth(year, month) && month == 12 && year < MAX_YEAR {
      var y := year - 1;
      assert DaysBeforeYear(year + 1) == (y + 1) * 365 + (y + 1) / 4 - (y + 1) / 100 + (y + 1) / 400;
      assert (y + 1) / 4 - y / 4 == (if year % 4 == 0 then 1 else 0);
      assert (y + 1) / 100 - y / 100 == (if year % 100 == 0 then 1 else 0);
      assert (y + 1) / 400 - y / 400 == (if year % 400 == 0 then 1 else 0);
    }
  }

  function FirstOfSeptember(year: int): Day
    requires MIN_YEAR <= year <= MAX_YEAR
  {
    Ordinal(year, 9, 1)
  }

  function TwentiethOfJanuary(year: int): Day
    requires MIN_YEAR <= year <= MAX_YEAR
  {
    Ordinal(year, 1, 20)
  }

  /** calculate_semester_start_date: the first Monday on or after 1 September
      of `year` (the current year, taken from the clock in the source). */
  function CalculateSemesterStartDate(year: int): (start: Day)
    requires MIN_YEAR <= year <= MAX_YEAR
    ensures DayName(start) == MON
    ensures FirstOfSeptember(year) <= start <= FirstOfSeptember(year) + 6
    ensures forall d :: FirstOfSeptember(year) <= d < start ==> DayName(d) != MON
  {
    var firstSeptember := FirstOfSeptember(year);
    var daysUntilMonday := (7 - DayOfWeek(firstSeptember)) % 7;
    DayOfWeekShift(firstSeptember, daysUntilMonday);
    forall d | firstSeptember <= d < firstSeptember + daysUntilMonday
      ensures DayName(d) != MON
    {
      DayOfWeekShift(firstSeptember, d - firstSeptember);
    }
    firstSeptember + daysUntilMonday
  }
}
