/** The proleptic Gregorian calendar as Python's `datetime.date` computes it (ordinals, weekdays,
    one-day steps), and the month range of backend/utils/date_utils.py built on it. */
module Calendar {
  import opened Wrappers

  /** Python's `datetime.MINYEAR` and `datetime.MAXYEAR`. */
  const MinYear: int := 1
  const MaxYear: int := 9999

  datatype Date = Date(year: int, month: int, day: int)

  /** Why `datetime(year, month, 1)` raises `ValueError`, in the order CPython checks its arguments,
      for a year and a month that fit in a C `int`. */
  datatype DateError = YearOutOfRange(year: int) | MonthOutOfRange(month: int)

  /** An inclusive range of calendar days. */
  datatype Period = Period(start: Date, end: Date)

  predicate IsLeapYear(y: int) {
    y % 4 == 0 && (y % 100 != 0 || y % 400 == 0)
  }

  function DaysInYear(y: int): int {
    if IsLeapYear(y) then 366 else 365
  }

  function DaysInMonth(y: int, m: int): int
    requires 1 <= m <= 12
  {
    if m == 2 then (if IsLeapYear(y) then 29 else 28)
    else if m == 4 || m == 6 || m == 9 || m == 11 then 30
    else 31
  }

  /** A date that Python's `date` constructor accepts. */
  predicate ValidDate(d: Date) {
    MinYear <= d.year <= MaxYear && 1 <= d.month <= 12 && 1 <= d.day <= DaysInMonth(d.year, d.month)
  }

  type CalendarDay = d: Date | ValidDate(d) witness Date(1, 1, 1)

  /** Days before the first of each month in a common year. */
  const CommonDaysBeforeMonth: seq<int> := [0, 31, 59, 90, 120, 151, 181, 212, 243, 273, 304, 334]

  /** Days in all years before year `y`. */
  function DaysBeforeYear(y: int): (n: int)
    requires y >= 1
    ensures n >= 0
  {
    var k := y - 1;
    365 * k + k / 4 - k / 100 + k / 400
  }

  /** Days in year `y` before the first of month `m`. */
  function DaysBeforeMonth(y: int, m: int): int
    requires 1 <= m <= 12
  {
    CommonDaysBeforeMonth[m - 1] + (if m > 2 && IsLeapYear(y) then 1 else 0)
  }

  /** Python's `date.toordinal()`: 0001-01-01 is day 1. */
  function Ordinal(d: Date): (n: int)
    requires ValidDate(d)
    ensures n >= 1
  {
    DaysBeforeYear(d.year) + DaysBeforeMonth(d.year, d.month) + d.day
  }

  /** Python's `date.weekday()`: Monday is 0 and Sunday is 6. */
  function Weekday(d: Date): (w: int)
    requires ValidDate(d)
    ensures 0 <= w <= 6
  {
    (Ordinal(d) + 6) % 7
  }

  lemma DaysBeforeMonthStep(y: int, m: int)
    requires 1 <= m < 12
    ensures DaysBeforeMonth(y, m + 1) == DaysBeforeMonth(y, m) + DaysInMonth(y, m)
  {
  }

  lemma DaysBeforeYearEnd(y: int)
    ensures DaysBeforeMonth(y, 12) + DaysInMonth(y, 12) == DaysInYear(y)
  {
  }

  /** A year contributes exactly its own length to the day count. */
  lemma DaysBeforeNextYear(y: int)
    requires y >= 1
    ensures DaysBeforeYear(y + 1) == DaysBeforeYear(y) + DaysInYear(y)
  {
    var k := y - 1;
    assert (k + 1) / 4 == k / 4 + (if y % 4 == 0 then 1 else 0);
    assert (k + 1) / 100 == k / 100 + (if y % 100 == 0 then 1 else 0);
    assert (k + 1) / 400 == k / 400 + (if y % 400 == 0 then 1 else 0);
  }

  /** The calendar day after `d`: `d + timedelta(days=1)`. */
  function NextDay(d: Date): (e: Date)
    requires ValidDate(d) && d != Date(MaxYear, 12, 31)
    ensures ValidDate(e) && Ordinal(e) == Ordinal(d) + 1
  {
    if d.day < DaysInMonth(d.year, d.month) then Date(d.year, d.month, d.day + 1)
    else if d.month < 12 then
      DaysBeforeMonthStep(d.year, d.month);
      Date(d.year, d.month + 1, 1)
    else
      DaysBeforeYearEnd(d.year);
      DaysBeforeNextYear(d.year);
      Date(d.year + 1, 1, 1)
  }

  /** The calendar day before `d`: `d - timedelta(days=1)`. */
  function PrevDay(d: Date): (p: Date)
    requires ValidDate(d) && d != Date(MinYear, 1, 1)
    ensures ValidDate(p) && Ordinal(p) + 1 == Ordinal(d)
  {
    if d.day > 1 then Date(d.year, d.month, d.day - 1)
    else if d.month > 1 then
      DaysBeforeMonthStep(d.year, d.month - 1);
      Date(d.year, d.month - 1, DaysInMonth(d.year, d.month - 1))
    else
      DaysBeforeYearEnd(d.year - 1);
      DaysBeforeNextYear(d.year - 1);
      Date(d.year - 1, 12, 31)
  }

  /** Stepping back a day and forward again returns to the same date. */
  lemma NextDayOfPrevDay(d: Date)
    requires ValidDate(d) && d != Date(MinYear, 1, 1)
    ensures NextDay(PrevDay(d)) == d
  {
  }

  /** 0001-01-01, ordinal 1, was a Monday. */
  lemma FirstDayWasMonday()
    ensures Weekday(Date(MinYear, 1, 1)) == 0
  {
  }

  /** Consecutive days have consecutive weekdays. */
  lemma WeekdayOfNextDay(d: Date)
    requires ValidDate(d) && d != Date(MaxYear, 12, 31)
    ensures Weekday(NextDay(d)) == (Weekday(d) + 1) % 7
  {
    var o := Ordinal(d);
    assert Ordinal(NextDay(d)) == o + 1;
    WeekdayStep(o);
  }

  lemma WeekdayStep(o: int)
    ensures (o + 1 + 6) % 7 == ((o + 6) % 7 + 1) % 7
  {
  }

  /** The month after `(year, month)`, rolling December into January of the next year. */
  function NextMonth(year: int, month: int): (int, int) {
    if month == 12 then (year + 1, 1) else (year, month + 1)
  }

  /** The month before `(year, month)`: `month - 1`, or December of the previous year when that is 0.
      Both analytics passes that look one month back derive it this way. */
  function PrevMonth(year: int, month: int): (r: (int, int))
    ensures 1 <= month <= 12 ==> 1 <= r.1 <= 12 && NextMonth(r.0, r.1) == (year, month)
  {
    var prevMonth := month - 1;
    if prevMonth == 0 then (year - 1, 12) else (year, prevMonth)
  }

  /** Going forward a month and back again returns to the same month. */
  lemma PrevMonthOfNextMonth(year: int, month: int)
    requires 1 <= month <= 12
    ensures PrevMonth(NextMonth(year, month).0, NextMonth(year, month).1) == (year, month)
  {
  }

  /** `datetime(year, month, 1).date()`, with the `ValueError` it raises as an error value. */
  function FirstDay(year: int, month: int): (r: Result<Date, DateError>)
    ensures r.Ok? <==> MinYear <= year <= MaxYear && 1 <= month <= 12
    ensures r.Ok? ==> r.value == Date(year, month, 1) && ValidDate(r.value)
  {
    if !(MinYear <= year <= MaxYear) then Err(YearOutOfRange(year))
    else if !(1 <= month <= 12) then Err(MonthOutOfRange(month))
    else Ok(Date(year, month, 1))
  }

  /** The months `get_month_range` accepts: those whose first day and whose following month's
      first day Python can represent. */
  predicate HasMonthRange(year: int, month: int) {
    MinYear <= year <= MaxYear && 1 <= month <= 12 && !(year == MaxYear && month == 12)
  }

  /** `get_month_range(year, month)`: the first and the last day of the month, the last found as
      the first day of the next month minus one day. */
  function MonthRange(year: int, month: int): (r: Result<Period, DateError>)
    ensures r.Ok? <==> HasMonthRange(year, month)
    ensures r.Err? ==> r.error == if !(MinYear <= year <= MaxYear) then YearOutOfRange(year)
                                  else if !(1 <= month <= 12) then MonthOutOfRange(month)
                                  else YearOutOfRange(year + 1)
    ensures r.Ok? ==> var Period(start, end) := r.value;
                      ValidDate(start) && ValidDate(end) &&
                      start == Date(year, month, 1) && end == Date(year, month, DaysInMonth(year, month)) &&
                      Ordinal(end) - Ordinal(start) + 1 == DaysInMonth(year, month) &&
                      28 <= Ordinal(end) - Ordinal(start) + 1 <= 31
  {
    match FirstDay(year, month)
    case Err(e) => Err(e)
    case Ok(start) =>
      var next := if month == 12 then FirstDay(year + 1, 1) else FirstDay(year, month + 1);
      match next
      case Err(e) => Err(e)
      case Ok(firstOfNext) => Ok(Period(start, PrevDay(firstOfNext)))
  }

  /** The day after a month's last day is the first day of the following month. */
  lemma MonthRangeSuccessor(year: int, month: int)
    requires HasMonthRange(year, month)
    ensures var end := MonthRange(year, month).value.end;
            end != Date(MaxYear, 12, 31) &&
            NextDay(end) == Date(NextMonth(year, month).0, NextMonth(year, month).1, 1)
  {
  }

  /** The previous month's range ends the day before the current month's range begins. */
  lemma {:induction false} ConsecutiveMonthRanges(year: int, month: int)
    requires HasMonthRange(year, month)
    requires HasMonthRange(PrevMonth(year, month).0, PrevMonth(year, month).1)
    ensures var (py, pm) := PrevMonth(year, month);
            Ordinal(MonthRange(py, pm).value.end) + 1 == Ordinal(MonthRange(year, month).value.start)
  {
    if month > 1 {
      DaysBeforeMonthStep(year, month - 1);
    } else {
      DaysBeforeYearEnd(year - 1);
      DaysBeforeNextYear(year - 1);
    }
  }

  /** February has 29 days exactly in Gregorian leap years. */
  lemma FebruaryRange(year: int)
    requires MinYear <= year <= MaxYear
    ensures MonthRange(year, 2).value.end.day == 29 <==> IsLeapYear(year)
    ensures MonthRange(2024, 2).value.end == Date(2024, 2, 29)
    ensures MonthRange(1900, 2).value.end == Date(1900, 2, 28)
    ensures MonthRange(2000, 2).value.end == Date(2000, 2, 29)
  {
  }

  /** December ends on the 31st, found through January 1 of the next year. */
  lemma DecemberRange()
    ensures MonthRange(2023, 12).value == Period(Date(2023, 12, 1), Date(2023, 12, 31))
    ensures MonthRange(MaxYear - 1, 12).value == Period(Date(MaxYear - 1, 12, 1), Date(MaxYear - 1, 12, 31))
    ensures MonthRange(MaxYear, 12) == Err(YearOutOfRange(MaxYear + 1))
  {
  }
}
