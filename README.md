# Monthly spending analytics, modelled in Dafny

This project models the monthly analytics engine of a personal-finance backend. From one user's
transactions for a calendar month it builds a report with five parts:

- a **summary**: income, expense, savings and savings ratio;
- a **category breakdown**: expense per category, in the order each category is first met, with
  its percentage of the month's expense;
- a **trend**: this month's expense against last month's, inside a ±5% noise band;
- a **spending pattern**: weekend against weekday expense;
- **spikes**: categories whose expense grew by more than 40% over a positive baseline.

It also models the month-range helper those passes use: the first and last day of a month.
It models the Python `datetime` behaviour that helper relies on as well: the range of valid
years, leap years, one-day steps, day ordinals and weekdays.

Amounts are exact `real`s. The database queries become parameters:

- the month's transaction list;
- last month's expense sum, as an `Option` because SQL `SUM` over no rows is `NULL`;
- the rows of the two per-category grouped queries.

Modules follow the components:

- `Calendar`: `backend/utils/date_utils.py` and the date arithmetic it relies on.
- `Ledger`: transactions and per-kind totals.
- `Percent`: the percentage change that both the trend and the spike pass compute.
- `Summary`, `Breakdown`, `Trend`, `Patterns`, `Spikes`: one module per pass.
- `Report`: `generate_monthly_analytics`.
- `Wrappers`: `Option` and `Result`.

Pure code (`calculate_summary`, `month_trend`, `get_month_range`) is written as functions. The loops
of `category_breakdown`, `detect_patterns` and `detect_spikes` are methods with loop invariants.
Each is proved against a specification function, and lemmas state the properties of those functions.

At its edges the code behaves as follows, and the model does the same:

- `get_month_range` fails not only for a month outside 1–12. It also fails for a year outside
  1–9999, and for December 9999, because `datetime(10000, 1, 1)` is out of range. These failures
  are `Err` values, checked as CPython checks a year and a month that fit in a C `int`: year
  first, then month. They propagate to the
  trend and spike passes and to the report. January of year 1 has no representable previous month.
- The previous-month derivation appears twice in the source, at lines 82-87 and 152-156. Both
  copies are the same, so it is modelled once, as `Calendar.PrevMonth`, and both passes call it.

## Model

| member | source | states |
|---|---|---|
| `Calendar.FirstDay` | backend/utils/date_utils.py:4 | `datetime(year, month, 1)` succeeds exactly for years 1–9999 and months 1–12, giving day 1 of that month |
| `Calendar.MonthRange` | backend/utils/date_utils.py:3-9 | succeeds exactly for representable months (not December 9999), with the `ValueError` CPython raises otherwise (year checked first, for arguments within C `int` range); start is day 1, end is the month's last day `(year, month, DaysInMonth)` — including December, computed via January 1 of the next year — both valid dates, and the range spans `DaysInMonth` days, 28 to 31 |
| `Calendar.PrevDay` | backend/utils/date_utils.py:6-8 | `date - timedelta(days=1)` is a valid date whose ordinal is one less |
| `Calendar.NextDayOfPrevDay` | backend/utils/date_utils.py:6 | stepping a day back then forward returns the same date |
| `Calendar.MonthRangeSuccessor` | backend/utils/date_utils.py:5-8 | the day after a month's end is day 1 of the next month, January of the next year after December |
| `Calendar.FebruaryRange` | backend/utils/date_utils.py:7-8 | February ends on the 29th exactly in Gregorian leap years (2024 and 2000 yes, 1900 no) |
| `Calendar.DecemberRange` | backend/utils/date_utils.py:5-8 | December 2023 and December 9998 run from the 1st to the 31st; December 9999 fails on year 10000 |
| `Calendar.Weekday` | backend/services/analytics_services.py:127 | `date.weekday()` lies in 0..6 |
| `Calendar.WeekdayOfNextDay` | backend/services/analytics_services.py:127 | consecutive days have consecutive weekdays |
| `Calendar.FirstDayWasMonday` | backend/services/analytics_services.py:127 | 0001-01-01 is a Monday (0); with `WeekdayOfNextDay` this fixes the weekday of every date |
| `Calendar.PrevMonth` | backend/services/analytics_services.py:82-87 | for months 1–12 the previous month is in 1–12 and the next month after it is the given month (January goes back to December of the year before) |
| `Calendar.PrevMonthOfNextMonth` | backend/services/analytics_services.py:152-156 | going a month forward and then back returns the same month |
| `Calendar.ConsecutiveMonthRanges` | backend/services/analytics_services.py:150-158 | the previous month's range ends the day before the current month's range starts |
| `Ledger.CategoryName` | backend/services/analytics_services.py:66 | a transaction is reported under its category's name, or under "Uncategorized" when it has none (`Breakdown.FirstSeenMembers` states which names a breakdown lists) |
| `Ledger.KindTotal` | backend/services/analytics_services.py:46-47 | the sum of the amounts of one transaction type: 0 when no transaction has that type, non-negative when no amount is negative; `KindTotalAppend` and `KindTotalOfKind` state how it combines and filters |
| `Ledger.OfKind` | backend/services/analytics_services.py:60 | the filtered list holds exactly the transactions of that kind, and is no longer than the input |
| `Ledger.OfKindOccurrences` | backend/services/analytics_services.py:60 | the filter keeps each transaction of the kind as many times as it occurs and drops the others; `Breakdown.ExpensesOnlyBreakdown` shows that the order it keeps is the order the breakdown sees |
| `Ledger.KindTotalAppend` | backend/services/analytics_services.py:46-47 | per-kind totals add over concatenation |
| `Ledger.KindTotalOfKind` | backend/services/analytics_services.py:60-63 | filtering by a kind keeps its total and zeroes the others |
| `Summary.Summarize` | backend/services/analytics_services.py:45-56 | income and expense are the totals of income- and expense-typed transactions only; `savings = income - expense`; `savings_ratio * income = savings` when income > 0, else 0; an empty list gives all zeros |
| `Summary.SummaryIgnoresOther` | backend/services/analytics_services.py:46-47 | a transaction of another type, anywhere in the list, leaves the summary unchanged |
| `Summary.SummaryOrderIndependent` | backend/services/analytics_services.py:46-47 | the summary of two batches is the sum of their totals, in either order |
| `Summary.SavingsRatioBounds` | backend/services/analytics_services.py:48-49 | with positive income and non-negative expense the ratio is at most 1, and negative exactly when expense exceeds income |
| `Breakdown.CategoryBreakdown` | backend/services/analytics_services.py:59-78 | the result is the breakdown of the input: one entry per first-seen category name, with that category's expense and `amount / total * 100` (0 when the total is not positive) |
| `Breakdown.ExpensesOnlyBreakdown` | backend/services/analytics_services.py:60-67 | filtering to expenses first changes neither the category list nor any category total |
| `Breakdown.FirstSeenMembers` | backend/services/analytics_services.py:65-67 | a name is listed exactly when some expense is reported under it, with missing categories reported as "Uncategorized" |
| `Breakdown.FirstSeenDistinct` | backend/services/analytics_services.py:62-70 | no category name is listed twice |
| `Breakdown.CategoryTotalUnseen` | backend/services/analytics_services.py:62-67 | a name not yet listed has accumulated 0, the `defaultdict(float)` default |
| `Breakdown.FirstPosition` | backend/services/analytics_services.py:65-67 | the first expense under a listed name exists and none before it has that name |
| `Breakdown.FirstSeenOrder` | backend/services/analytics_services.py:65-70 | listed names appear in the order of their first expense |
| `Breakdown.FirstSeenShareTotal` | backend/services/analytics_services.py:63-67 | the category totals add up to the month's expense |
| `Breakdown.BreakdownCategories` | backend/services/analytics_services.py:62-78 | in any breakdown each category appears once, exactly the categories of the expenses appear, and in first-seen order, not sorted by amount |
| `Breakdown.BreakdownAmounts` | backend/services/analytics_services.py:63-74 | the amounts of any breakdown add up to `total_expense` |
| `Breakdown.SharePercent` | backend/services/analytics_services.py:71 | a category's percent times a positive month total is its amount times 100; with no positive total the percent is 0 |
| `Breakdown.BreakdownPercents` | backend/services/analytics_services.py:71 | the percents add up to 100 when the expense total is positive and are all 0 otherwise |
| `Percent.ChangePercent` | backend/services/analytics_services.py:102 | the change `(current - base) / base * 100` is 0 exactly when nothing changed and, over a positive base, positive exactly when the amount grew; `ChangeTimesBase`, `ChangeAbove` and `ChangeBelow` state it without division |
| `Percent.ChangeTimesBase` | backend/services/analytics_services.py:102 | over a positive base, `change * base = (current - base) * 100` |
| `Percent.ChangeAbove` | backend/services/analytics_services.py:186-187 | a change strictly above a bound means `current * 100 > base * (100 + bound)` |
| `Percent.ChangeBelow` | backend/services/analytics_services.py:105 | a change strictly below a bound means `current * 100 < base * (100 + bound)` |
| `Trend.Classify` | backend/services/analytics_services.py:98-106 | without a positive baseline the change is 0 and there is no trend; otherwise `change * previous = (current - previous) * 100`, the trend is an increase iff `current > 1.05 * previous` and a decrease iff `current < 0.95 * previous` (strict) |
| `Trend.MonthTrend` | backend/services/analytics_services.py:81-113 | fails exactly when the previous month's range does, with its error; otherwise classifies the current expense against the previous sum, a NULL sum read as 0 |
| `Trend.NoBaselineNoTrend` | backend/services/analytics_services.py:96-101 | with no previous expense (NULL or 0) the change is 0 and the trend `no_change`, whatever the current expense |
| `Trend.TrendBoundaries` | backend/services/analytics_services.py:103-106 | 1050 vs 1000 is 5% and `no_change`; 1060 is 6% and `increase`; 950 is `no_change`; 940 `decrease`; any amount vs 0 `no_change` |
| `Trend.JanuaryLooksBackToDecember` | backend/services/analytics_services.py:82-89 | January compares with December of the year before, and January of year 1 is an error |
| `Patterns.DetectPatterns` | backend/services/analytics_services.py:116-143 | weekend and weekday totals are the expense on days with `weekday() >= 5` and on the others; they add up to the month's expense; weekend-heavy iff weekend > weekday (strict) |
| `Patterns.WeekSplit` | backend/services/analytics_services.py:122-133 | weekend total plus weekday total equals the expense total |
| `Patterns.AllOnWeekends` | backend/services/analytics_services.py:130-133 | when every expense is on a weekend the weekday total is 0, and the month is weekend-heavy iff its weekend expense is positive |
| `Patterns.NoExpenseNotHeavy` | backend/services/analytics_services.py:143 | with no (non-negative) expense both totals are 0 and the month is not weekend-heavy |
| `Spikes.PrevLookup` | backend/services/analytics_services.py:180 | `{c: amt for c, amt in previous}`: empty for no rows, and the last row's name maps to its amount; `PrevLookupKeys` and `PrevLookupLastRow` characterise the whole map |
| `Spikes.PrevLookupKeys` | backend/services/analytics_services.py:180 | the lookup has a key exactly for each category that has a previous row |
| `Spikes.PrevLookupLastRow` | backend/services/analytics_services.py:180 | each category is mapped to the amount of its last previous row |
| `Spikes.PrevAmount` | backend/services/analytics_services.py:184 | a category's previous amount is its lookup entry, or 0 when the lookup has none |
| `Spikes.DetectSpikes` | backend/services/analytics_services.py:149-194 | fails exactly when the month's or the previous month's range does (the month's error first); otherwise returns the spikes of the current rows against the previous rows' lookup |
| `Spikes.SpikesAreSubsequence` | backend/services/analytics_services.py:181-194 | the spikes come from strictly increasing positions of the current rows, a row is emitted iff it spikes, and every entry has `spike = true` |
| `Spikes.SpikeIffAboveThreshold` | backend/services/analytics_services.py:184-187 | a row spikes iff its category had a positive previous amount and its amount exceeds 1.4 times it (strict) |
| `Spikes.NoBaselineNoSpike` | backend/services/analytics_services.py:183-185 | every reported category is present this month and had a positive amount last month: new and vanished categories are never reported |
| `Spikes.SpikeBoundaries` | backend/services/analytics_services.py:185-187 | 145 vs 100 is a 45% spike; 140 vs 100 is not; a category new this month or with a previous amount of 0 is not |
| `Report.GenerateMonthlyAnalytics` | backend/services/analytics_services.py:9-43 | fails exactly when the month or the previous month cannot be resolved (the month's error first); otherwise the report's five parts are the summary, the breakdown, the trend of the month's expense, the weekend/weekday split and the spikes of its inputs |
| `Report.June2024Example` | backend/services/analytics_services.py:31-43 | income 1000 on 1 June 2024, food 200 on Sunday the 2nd and 100 on Monday the 3rd give summary (1000, 300, 700, 0.7), one category "Food" at 300 and 100%, weekend 200 against weekday 100 (weekend-heavy), no trend and no spikes |

## Left out

- The SQLAlchemy queries (backend/services/analytics_services.py:21-25, 91-96, 160-178) are database
  I/O. Their results are parameters. Storage failures are not modelled.
- The date-range filter compares a timestamp column with dates. A transaction late on the last day
  may therefore fall outside `end`; the commented-out `cast` at lines 15-19 hints at this. The model
  takes the rows the query returned and does not check that they lie in the month.
- The grouped spike queries join with `Category`, so uncategorized expenses never reach the spike
  pass. The model takes the rows as given. `PrevLookup` keeps the last row for a repeated name, as
  the dict comprehension does, although `GROUP BY` makes names unique.
- `Calendar.MonthRange`, `Calendar.FirstDay`, `Calendar.DateError`: CPython reads the year and the
  month as C `int`s, so a value outside that range raises `OverflowError` before any range check.
  The model has unbounded integers and reports `YearOutOfRange` or `MonthOutOfRange` there. The
  caller passes the current date's year and month, which are always in range.
- Float conversion and `round(x, 2)` are floating-point presentation, so amounts are exact reals.
  Because they are exact, summation order does not matter. With Python floats it can shift the
  last digits.
- `month_trend` is passed `summary["expense"]`, which is already rounded to two places. The model
  passes the exact expense total.
- The commented-out night-spending logic (lines 119, 128, 135-145) is not active code. Transactions
  carry a date and no time of day.
- backend/ai/ai_insights.py (the Gemini call and JSON handling) is not modelled. Neither are
  backend/routes/users.py (Flask, password hashing, persistence) and backend/routes/ai_routes.py
  (HTTP, JWT, `datetime.now()`, the `YYYY-MM` formatting).
- A category that was present last month and is absent now is never reported. The source does
  this, and the model reproduces it (`Spikes.NoBaselineNoSpike`) without changing it.
