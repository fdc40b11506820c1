/** The monthly report: `generate_monthly_analytics` in backend/services/analytics_services.py,
    which resolves the month and runs the five passes over its data. */
module Report {
  import opened Wrappers
  import opened Calendar
  import opened Ledger
  import opened Summary
  import opened Breakdown
  import opened Trend
  import opened Patterns
  import opened Spikes

  datatype AnalyticsReport = AnalyticsReport(
    summary: MonthSummary,
    categories: seq<CategoryShare>,
    trend: TrendReport,
    patterns: SpendingPattern,
    spikes: seq<Spike>)

  /** The report for `(year, month)`. The storage queries are parameters: `txs` are the month's
      transactions, `prevExpense` the previous month's expense SUM, and `currentByCategory` and
      `previousByCategory` the rows of the two grouped per-category queries. A month Python's
      `datetime` cannot represent, this one's or the previous one's, is an error, never a report. */
  method GenerateMonthlyAnalytics(
    year: int, month: int, txs: seq<Transaction>, prevExpense: Option<real>,
    currentByCategory: seq<CategorySum>, previousByCategory: seq<CategorySum>)
    returns (r: Result<AnalyticsReport, DateError>)
    ensures r.Ok? <==> HasMonthRange(year, month) && HasMonthRange(PrevMonth(year, month).0, PrevMonth(year, month).1)
    ensures r.Err? ==> r.error == if !HasMonthRange(year, month) then MonthRange(year, month).error
                                  else MonthRange(PrevMonth(year, month).0, PrevMonth(year, month).1).error
    ensures r.Ok? ==>
              r.value.summary == Summarize(txs) &&
              IsBreakdown(r.value.categories, txs) &&
              r.value.trend == Classify(KindTotal(txs, Expense), prevExpense.GetOr(0.0)) &&
              r.value.patterns.weekendExpense == WeekendTotal(txs) &&
              r.value.patterns.weekdayExpense == WeekdayTotal(txs) &&
              r.value.patterns.weekendHeavy == (WeekendTotal(txs) > WeekdayTotal(txs)) &&
              r.value.spikes == SpikesOf(currentByCategory, PrevLookup(previousByCategory))
  {
    var period := MonthRange(year, month);
    if period.Err? {
      return Err(period.error);
    }
    var summary := Summarize(txs);
    var categories := CategoryBreakdown(txs);
    var trend := MonthTrend(year, month, summary.expense, prevExpense);
    if trend.Err? {
      return Err(trend.error);
    }
    var patterns := DetectPatterns(txs);
    // Both of its month ranges have already resolved, so this pass cannot fail here.
    var spikes := DetectSpikes(year, month, currentByCategory, previousByCategory);
    r := Ok(AnalyticsReport(summary, categories, trend.value, patterns, spikes.value));
  }

  /** An income on Saturday 1 June 2024 and two food expenses, one on Sunday the 2nd and one on
      Monday the 3rd, with nothing recorded for May. */
  method June2024Example() returns (r: Result<AnalyticsReport, DateError>)
    ensures r.Ok?
    ensures r.value.summary == MonthSummary(1000.0, 300.0, 700.0, 0.7)
    ensures r.value.categories == [CategoryShare("Food", 300.0, 100.0)]
    ensures r.value.patterns == SpendingPattern(200.0, 100.0, true)
    ensures r.value.trend.trend == NoChange && r.value.spikes == []
  {
    var income := Transaction(1000.0, Income, Date(2024, 6, 1), None);
    var sunday := Transaction(200.0, Expense, Date(2024, 6, 2), Some("Food"));
    var monday := Transaction(100.0, Expense, Date(2024, 6, 3), Some("Food"));
    var txs := [income, sunday, monday];
    assert Weekday(sunday.date) == 6;
    assert Weekday(monday.date) == 0;
    var one, two := [income], [income, sunday];
    assert txs[..2] == two && two[..1] == one && one[..0] == [];
    assert FirstSeen(one) == [];
    assert FirstSeen(two) == ["Food"];
    assert FirstSeen(txs) == ["Food"];
    assert KindTotal(one, Income) == 1000.0;
    assert KindTotal(two, Income) == 1000.0;
    assert KindTotal(txs, Income) == 1000.0;
    assert KindTotal(one, Expense) == 0.0;
    assert KindTotal(two, Expense) == 200.0;
    assert KindTotal(txs, Expense) == 300.0;
    assert CategoryTotal(one, "Food") == 0.0;
    assert CategoryTotal(two, "Food") == 200.0;
    assert CategoryTotal(txs, "Food") == 300.0;
    assert WeekendTotal(one) == 0.0;
    assert WeekendTotal(two) == 200.0;
    assert WeekendTotal(txs) == 200.0;
    assert WeekdayTotal(one) == 0.0;
    assert WeekdayTotal(two) == 0.0;
    assert WeekdayTotal(txs) == 100.0;
    r := GenerateMonthlyAnalytics(2024, 6, txs, None, [CategorySum("Food", 300.0)], []);
  }
}
