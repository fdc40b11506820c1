/** The month-over-month trend part of the monthly report: `month_trend` in
    backend/services/analytics_services.py. */
module Trend {
  import opened Wrappers
  import opened Calendar
  import opened Percent

  datatype Direction = Increase | Decrease | NoChange

  datatype TrendReport = TrendReport(
    currentMonthExpense: real, previousMonthExpense: real, changePercent: real, trend: Direction)

  /** Changes within this many percent either way are noise, not a trend. */
  const NoiseBand: real := 5.0

  /** Compares this month's expense with last month's. Without a positive baseline the change is 0
      and there is no trend; otherwise the change is a percentage of last month's expense and only
      a change strictly beyond the noise band counts. */
  function Classify(current: real, previous: real): (t: TrendReport)
    ensures t.currentMonthExpense == current && t.previousMonthExpense == previous
    ensures previous <= 0.0 ==> t.changePercent == 0.0 && t.trend == NoChange
    ensures previous > 0.0 ==> t.changePercent * previous == (current - previous) * 100.0
    ensures t.trend == Increase <==> previous > 0.0 && current * 100.0 > previous * (100.0 + NoiseBand)
    ensures t.trend == Decrease <==> previous > 0.0 && current * 100.0 < previous * (100.0 - NoiseBand)
  {
    var changePercent := if previous > 0.0 then ChangePercent(current, previous) else 0.0;
    var trend :=
      if previous > 0.0 && changePercent > NoiseBand then Increase
      else if previous > 0.0 && changePercent < -NoiseBand then Decrease
      else NoChange;
    if previous > 0.0 then
      ChangeTimesBase(current, previous);
      ChangeAbove(current, previous, NoiseBand);
      ChangeBelow(current, previous, -NoiseBand);
      TrendReport(current, previous, changePercent, trend)
    else
      TrendReport(current, previous, changePercent, trend)
  }

  /** `month_trend(user_id, year, month, current_expense)`. It derives the previous month and its
      range (raising when Python cannot represent it); `prevSum` is what the query's SUM over that
      range returned, `None` when there were no expense rows, read as 0 by `or 0`. */
  function MonthTrend(year: int, month: int, currentExpense: real, prevSum: Option<real>): (r: Result<TrendReport, DateError>)
    ensures r.Ok? <==> HasMonthRange(PrevMonth(year, month).0, PrevMonth(year, month).1)
    ensures r.Err? ==> r.error == MonthRange(PrevMonth(year, month).0, PrevMonth(year, month).1).error
    ensures r.Ok? ==> r.value == Classify(currentExpense, prevSum.GetOr(0.0))
  {
    var (prevYear, prevMonth) := PrevMonth(year, month);
    match MonthRange(prevYear, prevMonth)
    case Err(e) => Err(e)
    case Ok(_) => Ok(Classify(currentExpense, prevSum.GetOr(0.0)))
  }

  /** With no expense last month there is never a trend, whatever this month's expense. */
  lemma NoBaselineNoTrend(year: int, month: int, currentExpense: real)
    requires HasMonthRange(PrevMonth(year, month).0, PrevMonth(year, month).1)
    ensures MonthTrend(year, month, currentExpense, None).value.trend == NoChange
    ensures MonthTrend(year, month, currentExpense, None).value.changePercent == 0.0
    ensures MonthTrend(year, month, currentExpense, Some(0.0)) == MonthTrend(year, month, currentExpense, None)
  {
  }

  /** The band edges: a 5% rise or fall is no trend, 6% is. */
  lemma TrendBoundaries()
    ensures Classify(1050.0, 1000.0) == TrendReport(1050.0, 1000.0, 5.0, NoChange)
    ensures Classify(1060.0, 1000.0) == TrendReport(1060.0, 1000.0, 6.0, Increase)
    ensures Classify(950.0, 1000.0) == TrendReport(950.0, 1000.0, -5.0, NoChange)
    ensures Classify(940.0, 1000.0) == TrendReport(940.0, 1000.0, -6.0, Decrease)
    ensures Classify(500.0, 0.0) == TrendReport(500.0, 0.0, 0.0, NoChange)
  {
  }

  /** January is compared with December of the year before. */
  lemma JanuaryLooksBackToDecember(year: int)
    requires MinYear < year <= MaxYear
    ensures PrevMonth(year, 1) == (year - 1, 12)
    ensures MonthTrend(year, 1, 0.0, None).Ok?
    ensures MonthTrend(MinYear, 1, 0.0, None) == Err(YearOutOfRange(MinYear - 1))
  {
  }
}
