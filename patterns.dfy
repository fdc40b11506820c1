/** The weekend/weekday part of the monthly report: `detect_patterns` in
    backend/services/analytics_services.py. */
module Patterns {
  import opened Calendar
  import opened Ledger

  datatype SpendingPattern = SpendingPattern(weekendExpense: real, weekdayExpense: real, weekendHeavy: bool)

  /** Saturday and Sunday: `date.weekday() >= 5`. */
  predicate IsWeekend(d: CalendarDay) {
    Weekday(d) >= 5
  }

  /** The expense made on Saturdays and Sundays. */
  function WeekendTotal(txs: seq<Transaction>): real {
    if txs == [] then 0.0
    else
      var last := txs[|txs| - 1];
      WeekendTotal(txs[..|txs| - 1]) + (if last.kind == Expense && IsWeekend(last.date) then last.amount else 0.0)
  }

  /** The expense made Monday to Friday. */
  function WeekdayTotal(txs: seq<Transaction>): real {
    if txs == [] then 0.0
    else
      var last := txs[|txs| - 1];
      WeekdayTotal(txs[..|txs| - 1]) + (if last.kind == Expense && !IsWeekend(last.date) then last.amount else 0.0)
  }

  /** `detect_patterns(transactions)`: one pass over the month that skips non-expenses and adds each
      expense to the weekend or the weekday total (and to the running total of all expense). */
  method DetectPatterns(txs: seq<Transaction>) returns (p: SpendingPattern)
    ensures p.weekendExpense == WeekendTotal(txs) && p.weekdayExpense == WeekdayTotal(txs)
    ensures p.weekendExpense + p.weekdayExpense == KindTotal(txs, Expense)
    ensures p.weekendHeavy <==> p.weekendExpense > p.weekdayExpense
  {
    var weekendExpense := 0.0;
    var weekdayExpense := 0.0;
    var totalExpense := 0.0;
    for i := 0 to |txs|
      invariant weekendExpense == WeekendTotal(txs[..i])
      invariant weekdayExpense == WeekdayTotal(txs[..i])
      invariant totalExpense == KindTotal(txs[..i], Expense)
      invariant totalExpense == weekendExpense + weekdayExpense
    {
      assert txs[..i + 1][..i] == txs[..i];
      var tx := txs[i];
      if tx.kind != Expense {
        continue;
      }
      totalExpense := totalExpense + tx.amount;
      var day := Weekday(tx.date);
      if day >= 5 {
        weekendExpense := weekendExpense + tx.amount;
      } else {
        weekdayExpense := weekdayExpense + tx.amount;
      }
    }
    assert txs[..|txs|] == txs;
    p := SpendingPattern(weekendExpense, weekdayExpense, weekendExpense > weekdayExpense);
  }

  /** Every expense is on a weekend or on a weekday, never both. */
  lemma {:induction false} WeekSplit(txs: seq<Transaction>)
    ensures WeekendTotal(txs) + WeekdayTotal(txs) == KindTotal(txs, Expense)
  {
    if txs != [] {
      WeekSplit(txs[..|txs| - 1]);
    }
  }

  /** When every expense falls on a weekend there is no weekday expense, and the month is
      weekend-heavy exactly when its weekend expense is positive. */
  lemma {:induction false} AllOnWeekends(txs: seq<Transaction>)
    requires forall i :: 0 <= i < |txs| && txs[i].kind == Expense ==> IsWeekend(txs[i].date)
    ensures WeekdayTotal(txs) == 0.0
    ensures WeekendTotal(txs) > WeekdayTotal(txs) <==> WeekendTotal(txs) > 0.0
  {
    if txs != [] {
      var init := txs[..|txs| - 1];
      assert forall i :: 0 <= i < |init| ==> init[i] == txs[i];
      AllOnWeekends(init);
    }
  }

  /** With no expense at all the month is not weekend-heavy: `0 > 0` is false. */
  lemma NoExpenseNotHeavy(txs: seq<Transaction>)
    requires KindTotal(txs, Expense) == 0.0
    requires forall i :: 0 <= i < |txs| ==> txs[i].amount >= 0.0
    ensures WeekendTotal(txs) == 0.0 && WeekdayTotal(txs) == 0.0
    ensures !(WeekendTotal(txs) > WeekdayTotal(txs))
  {
    NonNegativeTotals(txs);
    WeekSplit(txs);
  }

  lemma {:induction false} NonNegativeTotals(txs: seq<Transaction>)
    requires forall i :: 0 <= i < |txs| ==> txs[i].amount >= 0.0
    ensures WeekendTotal(txs) >= 0.0 && WeekdayTotal(txs) >= 0.0
  {
    if txs != [] {
      var init := txs[..|txs| - 1];
      assert forall i :: 0 <= i < |init| ==> init[i] == txs[i];
      NonNegativeTotals(init);
    }
  }
}
