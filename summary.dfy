/** The summary part of the monthly report: `calculate_summary` in
    backend/services/analytics_services.py. */
module Summary {
  import opened Ledger

  datatype MonthSummary = MonthSummary(income: real, expense: real, savings: real, savingsRatio: real)

  /** Totals income and expense over the month's transactions (other kinds are ignored), then
      savings and the share of income saved, which is 0 when there is no positive income. */
  function Summarize(txs: seq<Transaction>): (s: MonthSummary)
    ensures s.income == KindTotal(txs, Income) && s.expense == KindTotal(txs, Expense)
    ensures s.savings == s.income - s.expense
    ensures s.income > 0.0 ==> s.savingsRatio * s.income == s.savings
    ensures s.income <= 0.0 ==> s.savingsRatio == 0.0
    ensures txs == [] ==> s == MonthSummary(0.0, 0.0, 0.0, 0.0)
  {
    var income := KindTotal(txs, Income);
    var expense := KindTotal(txs, Expense);
    var savings := income - expense;
    var savingsRatio := if income > 0.0 then savings / income else 0.0;
    MonthSummary(income, expense, savings, savingsRatio)
  }

  /** A transaction that is neither income nor expense changes nothing, wherever it stands. */
  lemma SummaryIgnoresOther(xs: seq<Transaction>, t: Transaction, ys: seq<Transaction>)
    requires t.kind == Other
    ensures Summarize(xs + [t] + ys) == Summarize(xs + ys)
  {
    forall k | k != Other
      ensures KindTotal(xs + [t] + ys, k) == KindTotal(xs + ys, k)
    {
      KindTotalAppend(xs + [t], ys, k);
      KindTotalAppend(xs, [t], k);
      KindTotalAppend(xs, ys, k);
      assert [t][..0] == [];
    }
  }

  /** The summary of two batches taken together does not depend on their order. */
  lemma SummaryOrderIndependent(xs: seq<Transaction>, ys: seq<Transaction>)
    ensures Summarize(xs + ys) == Summarize(ys + xs)
    ensures Summarize(xs + ys).income == Summarize(xs).income + Summarize(ys).income
    ensures Summarize(xs + ys).expense == Summarize(xs).expense + Summarize(ys).expense
  {
    KindTotalAppend(xs, ys, Income);
    KindTotalAppend(ys, xs, Income);
    KindTotalAppend(xs, ys, Expense);
    KindTotalAppend(ys, xs, Expense);
  }

  /** With positive income and non-negative expense at most everything is saved, and the ratio is
      negative exactly when expense exceeds income. */
  lemma SavingsRatioBounds(txs: seq<Transaction>)
    requires Summarize(txs).income > 0.0 && Summarize(txs).expense >= 0.0
    ensures Summarize(txs).savingsRatio <= 1.0
    ensures Summarize(txs).savingsRatio < 0.0 <==> Summarize(txs).expense > Summarize(txs).income
  {
  }
}
