/** The category part of the monthly report: `category_breakdown` in
    backend/services/analytics_services.py. */
module Breakdown {
  import opened Ledger

  datatype CategoryShare = CategoryShare(category: string, amount: real, percent: real)

  /** `t` is an expense reported under category `name`. */
  predicate IsExpenseIn(t: Transaction, name: string) {
    t.kind == Expense && CategoryName(t) == name
  }

  /** The expense reported under category `name`. */
  function CategoryTotal(txs: seq<Transaction>, name: string): real {
    if txs == [] then 0.0
    else
      var last := txs[|txs| - 1];
      CategoryTotal(txs[..|txs| - 1], name) + (if IsExpenseIn(last, name) then last.amount else 0.0)
  }

  /** The category names of the expense transactions, each once, in the order they are first met:
      the key order of the insertion-ordered `category_map`. */
  function FirstSeen(txs: seq<Transaction>): seq<string> {
    if txs == [] then []
    else
      var seen, last := FirstSeen(txs[..|txs| - 1]), txs[|txs| - 1];
      if last.kind == Expense && CategoryName(last) !in seen then seen + [CategoryName(last)] else seen
  }

  predicate Distinct(names: seq<string>) {
    forall i, j :: 0 <= i < j < |names| ==> names[i] != names[j]
  }

  /** A category's share of the month's expense, in percent; 0 when there is no positive total. */
  function SharePercent(amount: real, total: real): (r: real)
    ensures total > 0.0 ==> r * total == amount * 100.0
    ensures total <= 0.0 ==> r == 0.0
  {
    if total > 0.0 then amount / total * 100.0 else 0.0
  }

  /** `result` is the breakdown of `txs`: one entry per category in first-seen order, with that
      category's expense and its percentage of the month's expense. */
  predicate IsBreakdown(result: seq<CategoryShare>, txs: seq<Transaction>) {
    var names, total := FirstSeen(txs), KindTotal(txs, Expense);
    |result| == |names| &&
    forall i :: 0 <= i < |result| ==>
      result[i] == CategoryShare(names[i], CategoryTotal(txs, names[i]), SharePercent(CategoryTotal(txs, names[i]), total))
  }

  /** `category_breakdown(transactions)`: filter the expenses, accumulate them per category name in
      an insertion-ordered map, then emit one entry per key in that order. */
  method CategoryBreakdown(txs: seq<Transaction>) returns (result: seq<CategoryShare>)
    ensures IsBreakdown(result, txs)
  {
    var expenseTxs := OfKind(txs, Expense);
    var totalExpense := KindTotal(expenseTxs, Expense);
    // category_map: its keys in insertion order, and the amount under each key
    var names: seq<string> := [];
    var amounts: map<string, real> := map[];
    for i := 0 to |expenseTxs|
      invariant names == FirstSeen(expenseTxs[..i])
      invariant forall n :: n in amounts <==> n in names
      invariant forall n :: n in amounts ==> amounts[n] == CategoryTotal(expenseTxs[..i], n)
    {
      var tx := expenseTxs[i];
      var name := CategoryName(tx);
      assert expenseTxs[..i + 1][..i] == expenseTxs[..i];
      if name !in amounts {
        CategoryTotalUnseen(expenseTxs[..i], name);
      }
      // defaultdict(float): a missing key reads as 0.0 and is inserted at the end
      var prior := if name in amounts then amounts[name] else 0.0;
      if name !in amounts {
        names := names + [name];
      }
      amounts := amounts[name := prior + tx.amount];
    }
    assert expenseTxs[..|expenseTxs|] == expenseTxs;

    result := [];
    for j := 0 to |names|
      invariant |result| == j
      invariant forall k :: 0 <= k < j ==>
        result[k] == CategoryShare(names[k], amounts[names[k]], SharePercent(amounts[names[k]], totalExpense))
    {
      var cat := names[j];
      var amt := amounts[cat];
      result := result + [CategoryShare(cat, amt, SharePercent(amt, totalExpense))];
    }

    ExpensesOnlyBreakdown(txs);
    KindTotalOfKind(txs, Expense, Expense);
  }

  /** Only expenses matter: the breakdown of the filtered list is that of the whole list. */
  lemma {:induction false} ExpensesOnlyBreakdown(txs: seq<Transaction>)
    ensures FirstSeen(OfKind(txs, Expense)) == FirstSeen(txs)
    ensures forall n :: CategoryTotal(OfKind(txs, Expense), n) == CategoryTotal(txs, n)
  {
    if txs != [] {
      var init, last := txs[..|txs| - 1], txs[|txs| - 1];
      ExpensesOnlyBreakdown(init);
      var e := OfKind(init, Expense);
      if last.kind == Expense {
        assert OfKind(txs, Expense) == e + [last];
        assert (e + [last])[..|e|] == e;
        assert FirstSeen(e + [last]) == if CategoryName(last) !in FirstSeen(e) then FirstSeen(e) + [CategoryName(last)] else FirstSeen(e);
      } else {
        assert OfKind(txs, Expense) == e;
      }
    }
  }

  /** A category is listed exactly when some expense is reported under it. */
  lemma {:induction false} FirstSeenMembers(txs: seq<Transaction>, name: string)
    ensures name in FirstSeen(txs) <==> exists i :: 0 <= i < |txs| && IsExpenseIn(txs[i], name)
  {
    if txs != [] {
      var init, last := txs[..|txs| - 1], txs[|txs| - 1];
      FirstSeenMembers(init, name);
      if name in FirstSeen(txs) {
        if name in FirstSeen(init) {
          var i :| 0 <= i < |init| && IsExpenseIn(init[i], name);
          assert txs[i] == init[i];
        } else {
          assert IsExpenseIn(txs[|txs| - 1], name);
        }
      }
      if exists i :: 0 <= i < |txs| && IsExpenseIn(txs[i], name) {
        var i :| 0 <= i < |txs| && IsExpenseIn(txs[i], name);
        if i < |init| {
          assert init[i] == txs[i];
        }
      }
    }
  }

  /** No category is listed twice. */
  lemma {:induction false} FirstSeenDistinct(txs: seq<Transaction>)
    ensures Distinct(FirstSeen(txs))
  {
    if txs != [] {
      FirstSeenDistinct(txs[..|txs| - 1]);
    }
  }

  /** A category with no expense has a total of zero. */
  lemma {:induction false} CategoryTotalUnseen(txs: seq<Transaction>, name: string)
    requires name !in FirstSeen(txs)
    ensures CategoryTotal(txs, name) == 0.0
  {
    if txs != [] {
      var init := txs[..|txs| - 1];
      CategoryTotalUnseen(init, name);
    }
  }

  /** The index of the first expense reported under `name`. */
  ghost function FirstPosition(txs: seq<Transaction>, name: string): (p: nat)
    requires name in FirstSeen(txs)
    ensures p < |txs| && IsExpenseIn(txs[p], name)
    ensures forall q :: 0 <= q < p ==> !IsExpenseIn(txs[q], name)
  {
    var init := txs[..|txs| - 1];
    if name in FirstSeen(init) then
      var p := FirstPosition(init, name);
      assert txs[p] == init[p];
      assert forall q :: 0 <= q < p ==> txs[q] == init[q];
      p
    else
      FirstSeenMembers(init, name);
      assert forall q :: 0 <= q < |init| ==> txs[q] == init[q];
      |txs| - 1
  }

  /** Categories are listed in the order of their first expense, not by amount. */
  lemma {:induction false} FirstSeenOrder(txs: seq<Transaction>, i: nat, j: nat)
    requires i < j < |FirstSeen(txs)|
    ensures FirstPosition(txs, FirstSeen(txs)[i]) < FirstPosition(txs, FirstSeen(txs)[j])
  {
    var init := txs[..|txs| - 1];
    var seen := FirstSeen(init);
    if j < |seen| {
      FirstSeenOrder(init, i, j);
    } else {
      assert FirstSeen(txs)[i] == seen[i];
    }
  }

  /** The sum of the category totals of `names`. */
  function ShareTotal(names: seq<string>, txs: seq<Transaction>): real {
    if names == [] then 0.0
    else ShareTotal(names[..|names| - 1], txs) + CategoryTotal(txs, names[|names| - 1])
  }

  lemma {:induction false} ShareTotalStep(names: seq<string>, txs: seq<Transaction>, t: Transaction)
    requires Distinct(names)
    ensures ShareTotal(names, txs + [t]) ==
            ShareTotal(names, txs) + (if t.kind == Expense && CategoryName(t) in names then t.amount else 0.0)
  {
    if names != [] {
      var init := names[..|names| - 1];
      ShareTotalStep(init, txs, t);
      assert (txs + [t])[..|txs|] == txs;
      assert CategoryName(t) in names <==> CategoryName(t) in init || CategoryName(t) == names[|names| - 1];
    }
  }

  /** The category totals add up to the month's expense. */
  lemma {:induction false} FirstSeenShareTotal(txs: seq<Transaction>)
    ensures ShareTotal(FirstSeen(txs), txs) == KindTotal(txs, Expense)
  {
    if txs != [] {
      var init, last := txs[..|txs| - 1], txs[|txs| - 1];
      var seen := FirstSeen(init);
      assert txs == init + [last];
      FirstSeenShareTotal(init);
      FirstSeenDistinct(init);
      ShareTotalStep(seen, init, last);
      if last.kind == Expense && CategoryName(last) !in seen {
        var n := CategoryName(last);
        assert (seen + [n])[..|seen|] == seen;
        CategoryTotalUnseen(init, n);
      }
    }
  }

  function AmountSum(result: seq<CategoryShare>): real {
    if result == [] then 0.0 else AmountSum(result[..|result| - 1]) + result[|result| - 1].amount
  }

  function PercentSum(result: seq<CategoryShare>): real {
    if result == [] then 0.0 else PercentSum(result[..|result| - 1]) + result[|result| - 1].percent
  }

  lemma {:induction false} AmountSumOfShares(result: seq<CategoryShare>, names: seq<string>, txs: seq<Transaction>)
    requires |result| == |names|
    requires forall i :: 0 <= i < |result| ==> result[i].amount == CategoryTotal(txs, names[i])
    ensures AmountSum(result) == ShareTotal(names, txs)
  {
    if result != [] {
      AmountSumOfShares(result[..|result| - 1], names[..|names| - 1], txs);
    }
  }

  lemma {:induction false} PercentSumScales(result: seq<CategoryShare>, total: real)
    requires total > 0.0
    requires forall i :: 0 <= i < |result| ==> result[i].percent == result[i].amount / total * 100.0
    ensures PercentSum(result) == AmountSum(result) / total * 100.0
  {
    if result != [] {
      var init, last := result[..|result| - 1], result[|result| - 1];
      PercentSumScales(init, total);
      assert (AmountSum(init) + last.amount) / total == AmountSum(init) / total + last.amount / total;
    }
  }

  /** Some expense is reported under category `name`. */
  ghost predicate Mentioned(txs: seq<Transaction>, name: string) {
    exists k :: 0 <= k < |txs| && IsExpenseIn(txs[k], name)
  }

  /** Some entry of the breakdown is for category `name`. */
  ghost predicate Listed(result: seq<CategoryShare>, name: string) {
    exists i :: 0 <= i < |result| && result[i].category == name
  }

  lemma WholeIsHundredPercent(total: real)
    requires total > 0.0
    ensures total / total * 100.0 == 100.0
  {
  }

  /** Each expense category appears exactly once, and in the order its first expense occurs. */
  lemma BreakdownCategories(result: seq<CategoryShare>, txs: seq<Transaction>)
    requires IsBreakdown(result, txs)
    ensures forall i, j :: 0 <= i < j < |result| ==> result[i].category != result[j].category
    ensures forall name :: Listed(result, name) <==> Mentioned(txs, name)
    ensures forall i, j :: 0 <= i < j < |result| ==>
              FirstSeen(txs)[i] == result[i].category && FirstSeen(txs)[j] == result[j].category &&
              FirstPosition(txs, result[i].category) < FirstPosition(txs, result[j].category)
  {
    var names := FirstSeen(txs);
    FirstSeenDistinct(txs);
    forall name
      ensures Listed(result, name) <==> Mentioned(txs, name)
    {
      FirstSeenMembers(txs, name);
      if name in names {
        var i :| 0 <= i < |names| && names[i] == name;
        assert result[i].category == name;
      }
    }
    forall i, j | 0 <= i < j < |result|
      ensures FirstPosition(txs, result[i].category) < FirstPosition(txs, result[j].category)
    {
      FirstSeenOrder(txs, i, j);
    }
  }

  /** The amounts add up to the month's expense. */
  lemma BreakdownAmounts(result: seq<CategoryShare>, txs: seq<Transaction>)
    requires IsBreakdown(result, txs)
    ensures AmountSum(result) == KindTotal(txs, Expense)
  {
    AmountSumOfShares(result, FirstSeen(txs), txs);
    FirstSeenShareTotal(txs);
  }

  /** The percents add up to 100 when the month's expense is positive, and are all 0 otherwise. */
  lemma BreakdownPercents(result: seq<CategoryShare>, txs: seq<Transaction>)
    requires IsBreakdown(result, txs)
    ensures KindTotal(txs, Expense) > 0.0 ==> PercentSum(result) == 100.0
    ensures KindTotal(txs, Expense) <= 0.0 ==> forall i :: 0 <= i < |result| ==> result[i].percent == 0.0
  {
    var total := KindTotal(txs, Expense);
    if total > 0.0 {
      forall i | 0 <= i < |result|
        ensures result[i].percent == result[i].amount / total * 100.0
      {
        assert result[i].amount == CategoryTotal(txs, FirstSeen(txs)[i]);
      }
      PercentSumScales(result, total);
      BreakdownAmounts(result, txs);
      WholeIsHundredPercent(total);
    }
  }
}
