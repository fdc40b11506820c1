/** The transactions the analytics passes read, and per-kind totals over them. */
module Ledger {
  import opened Wrappers
  import opened Calendar

  /** The transaction type; the passes recognise `income` and `expense` and ignore anything else. */
  datatype TxKind = Income | Expense | Other

  /** One row of the transaction table as the passes see it: the amount (exact, not a float),
      the type, the day it was made on and the name of its category, if it has one. */
  datatype Transaction = Transaction(amount: real, kind: TxKind, date: CalendarDay, category: Option<string>)

  /** The name a transaction without a category is reported under. */
  const Uncategorized: string := "Uncategorized"

  /** `tx.category.name if tx.category else "Uncategorized"`. */
  function CategoryName(t: Transaction): (r: string)
    ensures t.category.Some? ==> r == t.category.value
    ensures t.category.None? ==> r == Uncategorized
  {
    t.category.GetOr(Uncategorized)
  }

  /** No transaction is of kind `k`. */
  predicate NoneOfKind(txs: seq<Transaction>, k: TxKind) {
    forall i :: 0 <= i < |txs| ==> txs[i].kind != k
  }

  /** No amount is negative. */
  predicate NonNegativeAmounts(txs: seq<Transaction>) {
    forall i :: 0 <= i < |txs| ==> txs[i].amount >= 0.0
  }

  /** The sum of the amounts of the transactions of kind `k`. */
  function KindTotal(txs: seq<Transaction>, k: TxKind): (r: real)
    ensures NoneOfKind(txs, k) ==> r == 0.0
    ensures NonNegativeAmounts(txs) ==> r >= 0.0
  {
    if txs == [] then 0.0
    else
      var last := txs[|txs| - 1];
      KindTotal(txs[..|txs| - 1], k) + (if last.kind == k then last.amount else 0.0)
  }

  /** `r` holds every transaction of kind `k` exactly as often as `txs` does, and nothing else. */
  ghost predicate SameOccurrences(r: seq<Transaction>, txs: seq<Transaction>, k: TxKind) {
    forall t :: multiset(r)[t] == if t.kind == k then multiset(txs)[t] else 0
  }

  /** `[t for t in txs if t.transaction_type == k]`. */
  function OfKind(txs: seq<Transaction>, k: TxKind): (r: seq<Transaction>)
    ensures |r| <= |txs|
    ensures forall i :: 0 <= i < |r| ==> r[i].kind == k
    ensures forall t :: t in r <==> t in txs && t.kind == k
  {
    if txs == [] then []
    else
      var last := txs[|txs| - 1];
      OfKind(txs[..|txs| - 1], k) + (if last.kind == k then [last] else [])
  }

  /** The filter keeps every transaction of the kind as often as it occurs, and drops the others. */
  lemma {:induction false} OfKindOccurrences(txs: seq<Transaction>, k: TxKind)
    ensures SameOccurrences(OfKind(txs, k), txs, k)
  {
    if txs != [] {
      var init, last := txs[..|txs| - 1], txs[|txs| - 1];
      assert txs == init + [last];
      OfKindOccurrences(init, k);
    }
  }

  /** Totals are additive over concatenation, so the order of summation does not matter. */
  lemma {:induction false} KindTotalAppend(xs: seq<Transaction>, ys: seq<Transaction>, k: TxKind)
    ensures KindTotal(xs + ys, k) == KindTotal(xs, k) + KindTotal(ys, k)
  {
    if ys == [] {
      assert xs + ys == xs;
    } else {
      var init := ys[..|ys| - 1];
      assert (xs + ys)[..|xs + ys| - 1] == xs + init;
      KindTotalAppend(xs, init, k);
    }
  }

  /** Filtering by a kind keeps that kind's total and zeroes every other kind's. */
  lemma {:induction false} KindTotalOfKind(txs: seq<Transaction>, k: TxKind, j: TxKind)
    ensures KindTotal(OfKind(txs, k), j) == if j == k then KindTotal(txs, k) else 0.0
  {
    if txs != [] {
      var init, last := txs[..|txs| - 1], txs[|txs| - 1];
      KindTotalOfKind(init, k, j);
      KindTotalAppend(OfKind(init, k), if last.kind == k then [last] else [], j);
      assert KindTotal([last], j) == if last.kind == j then last.amount else 0.0 by {
        assert [last][..0] == [];
      }
    }
  }
}
