/**
 * The totals pass of the `/api/parse` handler in server/server.js: a walk
 * over the transactions in order that adds every Debit amount to
 * `categoryTotals[category]` and to `grandTotal`, and skips every Credit.
 */
module Totals {
  import opened Ledger
  import opened Assoc

  /** `categoryTotals` after the walk over `transactions`. */
  function DebitTotals(transactions: seq<Transaction>): Entries
    decreases |transactions|
  {
    if |transactions| == 0 then []
    else
      var totals := DebitTotals(transactions[..|transactions| - 1]);
      var t := transactions[|transactions| - 1];
      if t.kind == Debit then Add(totals, t.category, t.amount) else totals
  }

  /** `grandTotal` after the walk over `transactions`. */
  function DebitSum(transactions: seq<Transaction>): nat
    decreases |transactions|
  {
    if |transactions| == 0 then 0
    else
      var t := transactions[|transactions| - 1];
      DebitSum(transactions[..|transactions| - 1]) + (if t.kind == Debit then t.amount else 0)
  }

  /** Reference: the total spent under `category`, over the Debit transactions. */
  function SpentOn(transactions: seq<Transaction>, category: string): nat
    decreases |transactions|
  {
    if |transactions| == 0 then 0
    else
      var t := transactions[|transactions| - 1];
      SpentOn(transactions[..|transactions| - 1], category)
      + (if t.kind == Debit && t.category == category then t.amount else 0)
  }

  predicate HasDebitIn(transactions: seq<Transaction>, category: string) {
    exists i :: 0 <= i < |transactions| && transactions[i].kind == Debit && transactions[i].category == category
  }

  /** The `forEach` over the transactions. */
  method ComputeTotals(transactions: seq<Transaction>) returns (categoryTotals: Entries, grandTotal: nat)
    ensures categoryTotals == DebitTotals(transactions)
    ensures grandTotal == DebitSum(transactions)
  {
    categoryTotals := [];
    grandTotal := 0;
    for i := 0 to |transactions|
      invariant categoryTotals == DebitTotals(transactions[..i])
      invariant grandTotal == DebitSum(transactions[..i])
    {
      var t := transactions[i];
      assert transactions[..i + 1][..i] == transactions[..i];
      if t.kind == Debit {
        categoryTotals := Add(categoryTotals, t.category, t.amount);
        grandTotal := grandTotal + t.amount;
      }
    }
    assert transactions[..|transactions|] == transactions;
  }

  /** The category totals add up to the grand total. */
  lemma {:induction false} TotalsSumToGrandTotal(transactions: seq<Transaction>)
    ensures Sum(DebitTotals(transactions)) == DebitSum(transactions)
    decreases |transactions|
  {
    if |transactions| > 0 {
      var init := transactions[..|transactions| - 1];
      var t := transactions[|transactions| - 1];
      TotalsSumToGrandTotal(init);
      if t.kind == Debit {
        AddSum(DebitTotals(init), t.category, t.amount);
      }
    }
  }

  /** Each category's total is what was spent on it; every other key reads as 0. */
  lemma {:induction false} TotalsPerCategory(transactions: seq<Transaction>, category: string)
    ensures Get(DebitTotals(transactions), category) == SpentOn(transactions, category)
    decreases |transactions|
  {
    if |transactions| > 0 {
      var init := transactions[..|transactions| - 1];
      var t := transactions[|transactions| - 1];
      TotalsPerCategory(init, category);
      if t.kind == Debit {
        AddGet(DebitTotals(init), t.category, t.amount, category);
      }
    }
  }

  /** The keys are distinct, and a category is a key exactly when some Debit has it. */
  lemma {:induction false} TotalsKeys(transactions: seq<Transaction>)
    ensures DistinctKeys(DebitTotals(transactions))
    ensures forall c :: HasKey(DebitTotals(transactions), c) <==> HasDebitIn(transactions, c)
    decreases |transactions|
  {
    if |transactions| > 0 {
      var init := transactions[..|transactions| - 1];
      var t := transactions[|transactions| - 1];
      TotalsKeys(init);
      if t.kind == Debit {
        AddDistinct(DebitTotals(init), t.category, t.amount);
      }
      forall c ensures HasDebitIn(transactions, c) <==> HasDebitIn(init, c) || (t.kind == Debit && t.category == c) {
        if HasDebitIn(transactions, c) {
          var i :| 0 <= i < |transactions| && transactions[i].kind == Debit && transactions[i].category == c;
          if i < |init| {
            assert init[i] == transactions[i];
          }
        }
        if HasDebitIn(init, c) {
          var i :| 0 <= i < |init| && init[i].kind == Debit && init[i].category == c;
          assert transactions[i] == init[i];
        }
      }
    }
  }

  /** Credits change nothing: appending one leaves both the totals and the grand total as
      they were, and dropping all of them gives the same result. */
  lemma CreditChangesNothing(transactions: seq<Transaction>, credit: Transaction)
    requires credit.kind == Credit
    ensures DebitTotals(transactions + [credit]) == DebitTotals(transactions)
    ensures DebitSum(transactions + [credit]) == DebitSum(transactions)
  {
    assert (transactions + [credit])[..|transactions|] == transactions;
  }

  /** The Debit transactions of a list, in order. */
  function Debits(transactions: seq<Transaction>): seq<Transaction>
    decreases |transactions|
  {
    if |transactions| == 0 then []
    else
      var t := transactions[|transactions| - 1];
      Debits(transactions[..|transactions| - 1]) + (if t.kind == Debit then [t] else [])
  }

  lemma {:induction false} OnlyDebitsCount(transactions: seq<Transaction>)
    ensures DebitTotals(Debits(transactions)) == DebitTotals(transactions)
    ensures DebitSum(Debits(transactions)) == DebitSum(transactions)
    decreases |transactions|
  {
    if |transactions| > 0 {
      var init := transactions[..|transactions| - 1];
      var t := transactions[|transactions| - 1];
      OnlyDebitsCount(init);
      var d := Debits(init);
      if t.kind == Debit {
        assert Debits(transactions) == d + [t];
        assert (d + [t])[..|d|] == d;
        assert DebitTotals(d + [t]) == Assoc.Add(DebitTotals(d), t.category, t.amount);
        assert DebitSum(d + [t]) == DebitSum(d) + t.amount;
      } else {
        assert Debits(transactions) == d;
      }
    }
  }
}
