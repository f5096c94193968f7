/**
 * FunctionalUtils: filtering and sorting lists of entries. Each returns a
 * new list; sequences are values, so the input is unchanged by construction.
 */
module Functional {
  import opened Clock
  import opened Sorting
  import opened Transactions
  import opened Ledger

  /** filterTransactions: the entries satisfying `condition`, in their original order. */
  function FilterTransactions(transactions: seq<Transaction>, condition: Transaction -> bool): seq<Transaction>
  {
    Filter(transactions, condition)
  }

  /**
   * Exactly the satisfying entries come out, each as often as it went in,
   * and filtering a concatenation concatenates the filtered parts, so the
   * kept entries keep their relative order.
   */
  lemma FilterTransactionsExactly(transactions: seq<Transaction>, condition: Transaction -> bool, x: Transaction)
    ensures multiset(FilterTransactions(transactions, condition))[x] ==
              if condition(x) then multiset(transactions)[x] else 0
    ensures forall a, b | a + b == transactions ::
              FilterTransactions(transactions, condition) ==
                FilterTransactions(a, condition) + FilterTransactions(b, condition)
  {
    FilterCounts(transactions, condition, x);
    forall a, b | a + b == transactions
      ensures Filter(transactions, condition) == Filter(a, condition) + Filter(b, condition)
    {
      FilterAppend(a, b, condition);
    }
  }

  /** Comparator.comparing(Transaction::getAmount). */
  function ByAmount(t: Transaction): int
  {
    t.amount
  }

  /** Comparator.comparing(Transaction::getTimestamp): oldest first. */
  function ByDate(t: Transaction): int
  {
    Ticks(t.timestamp)
  }

  /** sortTransactionsByAmount: a stable sort, smallest amount first. */
  function SortTransactionsByAmount(transactions: seq<Transaction>): (r: seq<Transaction>)
    ensures multiset(r) == multiset(transactions)
    ensures forall i, j | 0 <= i < j < |r| :: r[i].amount <= r[j].amount
  {
    SortByPermutes(transactions, ByAmount);
    SortBy(transactions, ByAmount)
  }

  /** sortTransactionsByDate: a stable sort, oldest first (the ledger's own order is newest first). */
  function SortTransactionsByDate(transactions: seq<Transaction>): (r: seq<Transaction>)
    ensures multiset(r) == multiset(transactions)
    ensures SortedBy(r, ByDate)
  {
    SortByPermutes(transactions, ByDate);
    SortBy(transactions, ByDate)
  }

  /** Sorted by date means no entry stamped earlier than one listed before it. */
  lemma SortByDateChronological(transactions: seq<Transaction>)
    requires forall k | 0 <= k < |transactions| :: Clock.Valid(transactions[k].timestamp)
    ensures var r := SortTransactionsByDate(transactions);
            forall i, j | 0 <= i < j < |r| :: !Before(r[j].timestamp, r[i].timestamp)
  {
    var r := SortTransactionsByDate(transactions);
    forall i, j | 0 <= i < j < |r| ensures !Before(r[j].timestamp, r[i].timestamp) {
      assert r[i] in multiset(transactions) && r[j] in multiset(transactions);
      TicksOrder(r[j].timestamp, r[i].timestamp);
    }
  }

  /** Entries with equal amounts keep their input order. */
  lemma SortByAmountStable(transactions: seq<Transaction>, amount: int)
    ensures Filter(SortTransactionsByAmount(transactions), KeyIs(ByAmount, amount)) ==
              Filter(transactions, KeyIs(ByAmount, amount))
  {
    SortByStable(transactions, ByAmount, amount);
  }

  /** Entries stamped at the same instant keep their input order. */
  lemma SortByDateStable(transactions: seq<Transaction>, instant: int)
    ensures Filter(SortTransactionsByDate(transactions), KeyIs(ByDate, instant)) ==
              Filter(transactions, KeyIs(ByDate, instant))
  {
    SortByStable(transactions, ByDate, instant);
  }

  /** Sorting an already sorted list returns it unchanged. */
  lemma SortsIdempotent(transactions: seq<Transaction>)
    ensures SortTransactionsByAmount(SortTransactionsByAmount(transactions)) == SortTransactionsByAmount(transactions)
    ensures SortTransactionsByDate(SortTransactionsByDate(transactions)) == SortTransactionsByDate(transactions)
  {
    SortByIdempotent(transactions, ByAmount);
    SortByIdempotent(transactions, ByDate);
  }

  /**
   * The date sort runs opposite to the ledger's order: an oldest-first list
   * read backwards is newest first.
   */
  lemma DateOrderOppositeLedger(transactions: seq<Transaction>)
    ensures var r := SortTransactionsByDate(transactions);
            SortedBy(seq(|r|, k requires 0 <= k < |r| => r[|r| - 1 - k]), NewestFirst)
  {
    var r := SortTransactionsByDate(transactions);
    var back := seq(|r|, k requires 0 <= k < |r| => r[|r| - 1 - k]);
    forall i, j | 0 <= i < j < |back| ensures NewestFirst(back[i]) <= NewestFirst(back[j]) {
      assert ByDate(r[|r| - 1 - j]) <= ByDate(r[|r| - 1 - i]);
    }
  }
}
