/**
 * TransactionManager: the single in-memory ledger, a fixed array of 200
 * slots of which the first `count` hold the recorded entries.
 */
module Ledger {
  import opened Errors
  import opened Text
  import opened Clock
  import opened Sorting
  import opened Transactions

  /** MAX_TRANSACTION. */
  const MaxTransactions: nat := 200

  const StorageFullMessage: string :=
    "Transaction Manager storage limit reached (200). Cannot record new transaction."

  /** The ledger's order: most recent first. */
  function NewestFirst(t: Transaction): int
  {
    -Ticks(t.timestamp)
  }

  /** The entries of one account, compared ignoring case, in ledger order. */
  function OfAccount(entries: seq<Transaction>, accountNumber: string): seq<Transaction>
  {
    Filter(entries, (t: Transaction) => EqualsIgnoreCase(t.accountNumber, accountNumber))
  }

  class TransactionManager {
    const slots: array<Transaction>
    var count: nat

    predicate Valid()
      reads this
    {
      slots.Length == MaxTransactions && count <= slots.Length
    }

    /** The recorded entries, in storage order. */
    function Entries(): seq<Transaction>
      reads this, slots
      requires Valid()
    {
      slots[..count]
    }

    constructor ()
      ensures Valid() && count == 0 && Entries() == []
    {
      slots := new Transaction[MaxTransactions];
      count := 0;
    }

    /**
     * addTransaction: a missing entry and a full ledger are refused and change
     * nothing; otherwise the entry goes into slot `count` and nothing else moves.
     */
    method AddTransaction(t: Option<Transaction>) returns (r: Result<()>)
      requires Valid()
      modifies this, slots
      ensures Valid()
      ensures t.None? ==> r == Err(IllegalArgument("Transaction cannot be null"))
      ensures t.Some? && old(count) >= MaxTransactions ==> r == Err(IllegalState(StorageFullMessage))
      ensures r.Err? ==> count == old(count) && slots[..] == old(slots[..])
      ensures t.Some? && old(count) < MaxTransactions ==> r.Ok?
      ensures r.Ok? ==> count == old(count) + 1 && slots[..] == old(slots[..])[old(count) := t.value]
      ensures r.Ok? ==> Entries() == old(Entries()) + [t.value]
    {
      if t.None? {
        return Err(IllegalArgument("Transaction cannot be null"));
      }
      if count >= slots.Length {
        return Err(IllegalState(StorageFullMessage));
      }
      slots[count] := t.value;
      count := count + 1;
      assert Entries() == old(Entries()) + [t.value];
      r := Ok(());
    }

    /** getTransaction: bounds-checked access to a recorded entry. */
    method GetTransaction(index: int) returns (r: Result<Transaction>)
      requires Valid()
      ensures 0 <= index < count <==> r.Ok?
      ensures r.Ok? ==> r.value == Entries()[index]
      ensures r.Err? ==> r.error == IndexOutOfBounds("Invalid transaction index: " + IntToDecimal(index))
    {
      if index < 0 || index >= count {
        return Err(IndexOutOfBounds("Invalid transaction index: " + IntToDecimal(index)));
      }
      r := Ok(slots[index]);
    }

    /** getTransactionCount: never more than the capacity. */
    function TransactionCount(): (n: nat)
      reads this
      requires Valid()
      ensures n <= MaxTransactions
    {
      count
    }

    /**
     * sortTransactions: the recorded entries are stably re-ordered most recent
     * first; the count and the unused slots are untouched.
     */
    method SortTransactions()
      requires Valid()
      modifies slots
      ensures Valid()
      ensures Entries() == SortBy(old(Entries()), NewestFirst)
      ensures multiset(Entries()) == multiset(old(Entries()))
      ensures SortedBy(Entries(), NewestFirst)
      ensures slots[count..] == old(slots[count..])
    {
      var sorted := SortBy(slots[..count], NewestFirst);
      SortByPermutes(slots[..count], NewestFirst);
      assert |sorted| == count by {
        assert |multiset(sorted)| == |multiset(slots[..count])|;
      }
      StoreEntries(sorted);
    }

    /** Writes `entries` over the recorded slots, in order; the unused slots are untouched. */
    method StoreEntries(entries: seq<Transaction>)
      requires Valid() && |entries| == count
      modifies slots
      ensures Valid()
      ensures Entries() == entries
      ensures slots[count..] == old(slots[count..])
    {
      var i := 0;
      while i < count
        invariant 0 <= i <= count
        invariant slots[..i] == entries[..i]
        invariant slots[i..] == old(slots[..])[i..]
      {
        slots[i] := entries[i];
        i := i + 1;
        assert slots[..i] == slots[..i - 1] + [slots[i - 1]];
      }
      assert slots[..count] == entries;
      assert slots[count..] == old(slots[..])[count..];
    }

    /**
     * getTransactionsByAccount: re-sorts the ledger first, then returns the
     * entries of the account (compared ignoring case) in the new storage order.
     */
    method TransactionsByAccount(accountNumber: string) returns (r: seq<Transaction>)
      requires Valid()
      modifies slots
      ensures Valid()
      ensures Entries() == SortBy(old(Entries()), NewestFirst)
      ensures slots[count..] == old(slots[count..])
      ensures r == OfAccount(Entries(), accountNumber)
    {
      SortTransactions();
      r := OfAccount(slots[..count], accountNumber);
    }
  }
}
