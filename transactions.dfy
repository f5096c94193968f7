/**
 * A ledger entry (Transaction.java). The repository never calls the setters,
 * so an entry is an immutable value; its id comes from the shared counter.
 */
module Transactions {
  import opened Text
  import opened Money
  import opened Clock
  import opened Counters

  datatype Transaction = Transaction(
    id: string,
    accountNumber: string,
    txnType: string,
    amount: Cents,
    balanceAfter: Cents,
    timestamp: Timestamp)

  /** "TXN" + `%03d` of the counter value. */
  function TxnId(n: nat): string
  {
    PrefixedId("TXN", n)
  }

  /** getNextTransactionId: the id the next entry will take; the counter is only read. */
  function NextTransactionId(ids: Counter): string
    reads ids
  {
    TxnId(ids.value + 1)
  }

  /**
   * The four-argument constructor: advances the counter and stamps the entry
   * with the next id and the current time; the other fields are stored as given.
   */
  method NewTransaction(ids: Counter, accountNumber: string, txnType: string,
                        amount: Cents, balanceAfter: Cents, now: Timestamp)
    returns (t: Transaction)
    modifies ids
    ensures ids.value == old(ids.value) + 1
    ensures t.id == old(NextTransactionId(ids))
    ensures t == Transaction(TxnId(ids.value), accountNumber, txnType, amount, balanceAfter, now)
  {
    var n := ids.Next();
    t := Transaction(TxnId(n), accountNumber, txnType, amount, balanceAfter, now);
  }

  /** Entries numbered from different counter values have different ids. */
  lemma TxnIdsDistinct(m: nat, n: nat)
    requires m != n
    ensures TxnId(m) != TxnId(n)
  {
    if TxnId(m) == TxnId(n) {
      PrefixedIdInjective("TXN", m, n);
    }
  }

  /** Types shown with a plus sign: money coming in. */
  predicate IsCreditType(txnType: string)
  {
    EqualsIgnoreCase(txnType, "Deposit") || EqualsIgnoreCase(txnType, "Transfer In")
  }

  /** The sign displayTransactionDetails prints before the amount. */
  function DisplaySign(t: Transaction): string
  {
    if IsCreditType(t.txnType) then "+" else "-"
  }
}
