/**
 * StatementGenerator: the per-account statement. The printed layout is not
 * modelled; what is modelled is which entries a statement lists, in which
 * order, and the count and totals printed under them.
 */
module Statements {
  import opened Errors
  import opened Text
  import opened Money
  import opened Sorting
  import opened Transactions
  import opened Ledger
  import opened Accounts
  import opened AccountManagement

  /** Types added to "Total Deposits/In": DEPOSIT and TRANSFER IN, ignoring case. */
  predicate IsInflow(txnType: string)
  {
    EqualsIgnoreCase(txnType, "DEPOSIT") || EqualsIgnoreCase(txnType, "TRANSFER IN")
  }

  /** Types added to "Total Withdrawals/Out": WITHDRAWAL and TRANSFER OUT, ignoring case. */
  predicate IsOutflow(txnType: string)
  {
    EqualsIgnoreCase(txnType, "WITHDRAWAL") || EqualsIgnoreCase(txnType, "TRANSFER OUT")
  }

  /** Two patterns that upper-case alike match the same strings. */
  lemma SameUpperSameMatch(s: string, a: string, b: string)
    requires ToUpper(a) == ToUpper(b)
    ensures EqualsIgnoreCase(s, a) <==> EqualsIgnoreCase(s, b)
  {
    EqualsIgnoreCaseIffUpper(s, a);
    EqualsIgnoreCaseIffUpper(s, b);
  }

  /**
   * The statement's inflows are exactly the entries shown with a plus sign,
   * and no type is both an inflow and an outflow.
   */
  lemma InflowIsCredit(txnType: string)
    ensures IsInflow(txnType) <==> IsCreditType(txnType)
    ensures !(IsInflow(txnType) && IsOutflow(txnType))
  {
    assert ToUpper("Deposit") == "DEPOSIT" == ToUpper("DEPOSIT");
    assert ToUpper("Transfer In") == "TRANSFER IN" == ToUpper("TRANSFER IN");
    assert ToUpper("WITHDRAWAL") == "WITHDRAWAL";
    assert ToUpper("TRANSFER OUT") == "TRANSFER OUT";
    SameUpperSameMatch(txnType, "DEPOSIT", "Deposit");
    SameUpperSameMatch(txnType, "TRANSFER IN", "Transfer In");
    EqualsIgnoreCaseIffUpper(txnType, "DEPOSIT");
    EqualsIgnoreCaseIffUpper(txnType, "TRANSFER IN");
    EqualsIgnoreCaseIffUpper(txnType, "WITHDRAWAL");
    EqualsIgnoreCaseIffUpper(txnType, "TRANSFER OUT");
  }

  /** The sum of the amounts of the inflow entries. */
  function Inflow(entries: seq<Transaction>): Cents
  {
    if entries == [] then 0
    else
      var t := entries[|entries| - 1];
      Inflow(entries[..|entries| - 1]) + (if IsInflow(t.txnType) then t.amount else 0)
  }

  /** The sum of the amounts of the outflow entries. */
  function Outflow(entries: seq<Transaction>): Cents
  {
    if entries == [] then 0
    else
      var t := entries[|entries| - 1];
      Outflow(entries[..|entries| - 1]) + (if IsOutflow(t.txnType) then t.amount else 0)
  }

  /** The figures under a statement: entries listed, total in, total out. */
  datatype Summary = Summary(count: nat, deposits: Cents, withdrawals: Cents)
  {
    /** "Net Change": what came in less what went out. */
    function Net(): Cents
    {
      deposits - withdrawals
    }
  }

  /** The summary of a list of entries. */
  function Summarize(entries: seq<Transaction>): Summary
  {
    Summary(|entries|, Inflow(entries), Outflow(entries))
  }

  lemma {:induction false} TotalsAppend(a: seq<Transaction>, b: seq<Transaction>)
    ensures Inflow(a + b) == Inflow(a) + Inflow(b)
    ensures Outflow(a + b) == Outflow(a) + Outflow(b)
    decreases |b|
  {
    if b == [] {
      assert a + b == a;
    } else {
      var init := b[..|b| - 1];
      TotalsAppend(a, init);
      assert (a + b)[..|a + b| - 1] == a + init;
    }
  }

  /** The totals do not depend on the order the entries are listed in. */
  lemma {:induction false} TotalsOrderFree(a: seq<Transaction>, b: seq<Transaction>)
    requires multiset(a) == multiset(b)
    ensures Inflow(a) == Inflow(b) && Outflow(a) == Outflow(b)
    decreases |a|
  {
    if a != [] {
      var init, x := a[..|a| - 1], a[|a| - 1];
      assert a == init + [x];
      assert x in multiset(a);
      var k :| 0 <= k < |b| && b[k] == x;
      var rest := b[..k] + b[k + 1..];
      RemoveMatched(a, b, k);
      TotalsOrderFree(init, rest);
      TotalsPick(b, k);
      TotalsStep(init, x);
      TotalsStep(rest, x);
    }
  }

  /** Taking the last entry of `a` and a matching entry of `b` leaves equal multisets. */
  lemma RemoveMatched(a: seq<Transaction>, b: seq<Transaction>, k: nat)
    requires multiset(a) == multiset(b) && a != [] && k < |b| && b[k] == a[|a| - 1]
    ensures multiset(a[..|a| - 1]) == multiset(b[..k] + b[k + 1..])
  {
    var x := b[k];
    assert a == a[..|a| - 1] + [x];
    assert b == b[..k] + [x] + b[k + 1..];
    assert multiset(b) == multiset(b[..k]) + multiset{x} + multiset(b[k + 1..]);
    assert multiset(a) == multiset(a[..|a| - 1]) + multiset{x};
    assert multiset(b[..k] + b[k + 1..]) == multiset(b[..k]) + multiset(b[k + 1..]);
    assert multiset(b[..k] + b[k + 1..]) == multiset(b) - multiset{x};
  }

  /** The totals of `b` are those of `b` with its k-th entry moved to the end. */
  lemma TotalsPick(b: seq<Transaction>, k: nat)
    requires k < |b|
    ensures Inflow(b) == Inflow(b[..k] + b[k + 1..] + [b[k]])
    ensures Outflow(b) == Outflow(b[..k] + b[k + 1..] + [b[k]])
  {
    SplitAround(b, k);
    TotalsMove(b[..k], b[k], b[k + 1..]);
  }

  lemma SplitAround(b: seq<Transaction>, k: nat)
    requires k < |b|
    ensures b == b[..k] + [b[k]] + b[k + 1..]
  {
  }

  /** Moving one entry to the end does not change the totals. */
  lemma TotalsMove(p: seq<Transaction>, x: Transaction, q: seq<Transaction>)
    ensures Inflow(p + [x] + q) == Inflow(p + q + [x])
    ensures Outflow(p + [x] + q) == Outflow(p + q + [x])
  {
    TotalsStep(p, x);
    TotalsAppend(p + [x], q);
    TotalsAppend(p, q);
    TotalsStep(p + q, x);
  }

  /**
   * The loop of generateStatement over the listed entries: every entry is
   * counted; inflows add to the deposits, outflows to the withdrawals and any
   * other type to neither.
   */
  method StatementTotals(entries: seq<Transaction>) returns (s: Summary)
    ensures s == Summarize(entries)
  {
    var totalDeposits, totalWithdrawals := 0, 0;
    var transactionCount := 0;
    var i := 0;
    while i < |entries|
      invariant 0 <= i <= |entries|
      invariant transactionCount == i
      invariant totalDeposits == Inflow(entries[..i]) && totalWithdrawals == Outflow(entries[..i])
    {
      var t := entries[i];
      assert entries[..i + 1][..i] == entries[..i];
      transactionCount := transactionCount + 1;
      if EqualsIgnoreCase(t.txnType, "DEPOSIT") || EqualsIgnoreCase(t.txnType, "TRANSFER IN") {
        totalDeposits := totalDeposits + t.amount;
      } else if EqualsIgnoreCase(t.txnType, "WITHDRAWAL") || EqualsIgnoreCase(t.txnType, "TRANSFER OUT") {
        totalWithdrawals := totalWithdrawals + t.amount;
      }
      InflowIsCredit(t.txnType);
      i := i + 1;
    }
    assert entries[..i] == entries;
    s := Summary(transactionCount, totalDeposits, totalWithdrawals);
  }

  lemma TotalsStep(entries: seq<Transaction>, t: Transaction)
    ensures Inflow(entries + [t]) == Inflow(entries) + (if IsInflow(t.txnType) then t.amount else 0)
    ensures Outflow(entries + [t]) == Outflow(entries) + (if IsOutflow(t.txnType) then t.amount else 0)
  {
    assert (entries + [t])[..|entries|] == entries;
  }

  /**
   * How viewAllTransactionByAccount's four branches fall: the first two are
   * the inflow and outflow tests, and the third and fourth test types the
   * first two have already taken.
   */
  lemma ViewAllBranches(txnType: string)
    ensures (EqualsIgnoreCase(txnType, "DEPOSIT") || EqualsIgnoreCase(txnType, "Transfer In")) <==> IsInflow(txnType)
    ensures (EqualsIgnoreCase(txnType, "WITHDRAWAL") || EqualsIgnoreCase(txnType, "Transfer Out")) <==> IsOutflow(txnType)
    ensures EqualsIgnoreCase(txnType, "TRANSFER OUT") ==> IsOutflow(txnType)
    ensures EqualsIgnoreCase(txnType, "TRANSFER IN") ==> IsInflow(txnType)
    ensures !(IsInflow(txnType) && IsOutflow(txnType))
  {
    assert ToUpper("Transfer In") == "TRANSFER IN" == ToUpper("TRANSFER IN");
    assert ToUpper("Transfer Out") == "TRANSFER OUT" == ToUpper("TRANSFER OUT");
    SameUpperSameMatch(txnType, "Transfer In", "TRANSFER IN");
    SameUpperSameMatch(txnType, "Transfer Out", "TRANSFER OUT");
    InflowIsCredit(txnType);
  }

  /**
   * The totals of viewAllTransactionByAccount: "Transfer In" and "Transfer
   * Out" are caught by the first two branches, so the separate TRANSFER
   * OUT / TRANSFER IN totals can never grow and the net change is deposits
   * less withdrawals. Entries of other accounts are skipped.
   */
  method ViewAllTotals(entries: seq<Transaction>, accountNumber: string)
    returns (s: Summary, transfersOut: Cents, transfersIn: Cents, net: Cents)
    ensures s == Summarize(OfAccount(entries, accountNumber))
    ensures transfersOut == 0 && transfersIn == 0
    ensures net == s.Net()
  {
    var accountDeposits, accountWithdrawals := 0, 0;
    transfersOut, transfersIn := 0, 0;
    var matchedCount := 0;
    var i := 0;
    while i < |entries|
      invariant 0 <= i <= |entries|
      invariant transfersOut == 0 && transfersIn == 0
      invariant matchedCount == |OfAccount(entries[..i], accountNumber)|
      invariant accountDeposits == Inflow(OfAccount(entries[..i], accountNumber))
      invariant accountWithdrawals == Outflow(OfAccount(entries[..i], accountNumber))
    {
      var t := entries[i];
      OfAccountStep(entries, i, accountNumber);
      if EqualsIgnoreCase(t.accountNumber, accountNumber) {
        TotalsStep(OfAccount(entries[..i], accountNumber), t);
        ViewAllBranches(t.txnType);
        matchedCount := matchedCount + 1;
        if EqualsIgnoreCase(t.txnType, "DEPOSIT") || EqualsIgnoreCase(t.txnType, "Transfer In") {
          accountDeposits := accountDeposits + t.amount;
        } else if EqualsIgnoreCase(t.txnType, "WITHDRAWAL") || EqualsIgnoreCase(t.txnType, "Transfer Out") {
          accountWithdrawals := accountWithdrawals + t.amount;
        } else if EqualsIgnoreCase(t.txnType, "TRANSFER OUT") {
          // would add to transfersOut; every such type went to the branch above
          assert false;
        } else if EqualsIgnoreCase(t.txnType, "TRANSFER IN") {
          // would add to transfersIn; every such type went to the first branch
          assert false;
        }
      } else {
        assert OfAccount(entries[..i], accountNumber) + [] == OfAccount(entries[..i], accountNumber);
      }
      i := i + 1;
    }
    assert entries[..i] == entries;
    net := accountDeposits + transfersIn - accountWithdrawals - transfersOut;
    s := Summary(matchedCount, accountDeposits, accountWithdrawals);
  }

  lemma OfAccountStep(entries: seq<Transaction>, i: nat, accountNumber: string)
    requires i < |entries|
    ensures OfAccount(entries[..i + 1], accountNumber) ==
              OfAccount(entries[..i], accountNumber) +
              (if EqualsIgnoreCase(entries[i].accountNumber, accountNumber) then [entries[i]] else [])
  {
    assert entries[..i + 1] == entries[..i] + [entries[i]];
    FilterAppend(entries[..i], [entries[i]], (t: Transaction) => EqualsIgnoreCase(t.accountNumber, accountNumber));
  }

  /**
   * Sorting the ledger does not change which entries an account has, only
   * their order; so a statement's count and totals are those of the
   * account's entries in any order.
   */
  lemma StatementOrderFree(entries: seq<Transaction>, accountNumber: string)
    ensures var sorted := OfAccount(SortBy(entries, NewestFirst), accountNumber);
            multiset(sorted) == multiset(OfAccount(entries, accountNumber)) &&
            SortedBy(sorted, NewestFirst) &&
            Summarize(sorted) == Summarize(OfAccount(entries, accountNumber))
  {
    var p := (t: Transaction) => EqualsIgnoreCase(t.accountNumber, accountNumber);
    var sorted := OfAccount(SortBy(entries, NewestFirst), accountNumber);
    SortByPermutes(entries, NewestFirst);
    FilterSorted(SortBy(entries, NewestFirst), NewestFirst, p);
    forall x ensures multiset(sorted)[x] == multiset(OfAccount(entries, accountNumber))[x] {
      FilterCounts(SortBy(entries, NewestFirst), p, x);
      FilterCounts(entries, p, x);
    }
    assert multiset(sorted) == multiset(OfAccount(entries, accountNumber));
    assert |sorted| == |OfAccount(entries, accountNumber)| by {
      assert |multiset(sorted)| == |multiset(OfAccount(entries, accountNumber))|;
    }
    TotalsOrderFree(sorted, OfAccount(entries, accountNumber));
  }

  /**
   * generateStatement: sorts the ledger most recent first, then, for a
   * registered account, lists its entries (ignoring case) most recent first
   * with their count and totals; an unknown account gives no statement.
   */
  method GenerateStatement(manager: AccountManager, accountNumber: string)
    returns (r: Option<Account>, statement: seq<Transaction>, summary: Summary)
    requires manager.Valid()
    modifies manager.ledger.slots
    ensures manager.ledger.Valid()
    ensures manager.ledger.Entries() == SortBy(old(manager.ledger.Entries()), NewestFirst)
    ensures manager.FindAccount(accountNumber).Err? ==> r == None
    ensures manager.FindAccount(accountNumber).Ok? ==>
              r == Some(manager.FindAccount(accountNumber).value) &&
              statement == OfAccount(manager.ledger.Entries(), accountNumber) &&
              SortedBy(statement, NewestFirst) && summary == Summarize(statement)
  {
    ghost var before := manager.ledger.Entries();
    manager.ledger.SortTransactions();
    var found := manager.FindAccount(accountNumber);
    if found.Err? {
      return None, [], Summary(0, 0, 0);
    }
    var listed := manager.ledger.TransactionsByAccount(accountNumber);
    SortByIdempotent(before, NewestFirst);
    FilterSorted(manager.ledger.Entries(), NewestFirst,
                 (t: Transaction) => EqualsIgnoreCase(t.accountNumber, accountNumber));
    SortBySorted(listed, NewestFirst);
    statement := SortBy(listed, NewestFirst);
    summary := StatementTotals(statement);
    r := Some(found.value);
  }

  /**
   * viewAllTransactionByAccount: the same selection as a statement, without
   * the extra sort, and its own totals; an unknown account prints an error.
   */
  method ViewAllTransactionByAccount(manager: AccountManager, accountNumber: string)
    returns (found: bool, summary: Summary, net: Cents)
    requires manager.Valid()
    modifies manager.ledger.slots
    ensures manager.ledger.Valid()
    ensures manager.ledger.Entries() == SortBy(old(manager.ledger.Entries()), NewestFirst)
    ensures found <==> manager.FindAccount(accountNumber).Ok?
    ensures found ==> summary == Summarize(OfAccount(manager.ledger.Entries(), accountNumber)) &&
                      net == summary.deposits - summary.withdrawals
  {
    ghost var before := manager.ledger.Entries();
    manager.ledger.SortTransactions();
    var account := manager.FindAccount(accountNumber);
    if account.Err? {
      return false, Summary(0, 0, 0), 0;
    }
    var listed := manager.ledger.TransactionsByAccount(accountNumber);
    SortByIdempotent(before, NewestFirst);
    var transfersOut, transfersIn;
    summary, transfersOut, transfersIn, net := ViewAllTotals(listed, accountNumber);
    OfAccountTwice(manager.ledger.Entries(), accountNumber);
    found := true;
  }

  /** Selecting an account's entries twice selects them once. */
  lemma {:induction false} OfAccountTwice(entries: seq<Transaction>, accountNumber: string)
    ensures OfAccount(OfAccount(entries, accountNumber), accountNumber) == OfAccount(entries, accountNumber)
    decreases |entries|
  {
    if entries != [] {
      OfAccountTwice(entries[1..], accountNumber);
      var p := (t: Transaction) => EqualsIgnoreCase(t.accountNumber, accountNumber);
      var head := if p(entries[0]) then [entries[0]] else [];
      FilterAppend(head, Filter(entries[1..], p), p);
    }
  }

  // ------------------------------------------ net change against the balance

  /**
   * Where an entry recorded by processTransaction falls in a statement:
   * an inflow of the amount, which the balance gained, or an outflow, which
   * the balance lost, recorded as the amount or, for a checking
   * "Withdrawal", as its negative.
   */
  lemma ProcessedEntryFlow(kind: AccountKind, balance: Cents, amount: Cents, txnType: string)
    requires ProcessDecision(kind, balance, amount, txnType).Ok?
    requires ProcessDecision(kind, balance, amount, txnType).value.Some?
    ensures var m := ProcessDecision(kind, balance, amount, txnType).value.value;
            if IsInflow(m.entryType) then
              !IsOutflow(m.entryType) && m.newBalance == balance + amount && m.entryAmount == amount
            else
              IsOutflow(m.entryType) && m.newBalance == balance - amount &&
              m.entryAmount == (if kind == Checking && EqualsIgnoreCase(txnType, "Withdrawal") then -amount else amount)
  {
    ProcessEntryAmount(kind, balance, amount, txnType);
    ProcessedEntryTypes(kind, balance, amount, txnType);
    RecordedTypesFlow();
  }

  /** The four types processTransaction records, each with the way it moves the balance. */
  lemma ProcessedEntryTypes(kind: AccountKind, balance: Cents, amount: Cents, txnType: string)
    requires ProcessDecision(kind, balance, amount, txnType).Ok?
    requires ProcessDecision(kind, balance, amount, txnType).value.Some?
    ensures var m := ProcessDecision(kind, balance, amount, txnType).value.value;
            ((m.entryType == "Deposit" || m.entryType == "Transfer In") && m.newBalance == balance + amount) ||
            ((m.entryType == "Withdrawal" || m.entryType == "Transfer Out") && m.newBalance == balance - amount)
  {
  }

  /** Deposits and incoming transfers are inflows only; withdrawals and outgoing transfers outflows only. */
  lemma RecordedTypesFlow()
    ensures IsInflow("Deposit") && !IsOutflow("Deposit")
    ensures IsInflow("Transfer In") && !IsOutflow("Transfer In")
    ensures IsOutflow("Withdrawal") && !IsInflow("Withdrawal")
    ensures IsOutflow("Transfer Out") && !IsInflow("Transfer Out")
  {
    assert ToUpper("Deposit") == "DEPOSIT";
    assert ToUpper("Withdrawal") == "WITHDRAWAL";
    assert ToUpper("Transfer In") == "TRANSFER IN";
    assert ToUpper("Transfer Out") == "TRANSFER OUT";
    EqualsIgnoreCaseIffUpper("Deposit", "DEPOSIT");
    EqualsIgnoreCaseIffUpper("Withdrawal", "WITHDRAWAL");
    EqualsIgnoreCaseIffUpper("Transfer In", "TRANSFER IN");
    EqualsIgnoreCaseIffUpper("Transfer Out", "TRANSFER OUT");
    InflowIsCredit("Withdrawal");
    InflowIsCredit("Transfer Out");
    InflowIsCredit("Deposit");
    InflowIsCredit("Transfer In");
  }

  /**
   * As written: the statement's net change follows the balance for every
   * entry processTransaction records except a checking withdrawal, whose
   * negative amount is subtracted, so the net change rises by the amount
   * the balance lost.
   */
  lemma NetChangeAsWritten(entries: seq<Transaction>, kind: AccountKind, balance: Cents, amount: Cents,
                           txnType: string, t: Transaction)
    requires ProcessDecision(kind, balance, amount, txnType).Ok?
    requires ProcessDecision(kind, balance, amount, txnType).value.Some?
    requires t.txnType == ProcessDecision(kind, balance, amount, txnType).value.value.entryType
    requires t.amount == ProcessDecision(kind, balance, amount, txnType).value.value.entryAmount
    ensures var m := ProcessDecision(kind, balance, amount, txnType).value.value;
            Summarize(entries + [t]).Net() - Summarize(entries).Net() ==
              if kind == Checking && EqualsIgnoreCase(txnType, "Withdrawal") then balance - m.newBalance
              else m.newBalance - balance
  {
    ProcessedEntryFlow(kind, balance, amount, txnType);
    TotalsStep(entries, t);
  }

  /** The sum of the amounts of the outflow entries, each taken without its sign. */
  function OutflowMagnitude(entries: seq<Transaction>): Cents
  {
    if entries == [] then 0
    else
      var t := entries[|entries| - 1];
      OutflowMagnitude(entries[..|entries| - 1]) +
        (if IsOutflow(t.txnType) then (if t.amount < 0 then -t.amount else t.amount) else 0)
  }

  /** The summary with every outflow counted as money leaving the account, whatever sign it was recorded with. */
  function SummarizeBySize(entries: seq<Transaction>): Summary
  {
    Summary(|entries|, Inflow(entries), OutflowMagnitude(entries))
  }

  /**
   * Corrected: counting outflows by their size, the net change moves with
   * the balance for every entry processTransaction records, checking
   * withdrawals included.
   */
  lemma NetChangeFollowsBalance(entries: seq<Transaction>, kind: AccountKind, balance: Cents, amount: Cents,
                                txnType: string, t: Transaction)
    requires ProcessDecision(kind, balance, amount, txnType).Ok?
    requires ProcessDecision(kind, balance, amount, txnType).value.Some?
    requires t.txnType == ProcessDecision(kind, balance, amount, txnType).value.value.entryType
    requires t.amount == ProcessDecision(kind, balance, amount, txnType).value.value.entryAmount
    ensures var m := ProcessDecision(kind, balance, amount, txnType).value.value;
            SummarizeBySize(entries + [t]).Net() - SummarizeBySize(entries).Net() == m.newBalance - balance
  {
    ProcessedEntryFlow(kind, balance, amount, txnType);
    TotalsStep(entries, t);
    assert (entries + [t])[..|entries|] == entries;
  }
}
