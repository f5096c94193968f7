/**
 * Account, CheckingAccount and SavingsAccount as one class with a kind.
 * Every committed deposit or withdrawal first stores the new balance, then
 * builds an entry (advancing the entry counter) and appends it to the shared
 * ledger; a full ledger makes the append fail after the balance has changed.
 */
module Accounts {
  import opened Errors
  import opened Text
  import opened Money
  import opened Clock
  import opened Counters
  import opened Transactions
  import opened Ledger
  import opened Customers

  datatype AccountKind = Savings | Checking

  /** CheckingAccount.overDraftLimit, $1000.00. */
  const OverdraftLimit: Cents := 100000
  /** CheckingAccount.monthlyFee, $10.00. */
  const MonthlyFee: Cents := 1000
  /** SavingsAccount.minimumBalance, $500.00. */
  const MinimumBalance: Cents := 50000
  /** SavingsAccount.interestRate. */
  const InterestRate: real := 0.035

  const TypeBlankMessage: string := "Transaction type cannot be null or empty"
  const MinimumDepositMessage: string := "Initial deposit must be at least $500.0"
  const MinimumBalanceMessage: string := "Withdrawal would violate minimum balance requirement of $500.00"

  /** "ACC" + `%03d` of the account counter. */
  function AccountNumber(n: nat): string
  {
    PrefixedId("ACC", n)
  }

  lemma AccountNumbersDistinct(m: nat, n: nat)
    requires m != n
    ensures AccountNumber(m) != AccountNumber(n)
  {
    if AccountNumber(m) == AccountNumber(n) {
      PrefixedIdInjective("ACC", m, n);
    }
  }

  /** The lowest balance an operation may leave: -$1000 for checking, $500 for savings. */
  function Floor(kind: AccountKind): Cents
  {
    if kind == Savings then MinimumBalance else -OverdraftLimit
  }

  /** What a committed operation does: the balance it stores and the entry it records. */
  datatype Move = Move(newBalance: Cents, entryAmount: Cents, entryType: string)

  // ------------------------------------------------ decisions, per operation

  /**
   * depositWithType: checking returns null for a non-positive amount and does
   * not look at the type; savings refuses both.
   */
  function DepositWithTypeDecision(kind: AccountKind, balance: Cents, amount: Cents, txnType: string)
    : Result<Option<Move>>
  {
    if kind == Checking then
      if amount <= 0 then Ok(None) else Ok(Some(Move(balance + amount, amount, txnType)))
    else
      if amount <= 0 then Err(InvalidAmount(""))
      else if IsBlank(txnType) then Err(IllegalArgument(TypeBlankMessage))
      else Ok(Some(Move(balance + amount, amount, txnType)))
  }

  /** deposit: savings delegates to depositWithType(amount, "Deposit"). */
  function DepositDecision(kind: AccountKind, balance: Cents, amount: Cents): Result<Option<Move>>
  {
    if kind == Checking then
      if amount <= 0 then Err(InvalidAmount("")) else Ok(Some(Move(balance + amount, amount, "Deposit")))
    else DepositWithTypeDecision(Savings, balance, amount, "Deposit")
  }

  /**
   * withdrawWithType: the entry records the amount as a positive number.
   * Checking refuses to go below the overdraft limit; savings refuses a blank
   * type and a result below the minimum balance (the source's console
   * re-prompt is modelled as that refusal).
   */
  function WithdrawWithTypeDecision(kind: AccountKind, balance: Cents, amount: Cents, txnType: string)
    : Result<Option<Move>>
  {
    if kind == Checking then
      if amount <= 0 then Err(InvalidAmount(""))
      else if balance - amount < -OverdraftLimit then Err(OverdraftExceeded(""))
      else Ok(Some(Move(balance - amount, amount, txnType)))
    else
      if amount <= 0 then Err(InvalidAmount(""))
      else if IsBlank(txnType) then Err(IllegalArgument(TypeBlankMessage))
      else if balance - amount < MinimumBalance then Err(InsufficientFunds(""))
      else Ok(Some(Move(balance - amount, amount, txnType)))
  }

  /**
   * withdraw: checking records the amount as a negative number and reports
   * InsufficientFunds past the overdraft; savings checks the minimum balance
   * and then delegates to withdrawWithType(amount, "Withdrawal").
   */
  function WithdrawDecision(kind: AccountKind, balance: Cents, amount: Cents): Result<Option<Move>>
  {
    if kind == Checking then
      if amount <= 0 then Err(InvalidAmount(""))
      else if amount > balance + OverdraftLimit then Err(InsufficientFunds(""))
      else Ok(Some(Move(balance - amount, -amount, "Withdrawal")))
    else
      if amount <= 0 then Err(InvalidAmount(""))
      else if balance - amount < MinimumBalance then Err(InsufficientFunds(MinimumBalanceMessage))
      else WithdrawWithTypeDecision(Savings, balance, amount, "Withdrawal")
  }

  /** Account.processTransaction: amount first, then a blank type, then case-insensitive dispatch. */
  function ProcessDecision(kind: AccountKind, balance: Cents, amount: Cents, txnType: string)
    : Result<Option<Move>>
  {
    if amount <= 0 then Err(InvalidAmount(""))
    else if IsBlank(txnType) then Err(IllegalArgument(TypeBlankMessage))
    else if EqualsIgnoreCase(txnType, "Deposit") then DepositDecision(kind, balance, amount)
    else if EqualsIgnoreCase(txnType, "Withdrawal") then WithdrawDecision(kind, balance, amount)
    else if EqualsIgnoreCase(txnType, "Transfer") then WithdrawWithTypeDecision(kind, balance, amount, "Transfer Out")
    else if EqualsIgnoreCase(txnType, "Receive") then DepositWithTypeDecision(kind, balance, amount, "Transfer In")
    else Err(IllegalArgument("Invalid transaction type: " + txnType))
  }

  /** SavingsAccount.calculateInterest, in cents. */
  function Interest(balance: Cents): real
  {
    InterestRate * (balance as real)
  }

  // ------------------------------------------------ properties of the rules

  /** A withdrawal succeeds exactly when the amount is positive and the result stays at or above the floor. */
  lemma WithdrawSucceedsIff(kind: AccountKind, balance: Cents, amount: Cents)
    ensures WithdrawDecision(kind, balance, amount).Ok? <==> amount > 0 && balance - amount >= Floor(kind)
    ensures WithdrawDecision(kind, balance, amount).Ok? ==>
              WithdrawDecision(kind, balance, amount).value.Some? &&
              WithdrawDecision(kind, balance, amount).value.value.newBalance == balance - amount
  {
  }

  /** A typed withdrawal succeeds exactly when the amount is positive, the type is acceptable and the floor holds. */
  lemma WithdrawWithTypeSucceedsIff(kind: AccountKind, balance: Cents, amount: Cents, txnType: string)
    ensures WithdrawWithTypeDecision(kind, balance, amount, txnType).Ok? <==>
              amount > 0 && (kind == Savings ==> !IsBlank(txnType)) && balance - amount >= Floor(kind)
  {
  }

  /** No operation of processTransaction takes an account that respects its floor below it. */
  lemma ProcessKeepsFloor(kind: AccountKind, balance: Cents, amount: Cents, txnType: string)
    requires balance >= Floor(kind)
    ensures var d := ProcessDecision(kind, balance, amount, txnType);
            d.Ok? && d.value.Some? ==> d.value.value.newBalance >= Floor(kind)
  {
  }

  /** The entry recorded by processTransaction always carries a positive amount, except a checking "Withdrawal". */
  lemma ProcessEntryAmount(kind: AccountKind, balance: Cents, amount: Cents, txnType: string)
    ensures var d := ProcessDecision(kind, balance, amount, txnType);
            d.Ok? && d.value.Some? ==>
              d.value.value.entryAmount == (if kind == Checking && EqualsIgnoreCase(txnType, "Withdrawal") then -amount else amount)
  {
  }

  /** A non-positive amount is refused before the type is looked at. */
  lemma ProcessRejectsNonPositive(kind: AccountKind, balance: Cents, amount: Cents, txnType: string)
    requires amount <= 0
    ensures ProcessDecision(kind, balance, amount, txnType) == Err(InvalidAmount(""))
  {
  }

  /**
   * The sender's leg of a transfer, processTransaction(amount, "Transfer"),
   * with the type dispatch resolved: a typed withdrawal recorded as
   * "Transfer Out" (`SenderDispatch` ties the two).
   */
  function SenderDecision(kind: AccountKind, balance: Cents, amount: Cents): Result<Option<Move>>
  {
    if amount <= 0 then Err(InvalidAmount(""))
    else if balance - amount < Floor(kind) then
      if kind == Checking then Err(OverdraftExceeded("")) else Err(InsufficientFunds(""))
    else Ok(Some(Move(balance - amount, amount, "Transfer Out")))
  }

  /**
   * The receiver's leg of a transfer, processTransaction(amount, "Receive"),
   * with the type dispatch resolved: a typed deposit recorded as
   * "Transfer In" (`ReceiverDispatch` ties the two).
   */
  function ReceiverDecision(kind: AccountKind, balance: Cents, amount: Cents): Result<Option<Move>>
  {
    if amount <= 0 then Err(InvalidAmount(""))
    else Ok(Some(Move(balance + amount, amount, "Transfer In")))
  }

  /** processTransaction(amount, "Transfer") decides what `SenderDecision` does, for every account and amount. */
  lemma SenderDispatch(kind: AccountKind, balance: Cents, amount: Cents)
    ensures ProcessDecision(kind, balance, amount, "Transfer") == SenderDecision(kind, balance, amount)
  {
    assert !IsBlank("Transfer") by { assert TrimStart("Transfer") == "Transfer"; assert TrimEnd("Transfer") == "Transfer"; }
    assert !IsBlank("Transfer Out") by { assert TrimStart("Transfer Out") == "Transfer Out"; assert TrimEnd("Transfer Out") == "Transfer Out"; }
    assert !EqualsIgnoreCase("Transfer", "Deposit");
    assert !EqualsIgnoreCase("Transfer", "Withdrawal");
    assert EqualsIgnoreCase("Transfer", "Transfer");
  }

  /** processTransaction(amount, "Receive") decides what `ReceiverDecision` does, for every account and amount. */
  lemma ReceiverDispatch(kind: AccountKind, balance: Cents, amount: Cents)
    ensures ProcessDecision(kind, balance, amount, "Receive") == ReceiverDecision(kind, balance, amount)
  {
    assert !IsBlank("Receive") by { assert TrimStart("Receive") == "Receive"; assert TrimEnd("Receive") == "Receive"; }
    assert !IsBlank("Transfer In") by { assert TrimStart("Transfer In") == "Transfer In"; assert TrimEnd("Transfer In") == "Transfer In"; }
    assert !EqualsIgnoreCase("Receive", "Deposit") by { assert UpperChar("Receive"[0]) != UpperChar("Deposit"[0]); }
    assert !EqualsIgnoreCase("Receive", "Withdrawal");
    assert !EqualsIgnoreCase("Receive", "Transfer");
    assert EqualsIgnoreCase("Receive", "Receive");
  }

  /**
   * The two legs of a transfer move the same amount: "Transfer" takes `amount`
   * from one balance and "Receive" adds it to the other, so their sum is kept.
   */
  lemma TransferLegsBalance(senderKind: AccountKind, senderBalance: Cents,
                            receiverKind: AccountKind, receiverBalance: Cents, amount: Cents)
    requires ProcessDecision(senderKind, senderBalance, amount, "Transfer").Ok?
    ensures var out := ProcessDecision(senderKind, senderBalance, amount, "Transfer");
            var inn := ProcessDecision(receiverKind, receiverBalance, amount, "Receive");
            out.value.Some? && inn.Ok? && inn.value.Some? &&
            out.value.value.newBalance + inn.value.value.newBalance == senderBalance + receiverBalance &&
            out.value.value.entryType == "Transfer Out" && inn.value.value.entryType == "Transfer In"
  {
    assert !EqualsIgnoreCase("Transfer", "Deposit");
    assert !EqualsIgnoreCase("Transfer", "Withdrawal");
    assert EqualsIgnoreCase("Transfer", "Transfer");
    assert !EqualsIgnoreCase("Receive", "Deposit") by { assert UpperChar("Receive"[0]) != UpperChar("Deposit"[0]); }
    assert !EqualsIgnoreCase("Receive", "Withdrawal");
    assert !EqualsIgnoreCase("Receive", "Transfer");
    assert EqualsIgnoreCase("Receive", "Receive");
    assert !IsBlank("Receive") by { assert TrimStart("Receive") == "Receive"; assert TrimEnd("Receive") == "Receive"; }
    assert !IsBlank("Transfer In") by { assert TrimStart("Transfer In") == "Transfer In"; assert TrimEnd("Transfer In") == "Transfer In"; }
    assert !IsBlank("Transfer Out") by { assert TrimStart("Transfer Out") == "Transfer Out"; assert TrimEnd("Transfer Out") == "Transfer Out"; }
  }

  /** Balance after `rounds` repetitions of deposit(amount) followed by withdraw(amount). */
  function DepositWithdrawRounds(kind: AccountKind, balance: Cents, amount: Cents, rounds: nat): Result<Cents>
    decreases rounds
  {
    if rounds == 0 then Ok(balance)
    else
      match DepositDecision(kind, balance, amount)
      case Ok(Some(d)) =>
        (match WithdrawDecision(kind, d.newBalance, amount)
         case Ok(Some(w)) => DepositWithdrawRounds(kind, w.newBalance, amount, rounds - 1)
         case Ok(None) => Ok(d.newBalance)
         case Err(e) => Err(e))
      case Ok(None) => Ok(balance)
      case Err(e) => Err(e)
  }

  /**
   * Depositing and then withdrawing the same positive amount, any number of
   * times, leaves an account that respects its floor where it started.
   */
  lemma {:induction false} DepositWithdrawRestores(kind: AccountKind, balance: Cents, amount: Cents, rounds: nat)
    requires amount > 0 && balance >= Floor(kind)
    ensures DepositWithdrawRounds(kind, balance, amount, rounds) == Ok(balance)
    decreases rounds
  {
    if rounds > 0 {
      assert !IsBlank("Deposit") by { assert TrimStart("Deposit") == "Deposit"; assert TrimEnd("Deposit") == "Deposit"; }
      assert !IsBlank("Withdrawal") by { assert TrimStart("Withdrawal") == "Withdrawal"; assert TrimEnd("Withdrawal") == "Withdrawal"; }
      assert DepositDecision(kind, balance, amount) == Ok(Some(Move(balance + amount, amount, "Deposit")));
      assert WithdrawDecision(kind, balance + amount, amount).value.value.newBalance == balance;
      DepositWithdrawRestores(kind, balance, amount, rounds - 1);
    }
  }

  /** 3.5% of the balance: $35.00 on $1000.00. */
  lemma InterestOnThousand()
    ensures Interest(100000) == 3500.0
  {
  }

  /** What one account operation amounts to: its outcome, the balance it leaves and the entries it adds. */
  datatype Leg = Leg(result: Result<()>, balance: Cents, recorded: nat)

  /**
   * Carrying out decision `d` on a balance with `free` ledger slots left: a
   * move changes the balance even when the ledger has no room for its entry.
   */
  function RunLeg(d: Result<Option<Move>>, balance: Cents, free: nat): (leg: Leg)
    ensures leg.recorded <= free && leg.recorded <= 1
    ensures leg.recorded == 1 <==> d.Ok? && d.value.Some? && free > 0
    ensures leg.result.Ok? <==> d.Ok? && (d.value.Some? ==> free > 0)
    ensures leg.balance != balance ==> d.Ok? && d.value.Some?
  {
    match d
    case Err(e) => Leg(Err(e), balance, 0)
    case Ok(None) => Leg(Ok(()), balance, 0)
    case Ok(Some(m)) =>
      if free > 0 then Leg(Ok(()), m.newBalance, 1)
      else Leg(Err(IllegalState(StorageFullMessage)), m.newBalance, 0)
  }

  /** The outcome of an operation, without the entry it produced. */
  function Status(r: Result<Option<Transaction>>): Result<()>
  {
    match r
    case Ok(_) => Ok(())
    case Err(e) => Err(e)
  }

  // ------------------------------------------------------------ the account

  class Account {
    const number: string
    const kind: AccountKind
    const customer: Customer
    const ledger: TransactionManager
    const txnIds: Counter
    var balance: Cents
    var status: string

    predicate Valid()
      reads this, ledger
    {
      ledger.Valid()
    }

    /** The balance respects the account's floor. */
    predicate WithinLimits()
      reads this
    {
      balance >= Floor(kind)
    }

    constructor Make(number: string, kind: AccountKind, customer: Customer, ledger: TransactionManager,
                     txnIds: Counter, balance: Cents)
      ensures this.number == number && this.kind == kind && this.customer == customer
      ensures this.ledger == ledger && this.txnIds == txnIds && this.balance == balance
      ensures status == "Active"
    {
      this.number := number;
      this.kind := kind;
      this.customer := customer;
      this.ledger := ledger;
      this.txnIds := txnIds;
      this.balance := balance;
      status := "Active";
    }

    /** Nothing observable has changed. */
    twostate predicate Untouched()
      reads this, ledger, ledger.slots, txnIds
    {
      balance == old(balance) && txnIds.value == old(txnIds.value) &&
      ledger.count == old(ledger.count) && ledger.slots[..] == old(ledger.slots[..])
    }

    /**
     * The effect of carrying out decision `d`: a refusal changes nothing; a
     * move stores the new balance, numbers one entry and appends it when the
     * ledger has room, and otherwise reports the full ledger.
     */
    twostate predicate Performed(d: Result<Option<Move>>, new r: Result<Option<Transaction>>, now: Timestamp)
      requires Valid()
      reads this, ledger, ledger.slots, txnIds
    {
      status == old(status) &&
      match d
      case Err(e) => r == Err(e) && Untouched()
      case Ok(None) => r == Ok(None) && Untouched()
      case Ok(Some(m)) =>
        balance == m.newBalance && txnIds.value == old(txnIds.value) + 1 &&
        var t := Transaction(TxnId(txnIds.value), number, m.entryType, m.entryAmount, m.newBalance, now);
        if old(ledger.count) < MaxTransactions then
          r == Ok(Some(t)) && ledger.count == old(ledger.count) + 1 &&
          ledger.slots[..] == old(ledger.slots[..])[old(ledger.count) := t]
        else
          r == Err(IllegalState(StorageFullMessage)) && ledger.count == old(ledger.count) &&
          ledger.slots[..] == old(ledger.slots[..])
    }

    /** updateBalance: stores exactly the given value and returns it. */
    method UpdateBalance(newBalance: Cents) returns (r: Cents)
      modifies this
      ensures balance == newBalance && r == newBalance && status == old(status)
    {
      balance := newBalance;
      r := balance;
    }

    method SetStatus(status: string)
      modifies this
      ensures this.status == status && balance == old(balance)
    {
      this.status := status;
    }

    /** Stores the move's balance and records its entry. */
    method Commit(m: Move, now: Timestamp) returns (r: Result<Option<Transaction>>)
      requires Valid()
      modifies this, ledger, ledger.slots, txnIds
      ensures Valid()
      ensures Performed(Ok(Some(m)), r, now)
    {
      var stored := UpdateBalance(m.newBalance);
      var t := NewTransaction(txnIds, number, m.entryType, m.entryAmount, stored, now);
      var added := ledger.AddTransaction(Some(t));
      if added.Err? {
        return Err(added.error);
      }
      r := Ok(Some(t));
    }

    method DepositWithType(amount: Cents, txnType: string, now: Timestamp) returns (r: Result<Option<Transaction>>)
      requires Valid()
      modifies this, ledger, ledger.slots, txnIds
      ensures Valid()
      ensures Performed(DepositWithTypeDecision(kind, old(balance), amount, txnType), r, now)
      ensures old(WithinLimits()) ==> WithinLimits()
    {
      var d := DepositWithTypeDecision(kind, balance, amount, txnType);
      match d
      case Err(e) => r := Err(e);
      case Ok(None) => r := Ok(None);
      case Ok(Some(m)) => r := Commit(m, now);
    }

    method Deposit(amount: Cents, now: Timestamp) returns (r: Result<Transaction>)
      requires Valid()
      modifies this, ledger, ledger.slots, txnIds
      ensures Valid()
      ensures Performed(DepositDecision(kind, old(balance), amount), Widen(r), now)
      ensures var leg := RunLeg(DepositDecision(kind, old(balance), amount), old(balance),
                                MaxTransactions - old(ledger.count));
              balance == leg.balance && Status(Widen(r)) == leg.result && ledger.count == old(ledger.count) + leg.recorded
      ensures old(WithinLimits()) ==> WithinLimits()
    {
      if kind == Checking {
        if amount <= 0 {
          return Err(InvalidAmount(""));
        }
        var c := Commit(Move(balance + amount, amount, "Deposit"), now);
        r := Narrow(c);
      } else {
        assert !IsBlank("Deposit") by { assert TrimStart("Deposit") == "Deposit"; assert TrimEnd("Deposit") == "Deposit"; }
        var c := DepositWithType(amount, "Deposit", now);
        r := Narrow(c);
      }
    }

    method WithdrawWithType(amount: Cents, txnType: string, now: Timestamp) returns (r: Result<Option<Transaction>>)
      requires Valid()
      modifies this, ledger, ledger.slots, txnIds
      ensures Valid()
      ensures Performed(WithdrawWithTypeDecision(kind, old(balance), amount, txnType), r, now)
      ensures WithdrawWithTypeDecision(kind, old(balance), amount, txnType).Ok? ==> WithinLimits()
      ensures old(WithinLimits()) ==> WithinLimits()
    {
      var d := WithdrawWithTypeDecision(kind, balance, amount, txnType);
      match d
      case Err(e) => r := Err(e);
      case Ok(None) => r := Ok(None);
      case Ok(Some(m)) => r := Commit(m, now);
    }

    method Withdraw(amount: Cents, now: Timestamp) returns (r: Result<Transaction>)
      requires Valid()
      modifies this, ledger, ledger.slots, txnIds
      ensures Valid()
      ensures Performed(WithdrawDecision(kind, old(balance), amount), Widen(r), now)
      ensures WithdrawDecision(kind, old(balance), amount).Ok? ==> WithinLimits()
      ensures old(WithinLimits()) ==> WithinLimits()
    {
      if amount <= 0 {
        return Err(InvalidAmount(""));
      }
      if kind == Checking {
        if amount > balance + OverdraftLimit {
          return Err(InsufficientFunds(""));
        }
        var c := Commit(Move(balance - amount, -amount, "Withdrawal"), now);
        r := Narrow(c);
      } else {
        if balance - amount < MinimumBalance {
          return Err(InsufficientFunds(MinimumBalanceMessage));
        }
        assert !IsBlank("Withdrawal") by { assert TrimStart("Withdrawal") == "Withdrawal"; assert TrimEnd("Withdrawal") == "Withdrawal"; }
        var c := WithdrawWithType(amount, "Withdrawal", now);
        r := Narrow(c);
      }
    }

    /**
     * processTransaction. Returns the entry the dispatched call produced (the
     * source keeps it in a local and returns nothing).
     */
    method ProcessTransaction(amount: Cents, txnType: string, now: Timestamp) returns (r: Result<Option<Transaction>>)
      requires Valid()
      modifies this, ledger, ledger.slots, txnIds
      ensures Valid()
      ensures Performed(ProcessDecision(kind, old(balance), amount, txnType), r, now)
      ensures var leg := RunLeg(ProcessDecision(kind, old(balance), amount, txnType), old(balance),
                                MaxTransactions - old(ledger.count));
              balance == leg.balance && Status(r) == leg.result && ledger.count == old(ledger.count) + leg.recorded
      ensures old(WithinLimits()) ==> WithinLimits()
    {
      if amount <= 0 {
        return Err(InvalidAmount(""));
      }
      if IsBlank(txnType) {
        return Err(IllegalArgument(TypeBlankMessage));
      }
      if EqualsIgnoreCase(txnType, "Deposit") {
        var t := Deposit(amount, now);
        r := Widen(t);
      } else if EqualsIgnoreCase(txnType, "Withdrawal") {
        var t := Withdraw(amount, now);
        r := Widen(t);
      } else if EqualsIgnoreCase(txnType, "Transfer") {
        r := WithdrawWithType(amount, "Transfer Out", now);
      } else if EqualsIgnoreCase(txnType, "Receive") {
        r := DepositWithType(amount, "Transfer In", now);
      } else {
        r := Err(IllegalArgument("Invalid transaction type: " + txnType));
      }
    }

    /**
     * CheckingAccount.applyMonthlyFee: waived (true, no change) for a premium
     * owner; otherwise the fee is taken only if the overdraft limit still
     * holds afterwards. No entry is recorded either way.
     */
    method ApplyMonthlyFee() returns (applied: bool)
      requires kind == Checking
      modifies this
      ensures customer.kind == Premium ==> applied && balance == old(balance)
      ensures customer.kind == Regular ==> (applied <==> old(balance) - MonthlyFee >= -OverdraftLimit)
      ensures customer.kind == Regular && applied ==> balance == old(balance) - MonthlyFee
      ensures !applied ==> balance == old(balance)
      ensures status == old(status)
      ensures old(WithinLimits()) ==> WithinLimits()
    {
      if customer.kind == Premium && customer.HasWaivedFees() {
        return true;
      }
      if balance - MonthlyFee >= -OverdraftLimit {
        var _ := UpdateBalance(balance - MonthlyFee);
        return true;
      }
      return false;
    }

    /** SavingsAccount.calculateInterest. */
    function CalculateInterest(): (interest: real)
      reads this
      requires kind == Savings
      ensures balance >= MinimumBalance ==> interest >= 1750.0
    {
      Interest(balance)
    }

    /**
     * The CheckingAccount constructor: the account number is taken first, so a
     * refused initial deposit still uses one up; the opening deposit is
     * recorded and a full ledger makes the construction fail.
     */
    static method OpenChecking(customer: Customer, initialDeposit: Cents, accountIds: Counter,
                               ledger: TransactionManager, txnIds: Counter, now: Timestamp)
      returns (r: Result<Account>)
      requires ledger.Valid() && accountIds != txnIds
      modifies accountIds, ledger, ledger.slots, txnIds
      ensures ledger.Valid()
      ensures accountIds.value == old(accountIds.value) + 1
      ensures initialDeposit <= 0 ==> r == Err(InvalidAmount("")) && txnIds.value == old(txnIds.value)
      ensures initialDeposit <= 0 || old(ledger.count) >= MaxTransactions ==>
                ledger.count == old(ledger.count) && ledger.slots[..] == old(ledger.slots[..])
      ensures initialDeposit > 0 ==> txnIds.value == old(txnIds.value) + 1
      ensures initialDeposit > 0 && old(ledger.count) >= MaxTransactions ==> r == Err(IllegalState(StorageFullMessage))
      ensures initialDeposit > 0 && old(ledger.count) < MaxTransactions ==> r.Ok?
      ensures r.Ok? ==> fresh(r.value) && r.value.Valid() && r.value.WithinLimits()
      ensures r.Ok? ==> r.value.number == AccountNumber(accountIds.value) && r.value.kind == Checking
      ensures r.Ok? ==> r.value.customer == customer && r.value.ledger == ledger && r.value.txnIds == txnIds
      ensures r.Ok? ==> r.value.balance == initialDeposit && r.value.status == "Active"
      ensures r.Ok? ==>
                ledger.Entries() == old(ledger.Entries()) +
                  [Transaction(TxnId(txnIds.value), r.value.number, "Deposit", initialDeposit, initialDeposit, now)]
    {
      var n := accountIds.Next();
      if initialDeposit <= 0 {
        return Err(InvalidAmount(""));
      }
      var account := new Account.Make(AccountNumber(n), Checking, customer, ledger, txnIds, initialDeposit);
      var t := NewTransaction(txnIds, account.number, "Deposit", initialDeposit, initialDeposit, now);
      var added := ledger.AddTransaction(Some(t));
      if added.Err? {
        return Err(added.error);
      }
      r := Ok(account);
    }

    /**
     * The SavingsAccount constructor: the deposit is checked before an account
     * number is taken. A full ledger does not stop the construction; the
     * account then exists without its opening entry.
     */
    static method OpenSavings(customer: Customer, initialDeposit: Cents, accountIds: Counter,
                              ledger: TransactionManager, txnIds: Counter, now: Timestamp)
      returns (r: Result<Account>)
      requires ledger.Valid() && accountIds != txnIds
      modifies accountIds, ledger, ledger.slots, txnIds
      ensures ledger.Valid()
      ensures initialDeposit <= 0 ==> r == Err(InvalidAmount(""))
      ensures 0 < initialDeposit < MinimumBalance ==> r == Err(InvalidAmount(MinimumDepositMessage))
      ensures r.Ok? <==> initialDeposit >= MinimumBalance
      ensures r.Err? ==> accountIds.value == old(accountIds.value) && txnIds.value == old(txnIds.value)
      ensures r.Err? || old(ledger.count) >= MaxTransactions ==>
                ledger.count == old(ledger.count) && ledger.slots[..] == old(ledger.slots[..])
      ensures r.Ok? ==> accountIds.value == old(accountIds.value) + 1 && txnIds.value == old(txnIds.value) + 1
      ensures r.Ok? ==> fresh(r.value) && r.value.Valid() && r.value.WithinLimits()
      ensures r.Ok? ==> r.value.number == AccountNumber(accountIds.value) && r.value.kind == Savings
      ensures r.Ok? ==> r.value.customer == customer && r.value.ledger == ledger && r.value.txnIds == txnIds
      ensures r.Ok? ==> r.value.balance == initialDeposit && r.value.status == "Active"
      ensures r.Ok? && old(ledger.count) < MaxTransactions ==>
                ledger.Entries() == old(ledger.Entries()) +
                  [Transaction(TxnId(txnIds.value), r.value.number, "Deposit", initialDeposit, initialDeposit, now)]
    {
      if initialDeposit <= 0 {
        return Err(InvalidAmount(""));
      }
      if initialDeposit < MinimumBalance {
        return Err(InvalidAmount(MinimumDepositMessage));
      }
      var n := accountIds.Next();
      var account := new Account.Make(AccountNumber(n), Savings, customer, ledger, txnIds, initialDeposit);
      var t := NewTransaction(txnIds, account.number, "Deposit", initialDeposit, initialDeposit, now);
      var _ := ledger.AddTransaction(Some(t));
      r := Ok(account);
    }
  }

  /** A Transaction result seen as a possibly-null one. */
  function Widen(r: Result<Transaction>): Result<Option<Transaction>>
  {
    match r
    case Ok(t) => Ok(Some(t))
    case Err(e) => Err(e)
  }

  /** A possibly-null result that is known not to be null. */
  function Narrow(r: Result<Option<Transaction>>): (n: Result<Transaction>)
    requires r.Ok? ==> r.value.Some?
    ensures Widen(n) == r
  {
    match r
    case Ok(t) => Ok(t.value)
    case Err(e) => Err(e)
  }
}
