/**
 * AccountManager: the registry of accounts by number, and the dispatch of
 * deposit, withdrawal and transfer requests onto the accounts.
 * Every account shares one ledger and one entry counter.
 */
module AccountManagement {
  import opened Errors
  import opened Text
  import opened Money
  import opened Clock
  import opened Counters
  import opened Transactions
  import opened Ledger
  import opened Customers
  import opened Accounts
  import opened Requests

  const NullAccountMessage: string := "Account cannot be null"
  const DuplicateAccountMessage: string := "Account already exists in the system"
  const EmptyNumberMessage: string := "Account number cannot be empty"
  const NullAccountRequestMessage: string := "Account request cannot be null"
  const NullRequestMessage: string := "Transaction request cannot be null"
  const ReceiverMessage: string := "Receiver account number is required for transfer"

  // ------------------------------------------------------ sums over balances

  /** Some element of a non-empty set. */
  ghost function Pick(s: set<string>): string
    requires s != {}
  {
    var x :| x in s; x
  }

  /** The sum of the balances filed under `keys`. */
  ghost function SumOver(b: map<string, Cents>, keys: set<string>): int
    requires keys <= b.Keys
    decreases keys
  {
    if keys == {} then 0
    else
      var k := Pick(keys);
      b[k] + SumOver(b, keys - {k})
  }

  /** The sum of all balances in `b`. */
  ghost function Total(b: map<string, Cents>): int
  {
    SumOver(b, b.Keys)
  }

  /** The sum can be taken out at any key. */
  lemma {:induction false} SumOverRemove(b: map<string, Cents>, keys: set<string>, k: string)
    requires keys <= b.Keys && k in keys
    ensures SumOver(b, keys) == b[k] + SumOver(b, keys - {k})
    decreases keys
  {
    var j := Pick(keys);
    if j != k {
      SumOverRemove(b, keys - {j}, k);
      SumOverRemove(b, keys - {k}, j);
      assert keys - {j} - {k} == keys - {k} - {j};
    }
  }

  /** The sum depends only on the balances filed under `keys`. */
  lemma {:induction false} SumOverFrame(b: map<string, Cents>, c: map<string, Cents>, keys: set<string>)
    requires keys <= b.Keys && keys <= c.Keys
    requires forall k | k in keys :: b[k] == c[k]
    ensures SumOver(b, keys) == SumOver(c, keys)
    decreases keys
  {
    if keys != {} {
      SumOverFrame(b, c, keys - {Pick(keys)});
    }
  }

  /** Changing one balance changes the sum by the difference. */
  lemma TotalUpdate(b: map<string, Cents>, k: string, v: Cents)
    requires k in b
    ensures Total(b[k := v]) == Total(b) - b[k] + v
  {
    SumOverRemove(b, b.Keys, k);
    assert b[k := v].Keys == b.Keys;
    SumOverRemove(b[k := v], b.Keys, k);
    SumOverFrame(b, b[k := v], b.Keys - {k});
  }

  // ------------------------------------------------ the dispatch, on values

  /** AccountNotFound as findAccount raises it. */
  function NotFound(accountNumber: string): Error
  {
    if IsBlank(accountNumber) then AccountNotFound(EmptyNumberMessage)
    else AccountNotFound("Account not found: " + accountNumber)
  }

  /** processTransaction rethrows AccountNotFound and InsufficientFunds and wraps anything else. */
  function Surface(e: Error): Error
  {
    if e.AccountNotFound? || e.InsufficientFunds? then e else Runtime(e)
  }

  function Surfaced(r: Result<()>): Result<()>
  {
    match r
    case Ok(u) => Ok(u)
    case Err(e) => Err(Surface(e))
  }

  /** The outcome of a request: what it reports, the balances it leaves and how many entries it adds. */
  datatype Effect = Effect(result: Result<()>, balances: map<string, Cents>, recorded: nat)

  /**
   * A transfer of `amount` from `user` to `receiver`: the receiver is checked
   * first, then the sender's "Transfer" leg, then the receiver's "Receive"
   * leg; when that fails the sender is refunded with a plain deposit.
   */
  function Transfer(kinds: map<string, AccountKind>, balances: map<string, Cents>, free: nat,
                    user: string, receiver: string, amount: Cents): (e: Effect)
    requires kinds.Keys == balances.Keys && user in balances
    ensures e.balances.Keys == balances.Keys && e.recorded <= free
  {
    if IsBlank(receiver) then Effect(Err(Runtime(IllegalArgument(ReceiverMessage))), balances, 0)
    else if receiver !in balances then Effect(Err(NotFound(receiver)), balances, 0)
    else Send(kinds, balances, free, user, receiver, amount)
  }

  /**
   * A transfer between two filed accounts: the sender's "Transfer" leg and,
   * when it passes, `Settle`.
   */
  function Send(kinds: map<string, AccountKind>, balances: map<string, Cents>, free: nat,
                user: string, receiver: string, amount: Cents): (e: Effect)
    requires kinds.Keys == balances.Keys && user in balances && receiver in balances
    ensures e.balances.Keys == balances.Keys && e.recorded <= free
  {
    var out := RunLeg(SenderDecision(kinds[user], balances[user], amount), balances[user], free);
    var b1 := balances[user := out.balance];
    if out.result.Err? then Effect(Surfaced(out.result), b1, out.recorded)
    else
      var credit := Settle(kinds, b1, free - out.recorded, user, receiver, amount);
      Effect(credit.result, credit.balances, out.recorded + credit.recorded)
  }

  /**
   * The rest of a transfer once the sender's leg has passed: the receiver's
   * "Receive" leg; when that fails the sender is refunded with a plain
   * deposit and the request fails with the receiver's reason.
   */
  function Settle(kinds: map<string, AccountKind>, balances: map<string, Cents>, free: nat,
                  user: string, receiver: string, amount: Cents): (e: Effect)
    requires kinds.Keys == balances.Keys && user in balances && receiver in balances
    ensures e.balances.Keys == balances.Keys && e.recorded <= free
  {
    var inn := RunLeg(ReceiverDecision(kinds[receiver], balances[receiver], amount), balances[receiver], free);
    var b2 := balances[receiver := inn.balance];
    if inn.result.Ok? then Effect(Ok(()), b2, inn.recorded)
    else
      var refund := Refund(kinds, b2, free - inn.recorded, user, amount, inn.result.error.Message());
      Effect(refund.result, refund.balances, inn.recorded + refund.recorded)
  }

  /**
   * The refund after a failed receiver leg: a plain deposit of the amount
   * back to the sender; the request fails with the receiver's reason, or
   * with the refund's own error when that fails too.
   */
  function Refund(kinds: map<string, AccountKind>, balances: map<string, Cents>, free: nat,
                  user: string, amount: Cents, reason: string): (e: Effect)
    requires kinds.Keys == balances.Keys && user in balances
    ensures e.balances.Keys == balances.Keys && e.recorded <= free && e.result.Err?
  {
    var leg := RunLeg(DepositDecision(kinds[user], balances[user], amount), balances[user], free);
    Effect(Err(if leg.result.Err? then Surface(leg.result.error) else InsufficientFunds("Transfer failed: " + reason)),
           balances[user := leg.balance], leg.recorded)
  }

  /** The cases of processTransaction's switch on the request type. */
  datatype RequestKind = DepositRequest | WithdrawalRequest | TransferRequest | UnknownRequest

  /** The case an upper-cased request type selects; any other spelling is unknown. */
  function KindOf(transactionType: string): RequestKind
  {
    var t := ToUpper(transactionType);
    if t == "DEPOSIT" then DepositRequest
    else if t == "WITHDRAWAL" then WithdrawalRequest
    else if t == "TRANSFER" then TransferRequest
    else UnknownRequest
  }

  /**
   * AccountManager.processTransaction on the balances of the registered
   * accounts, with `free` ledger slots left. The type is matched after
   * upper-casing.
   */
  function Step(kinds: map<string, AccountKind>, balances: map<string, Cents>, free: nat,
                req: TransactionRequest): (e: Effect)
    requires kinds.Keys == balances.Keys
    ensures e.balances.Keys == balances.Keys && e.recorded <= free
  {
    var user := req.userAccountNumber;
    var kind := KindOf(req.transactionType);
    if IsBlank(user) || user !in balances then Effect(Err(NotFound(user)), balances, 0)
    else if kind.DepositRequest? || kind.WithdrawalRequest? then
      var leg := RunLeg(ProcessDecision(kinds[user], balances[user], req.amount,
                                        if kind.DepositRequest? then "Deposit" else "Withdrawal"),
                        balances[user], free);
      Effect(Surfaced(leg.result), balances[user := leg.balance], leg.recorded)
    else if kind.TransferRequest? then
      Transfer(kinds, balances, free, user, req.receiverAccountNumber, req.amount)
    else Effect(Err(Runtime(IllegalArgument("Invalid transaction type: " + req.transactionType))), balances, 0)
  }

  // ---------------------------------------------------- what the dispatch does

  /** The refund deposit of a positive amount is always a move of +amount. */
  lemma RefundLeg(kind: AccountKind, balance: Cents, amount: Cents)
    requires amount > 0
    ensures DepositDecision(kind, balance, amount) == Ok(Some(Move(balance + amount, amount, "Deposit")))
  {
    assert !IsBlank("Deposit") by { assert TrimStart("Deposit") == "Deposit"; assert TrimEnd("Deposit") == "Deposit"; }
  }

  /**
   * With at least two free ledger slots a transfer either succeeds, moving
   * `amount` from sender to receiver and keeping the total, or changes nothing.
   */
  lemma TransferWithRoom(kinds: map<string, AccountKind>, balances: map<string, Cents>, free: nat,
                         user: string, receiver: string, amount: Cents)
    requires kinds.Keys == balances.Keys && user in balances && free >= 2
    ensures var e := Transfer(kinds, balances, free, user, receiver, amount);
            (e.result.Ok? <==> !IsBlank(receiver) && receiver in balances &&
                               amount > 0 && balances[user] - amount >= Floor(kinds[user])) &&
            (e.result.Ok? ==> e.recorded == 2 && Total(e.balances) == Total(balances) &&
                              (user != receiver ==> e.balances == balances[user := balances[user] - amount]
                                                                         [receiver := balances[receiver] + amount])) &&
            (e.result.Err? ==> e.recorded == 0 && e.balances == balances)
  {
    var e := Transfer(kinds, balances, free, user, receiver, amount);
    if !IsBlank(receiver) && receiver in balances {
      if amount > 0 && balances[user] - amount >= Floor(kinds[user]) {
        var b1 := balances[user := balances[user] - amount];
        var b2 := b1[receiver := b1[receiver] + amount];
        assert e.balances == b2;
        TotalUpdate(balances, user, balances[user] - amount);
        TotalUpdate(b1, receiver, b1[receiver] + amount);
      } else {
        assert balances[user := balances[user]] == balances;
      }
    }
  }

  /** On a full ledger the refund still credits the sender, records nothing and fails with IllegalState. */
  lemma RefundOnFullLedger(kinds: map<string, AccountKind>, balances: map<string, Cents>,
                           user: string, amount: Cents, reason: string)
    requires kinds.Keys == balances.Keys && user in balances && amount > 0
    ensures Refund(kinds, balances, 0, user, amount, reason) ==
              Effect(Err(Runtime(IllegalState(StorageFullMessage))), balances[user := balances[user] + amount], 0)
  {
    RefundLeg(kinds[user], balances[user], amount);
  }

  /**
   * With no free slot the receiver is credited without an entry, and the
   * refund restores the sender without an entry.
   */
  lemma SettleOnFullLedger(kinds: map<string, AccountKind>, balances: map<string, Cents>,
                           user: string, receiver: string, amount: Cents)
    requires kinds.Keys == balances.Keys && user in balances && receiver in balances && user != receiver
    requires amount > 0
    ensures Settle(kinds, balances, 0, user, receiver, amount) ==
              Effect(Err(Runtime(IllegalState(StorageFullMessage))),
                     balances[receiver := balances[receiver] + amount][user := balances[user] + amount], 0)
  {
    var b2 := balances[receiver := balances[receiver] + amount];
    RefundOnFullLedger(kinds, b2, user, amount, IllegalState(StorageFullMessage).Message());
  }

  /**
   * A transfer between two accounts with exactly one free slot: the sender's
   * entry takes it, the receiver is credited without an entry, and the
   * refund restores the sender without an entry.
   */
  lemma SendWithOneSlot(kinds: map<string, AccountKind>, balances: map<string, Cents>,
                        user: string, receiver: string, amount: Cents)
    requires kinds.Keys == balances.Keys && user in balances && receiver in balances && user != receiver
    requires amount > 0 && balances[user] - amount >= Floor(kinds[user])
    ensures Send(kinds, balances, 1, user, receiver, amount) ==
              Effect(Err(Runtime(IllegalState(StorageFullMessage))), balances[receiver := balances[receiver] + amount], 1)
  {
    RefundRestores(balances, user, receiver, amount);
    SettleOnFullLedger(kinds, balances[user := balances[user] - amount], user, receiver, amount);
    SendPassed(kinds, balances, 1, user, receiver, amount);
  }

  /** When the sender's rule allows the amount and a slot is free, the sender's leg records an entry and `Settle` follows. */
  lemma SendPassed(kinds: map<string, AccountKind>, balances: map<string, Cents>, free: nat,
                   user: string, receiver: string, amount: Cents)
    requires kinds.Keys == balances.Keys && user in balances && receiver in balances
    requires amount > 0 && balances[user] - amount >= Floor(kinds[user]) && free >= 1
    ensures var settled := Settle(kinds, balances[user := balances[user] - amount], free - 1, user, receiver, amount);
            Send(kinds, balances, free, user, receiver, amount) ==
              Effect(settled.result, settled.balances, 1 + settled.recorded)
  {
  }

  /** When the receiver's leg fails it records nothing, and `Settle` is the refund on the balances it leaves. */
  lemma SettleFailed(kinds: map<string, AccountKind>, balances: map<string, Cents>, free: nat,
                     user: string, receiver: string, amount: Cents)
    requires kinds.Keys == balances.Keys && user in balances && receiver in balances
    requires RunLeg(ReceiverDecision(kinds[receiver], balances[receiver], amount), balances[receiver], free).result.Err?
    ensures var inn := RunLeg(ReceiverDecision(kinds[receiver], balances[receiver], amount), balances[receiver], free);
            inn.recorded == 0 &&
            Settle(kinds, balances, free, user, receiver, amount) ==
              Refund(kinds, balances[receiver := inn.balance], free, user, amount, inn.result.error.Message())
  {
  }

  /** Debiting the sender, crediting the receiver and refunding the sender leaves only the credit. */
  lemma RefundRestores(b: map<string, Cents>, user: string, receiver: string, amount: Cents)
    requires user in b && receiver in b && user != receiver
    ensures var b1 := b[user := b[user] - amount];
            b1[receiver := b1[receiver] + amount][user := b1[user] + amount] == b[receiver := b[receiver] + amount]
  {
  }

  /**
   * With exactly one free slot a transfer that passes the sender's rule
   * fails with IllegalState and records one entry, yet the receiver keeps
   * the credit and the sender gets the refund.
   */
  lemma TransferWithOneSlot(kinds: map<string, AccountKind>, balances: map<string, Cents>,
                            user: string, receiver: string, amount: Cents)
    requires kinds.Keys == balances.Keys && user in balances && receiver in balances && user != receiver
    requires !IsBlank(receiver) && amount > 0 && balances[user] - amount >= Floor(kinds[user])
    ensures Transfer(kinds, balances, 1, user, receiver, amount) ==
              Effect(Err(Runtime(IllegalState(StorageFullMessage))), balances[receiver := balances[receiver] + amount], 1)
  {
    SendWithOneSlot(kinds, balances, user, receiver, amount);
  }

  /** So the failed transfer of the previous lemma grows the total by `amount`. */
  lemma TransferWithOneSlotCreatesMoney(kinds: map<string, AccountKind>, balances: map<string, Cents>,
                                        user: string, receiver: string, amount: Cents)
    requires kinds.Keys == balances.Keys && user in balances && receiver in balances && user != receiver
    requires !IsBlank(receiver) && amount > 0 && balances[user] - amount >= Floor(kinds[user])
    ensures Total(Transfer(kinds, balances, 1, user, receiver, amount).balances) == Total(balances) + amount
  {
    TotalUpdate(balances, receiver, balances[receiver] + amount);
    TransferWithOneSlot(kinds, balances, user, receiver, amount);
  }

  /**
   * With no free slot the sender's leg stores the debited balance before
   * its entry is refused, and nothing refunds it: the transfer fails with
   * IllegalState, records nothing and leaves the sender debited.
   */
  lemma TransferOnFullLedger(kinds: map<string, AccountKind>, balances: map<string, Cents>,
                             user: string, receiver: string, amount: Cents)
    requires kinds.Keys == balances.Keys && user in balances && receiver in balances
    requires !IsBlank(receiver) && amount > 0 && balances[user] - amount >= Floor(kinds[user])
    ensures Transfer(kinds, balances, 0, user, receiver, amount) ==
              Effect(Err(Runtime(IllegalState(StorageFullMessage))), balances[user := balances[user] - amount], 0)
  {
    var out := RunLeg(SenderDecision(kinds[user], balances[user], amount), balances[user], 0);
    assert out == Leg(Err(IllegalState(StorageFullMessage)), balances[user] - amount, 0);
  }

  /** So the failed transfer of the previous lemma shrinks the total by `amount`. */
  lemma TransferOnFullLedgerLosesMoney(kinds: map<string, AccountKind>, balances: map<string, Cents>,
                                       user: string, receiver: string, amount: Cents)
    requires kinds.Keys == balances.Keys && user in balances && receiver in balances
    requires !IsBlank(receiver) && amount > 0 && balances[user] - amount >= Floor(kinds[user])
    ensures Total(Transfer(kinds, balances, 0, user, receiver, amount).balances) == Total(balances) - amount
  {
    TotalUpdate(balances, user, balances[user] - amount);
    TransferOnFullLedger(kinds, balances, user, receiver, amount);
  }

  /**
   * A transfer that cannot leave half of itself behind: refused, with
   * nothing changed, unless the ledger has room for both of its entries.
   */
  function GuardedTransfer(kinds: map<string, AccountKind>, balances: map<string, Cents>, free: nat,
                           user: string, receiver: string, amount: Cents): (e: Effect)
    requires kinds.Keys == balances.Keys && user in balances
    ensures e.balances.Keys == balances.Keys && e.recorded <= free
  {
    if free < 2 then Effect(Err(Runtime(IllegalState(StorageFullMessage))), balances, 0)
    else Transfer(kinds, balances, free, user, receiver, amount)
  }

  /**
   * The guarded transfer never changes the total: it either moves `amount`
   * and records both entries, or fails having changed and recorded nothing.
   */
  lemma GuardedTransferConserves(kinds: map<string, AccountKind>, balances: map<string, Cents>, free: nat,
                                 user: string, receiver: string, amount: Cents)
    requires kinds.Keys == balances.Keys && user in balances
    ensures var e := GuardedTransfer(kinds, balances, free, user, receiver, amount);
            Total(e.balances) == Total(balances) &&
            (e.result.Ok? ==> e.recorded == 2) &&
            (e.result.Err? ==> e.balances == balances && e.recorded == 0)
  {
    if free >= 2 {
      TransferWithRoom(kinds, balances, free, user, receiver, amount);
    }
  }

  /** A deposit or withdrawal request that succeeds changes the total by exactly the amount. */
  lemma SingleAccountStep(kinds: map<string, AccountKind>, balances: map<string, Cents>, free: nat,
                          req: TransactionRequest)
    requires kinds.Keys == balances.Keys
    requires KindOf(req.transactionType).DepositRequest? || KindOf(req.transactionType).WithdrawalRequest?
    ensures var e := Step(kinds, balances, free, req);
            e.result.Ok? ==>
              e.recorded == 1 &&
              Total(e.balances) == Total(balances) +
                (if KindOf(req.transactionType).DepositRequest? then req.amount else -req.amount)
  {
    var e := Step(kinds, balances, free, req);
    var user := req.userAccountNumber;
    if e.result.Ok? {
      assert !IsBlank("Deposit") by { assert TrimStart("Deposit") == "Deposit"; assert TrimEnd("Deposit") == "Deposit"; }
      assert !IsBlank("Withdrawal") by { assert TrimStart("Withdrawal") == "Withdrawal"; assert TrimEnd("Withdrawal") == "Withdrawal"; }
      assert EqualsIgnoreCase("Deposit", "Deposit");
      assert !EqualsIgnoreCase("Withdrawal", "Deposit");
      assert EqualsIgnoreCase("Withdrawal", "Withdrawal");
      TotalUpdate(balances, user, e.balances[user]);
    }
  }

  /** A deposit or withdrawal request for a filed account is that one leg. */
  lemma StepOneLeg(kinds: map<string, AccountKind>, balances: map<string, Cents>, free: nat, req: TransactionRequest)
    requires kinds.Keys == balances.Keys
    requires !IsBlank(req.userAccountNumber) && req.userAccountNumber in balances
    requires KindOf(req.transactionType).DepositRequest? || KindOf(req.transactionType).WithdrawalRequest?
    ensures var u := req.userAccountNumber;
            var leg := RunLeg(ProcessDecision(kinds[u], balances[u], req.amount,
                                              if KindOf(req.transactionType).DepositRequest? then "Deposit" else "Withdrawal"),
                              balances[u], free);
            Step(kinds, balances, free, req) == Effect(Surfaced(leg.result), balances[u := leg.balance], leg.recorded)
  {
  }

  /** A transfer request from a filed account is `Transfer`. */
  lemma StepTransfer(kinds: map<string, AccountKind>, balances: map<string, Cents>, free: nat, req: TransactionRequest)
    requires kinds.Keys == balances.Keys
    requires !IsBlank(req.userAccountNumber) && req.userAccountNumber in balances
    requires KindOf(req.transactionType).TransferRequest?
    ensures Step(kinds, balances, free, req) ==
              Transfer(kinds, balances, free, req.userAccountNumber, req.receiverAccountNumber, req.amount)
  {
  }

  /** A transfer to a filed receiver is `Send`. */
  lemma TransferToFiled(kinds: map<string, AccountKind>, balances: map<string, Cents>, free: nat,
                        user: string, receiver: string, amount: Cents)
    requires kinds.Keys == balances.Keys && user in balances
    requires !IsBlank(receiver) && receiver in balances
    ensures Transfer(kinds, balances, free, user, receiver, amount) == Send(kinds, balances, free, user, receiver, amount)
  {
  }

  /** What `Transfer` gives for a transfer request from a filed account is what `Step` gives. */
  lemma TransferAsStep(kinds: map<string, AccountKind>, balances: map<string, Cents>, free: nat, req: TransactionRequest,
                       r: Result<()>, after: map<string, Cents>, recorded: nat)
    requires kinds.Keys == balances.Keys
    requires !IsBlank(req.userAccountNumber) && req.userAccountNumber in balances
    requires KindOf(req.transactionType).TransferRequest?
    requires var e := Transfer(kinds, balances, free, req.userAccountNumber, req.receiverAccountNumber, req.amount);
             r == e.result && after == e.balances && recorded == e.recorded
    ensures var e := Step(kinds, balances, free, req);
            r == e.result && after == e.balances && recorded == e.recorded
  {
    StepTransfer(kinds, balances, free, req);
  }

  /** A request that fails before touching an account (unknown account, unknown type) changes nothing. */
  lemma RejectedRequestChangesNothing(kinds: map<string, AccountKind>, balances: map<string, Cents>, free: nat,
                                      req: TransactionRequest)
    requires kinds.Keys == balances.Keys
    requires IsBlank(req.userAccountNumber) || req.userAccountNumber !in balances ||
             KindOf(req.transactionType).UnknownRequest?
    ensures var e := Step(kinds, balances, free, req);
            e.result.Err? && e.balances == balances && e.recorded == 0
  {
  }

  // ------------------------------------------------ the entries a leg adds

  /** Whether decision `d` moves a balance, and so takes an entry number. */
  function Moves(d: Result<Option<Move>>): nat
  {
    if d.Ok? && d.value.Some? then 1 else 0
  }

  /** The entry a leg appends: its move's entry, numbered `id`, when a slot is free. */
  function LegEntries(d: Result<Option<Move>>, free: nat, number: string, id: nat, now: Timestamp): (s: seq<Transaction>)
    ensures |s| == Moves(d) * (if free > 0 then 1 else 0)
  {
    if d.Ok? && d.value.Some? && free > 0 then
      var m := d.value.value;
      [Transaction(TxnId(id), number, m.entryType, m.entryAmount, m.newBalance, now)]
    else []
  }

  /**
   * Slots `s1` holding `c1` entries extend slots `s0` holding `c0`: the first
   * `c0` are kept and `added` follows them.
   */
  predicate Grew(s0: seq<Transaction>, c0: nat, s1: seq<Transaction>, c1: nat, added: seq<Transaction>)
  {
    c0 <= |s0| && |s1| == |s0| && c1 == c0 + |added| && c1 <= |s1| &&
    s1[..c0] == s0[..c0] && s1[c0..c1] == added
  }

  /** Slots `s1` holding `c1` entries keep the first `c0` entries of `s0`. */
  predicate Keeps(s0: seq<Transaction>, c0: nat, s1: seq<Transaction>, c1: nat)
  {
    c0 <= c1 <= |s1| && c0 <= |s0| && s1[..c0] == s0[..c0]
  }

  lemma {:induction false} GrewChain(s0: seq<Transaction>, c0: nat, s1: seq<Transaction>, c1: nat,
                                     s2: seq<Transaction>, c2: nat, a: seq<Transaction>, b: seq<Transaction>)
    requires Grew(s0, c0, s1, c1, a) && Grew(s1, c1, s2, c2, b)
    ensures Grew(s0, c0, s2, c2, a + b)
  {
    assert s2[..c0] == s2[..c1][..c0];
    assert s2[c0..c2] == s2[c0..c1] + s2[c1..c2];
    assert s2[c0..c1] == s2[..c1][c0..c1];
    assert s1[c0..c1] == s1[..c1][c0..c1];
  }

  lemma {:induction false} GrewThenKeeps(s0: seq<Transaction>, c0: nat, s1: seq<Transaction>, c1: nat,
                                         s2: seq<Transaction>, c2: nat, a: seq<Transaction>)
    requires Grew(s0, c0, s1, c1, a) && Keeps(s1, c1, s2, c2)
    ensures Keeps(s0, c0, s2, c2) && s2[c0..c1] == a
  {
    assert s2[..c0] == s2[..c1][..c0];
    assert s2[c0..c1] == s2[..c1][c0..c1];
    assert s1[c0..c1] == s1[..c1][c0..c1];
  }

  lemma {:induction false} GrewKeeps(s0: seq<Transaction>, c0: nat, s1: seq<Transaction>, c1: nat, a: seq<Transaction>)
    requires Grew(s0, c0, s1, c1, a)
    ensures Keeps(s0, c0, s1, c1)
  {
  }

  /** Growth seen as the filled prefixes: the old entries followed by `added`. */
  lemma {:induction false} GrewEntries(s0: seq<Transaction>, c0: nat, s1: seq<Transaction>, c1: nat, a: seq<Transaction>)
    requires Grew(s0, c0, s1, c1, a)
    ensures s1[..c1] == s0[..c0] + a
  {
    assert s1[..c1] == s1[..c0] + s1[c0..c1];
  }

  lemma {:induction false} KeepsEntries(s0: seq<Transaction>, c0: nat, s1: seq<Transaction>, c1: nat)
    requires Keeps(s0, c0, s1, c1)
    ensures s1[..c1][..c0] == s0[..c0]
  {
    assert s1[..c1][..c0] == s1[..c0];
  }

  /** The entries of a transfer's two legs, read back as ledger prefixes. */
  lemma {:induction false} SendEntries(s0: seq<Transaction>, c0: nat, s1: seq<Transaction>, c1: nat,
                                       out: Transaction, inn: Transaction, ok: bool)
    requires Keeps(s0, c0, s1, c1) && (c1 > c0 ==> s1[c0] == out)
    requires ok ==> Grew(s0, c0, s1, c1, [out, inn])
    ensures s1[..c1][..c0] == s0[..c0]
    ensures c1 > c0 ==> s1[..c1][c0] == out
    ensures ok ==> s1[..c1] == s0[..c0] + [out, inn]
  {
    KeepsEntries(s0, c0, s1, c1);
    if ok {
      GrewEntries(s0, c0, s1, c1, [out, inn]);
    }
  }

  /** The deposit and withdrawal branches of processTransaction record their own type, with a checking withdrawal as -amount. */
  lemma DepositWithdrawalMoves(kind: AccountKind, balance: Cents, amount: Cents)
    ensures var d := ProcessDecision(kind, balance, amount, "Deposit");
            d.Ok? ==> d == Ok(Some(Move(balance + amount, amount, "Deposit")))
    ensures var d := ProcessDecision(kind, balance, amount, "Withdrawal");
            d.Ok? ==> d == Ok(Some(Move(balance - amount, if kind == Checking then -amount else amount, "Withdrawal")))
  {
    assert !IsBlank("Deposit") by { assert TrimStart("Deposit") == "Deposit"; assert TrimEnd("Deposit") == "Deposit"; }
    assert !IsBlank("Withdrawal") by { assert TrimStart("Withdrawal") == "Withdrawal"; assert TrimEnd("Withdrawal") == "Withdrawal"; }
    assert EqualsIgnoreCase("Deposit", "Deposit");
    assert !EqualsIgnoreCase("Withdrawal", "Deposit");
    assert EqualsIgnoreCase("Withdrawal", "Withdrawal");
  }

  // --------------------------------------------------------- the registry

  class AccountManager {
    var accounts: map<string, Account>
    var accountCount: int
    /** Numbers of accounts created in this run, as opposed to loaded from file. */
    var newlyCreated: set<string>
    const ledger: TransactionManager
    const txnIds: Counter
    const accountIds: Counter
    const customerIds: Counter

    /** Every account is filed under its own number and shares the registry's ledger and entry counter. */
    predicate Valid()
      reads this, ledger, accounts.Values
    {
      ledger.Valid() && accountIds != txnIds && customerIds != accountIds && customerIds != txnIds &&
      forall n | n in accounts :: accounts[n].number == n && accounts[n].ledger == ledger && accounts[n].txnIds == txnIds
    }

    function Balances(): (b: map<string, Cents>)
      reads this, accounts.Values
      ensures b.Keys == accounts.Keys
    {
      map n | n in accounts :: accounts[n].balance
    }

    function Kinds(): (k: map<string, AccountKind>)
      reads this
      ensures k.Keys == accounts.Keys
    {
      map n | n in accounts :: accounts[n].kind
    }

    constructor(ledger: TransactionManager, txnIds: Counter, accountIds: Counter, customerIds: Counter)
      requires ledger.Valid() && accountIds != txnIds && customerIds != accountIds && customerIds != txnIds
      ensures Valid() && accounts == map[] && accountCount == 0 && newlyCreated == {}
      ensures this.ledger == ledger && this.txnIds == txnIds
      ensures this.accountIds == accountIds && this.customerIds == customerIds
    {
      accounts := map[];
      accountCount := 0;
      newlyCreated := {};
      this.ledger := ledger;
      this.txnIds := txnIds;
      this.accountIds := accountIds;
      this.customerIds := customerIds;
    }

    /** addAccount: refuses null and a number already present; otherwise files, counts and marks the account. */
    method AddAccount(account: Account?) returns (r: Result<bool>)
      requires Valid()
      requires account != null ==> account.ledger == ledger && account.txnIds == txnIds
      modifies this
      ensures Valid()
      ensures account == null ==> r == Err(IllegalArgument(NullAccountMessage))
      ensures account != null && account.number in old(accounts) ==> r == Err(IllegalArgument(DuplicateAccountMessage))
      ensures r.Err? ==> accounts == old(accounts) && accountCount == old(accountCount) && newlyCreated == old(newlyCreated)
      ensures account != null && account.number !in old(accounts) ==>
                r == Ok(true) && accounts == old(accounts)[account.number := account] &&
                accountCount == old(accountCount) + 1 && newlyCreated == old(newlyCreated) + {account.number}
    {
      if account == null {
        return Err(IllegalArgument(NullAccountMessage));
      }
      if account.number in accounts {
        return Err(IllegalArgument(DuplicateAccountMessage));
      }
      accounts := accounts[account.number := account];
      accountCount := accountCount + 1;
      newlyCreated := newlyCreated + {account.number};
      r := Ok(true);
    }

    /** addAccountFromFile: a duplicate is skipped with false; a new account is filed and counted but not marked. */
    method AddAccountFromFile(account: Account?) returns (r: Result<bool>)
      requires Valid()
      requires account != null ==> account.ledger == ledger && account.txnIds == txnIds
      modifies this
      ensures Valid()
      ensures newlyCreated == old(newlyCreated)
      ensures account == null ==> r == Err(IllegalArgument(NullAccountMessage))
      ensures account != null && account.number in old(accounts) ==> r == Ok(false)
      ensures r != Ok(true) ==> accounts == old(accounts) && accountCount == old(accountCount)
      ensures account != null && account.number !in old(accounts) ==>
                r == Ok(true) && accounts == old(accounts)[account.number := account] &&
                accountCount == old(accountCount) + 1
    {
      if account == null {
        return Err(IllegalArgument(NullAccountMessage));
      }
      if account.number in accounts {
        return Ok(false);
      }
      accounts := accounts[account.number := account];
      accountCount := accountCount + 1;
      r := Ok(true);
    }

    /** findAccount: a blank or unknown number is AccountNotFound; otherwise the account filed under it. */
    function FindAccount(accountNumber: string): (r: Result<Account>)
      reads this, ledger, accounts.Values
      requires Valid()
      ensures r.Ok? <==> !IsBlank(accountNumber) && accountNumber in accounts
      ensures r.Ok? ==> r.value == accounts[accountNumber] && r.value.number == accountNumber
      ensures r.Err? ==> r.error == NotFound(accountNumber)
    {
      if IsBlank(accountNumber) then Err(AccountNotFound(EmptyNumberMessage))
      else if accountNumber !in accounts then Err(AccountNotFound("Account not found: " + accountNumber))
      else Ok(accounts[accountNumber])
    }

    /** getTotalBalance: the sum of the balances of every filed account. */
    method GetTotalBalance() returns (total: Cents)
      ensures total == Total(Balances())
    {
      var remaining := accounts.Keys;
      total := 0;
      while remaining != {}
        invariant remaining <= accounts.Keys
        invariant total + SumOver(Balances(), remaining) == Total(Balances())
        decreases remaining
      {
        var n :| n in remaining;
        SumOverRemove(Balances(), remaining, n);
        total := total + accounts[n].balance;
        remaining := remaining - {n};
      }
    }

    /**
     * createAccountInternal: customer type 1 is Regular, anything else
     * Premium; account type 1 is Savings, anything else Checking. A refused
     * customer or account is reported as the constructor's failure.
     */
    method CreateAccountInternal(req: Option<AccountRequest>, now: Timestamp) returns (r: Result<Account>)
      requires Valid()
      modifies customerIds, accountIds, ledger, ledger.slots, txnIds
      ensures Valid()
      ensures req.None? ==> r == Err(IllegalArgument(NullAccountRequestMessage))
      ensures req.Some? && !CustomerAccepted(req.value) ==>
                r.Err? && accountIds.value == old(accountIds.value) && customerIds.value == old(customerIds.value)
      ensures req.Some? && CustomerAccepted(req.value) && req.value.accountType == 1 ==>
                (r.Ok? <==> req.value.initialDeposit >= MinimumBalance)
      ensures req.Some? && CustomerAccepted(req.value) && req.value.accountType != 1 ==>
                (r.Ok? <==> req.value.initialDeposit > 0 && old(ledger.count) < MaxTransactions)
      ensures r.Ok? ==> req.Some? && fresh(r.value) && r.value.Valid() && r.value.WithinLimits()
      ensures r.Ok? ==> r.value.ledger == ledger && r.value.txnIds == txnIds
      ensures r.Ok? ==> r.value.number == AccountNumber(accountIds.value) && r.value.balance == req.value.initialDeposit
      ensures r.Ok? ==> r.value.kind == (if req.value.accountType == 1 then Savings else Checking)
      ensures r.Ok? ==> r.value.customer.kind == (if req.value.customerType == 1 then Regular else Premium)
      ensures r.Ok? ==> r.value.customer.id == CustomerId(customerIds.value)
    {
      if req.None? {
        return Err(IllegalArgument(NullAccountRequestMessage));
      }
      var q := req.value;
      var customer := Customer.Create(if q.customerType == 1 then Regular else Premium,
                                      q.name, q.age, q.contact, q.address, customerIds);
      if customer.Err? {
        return Err(customer.error);
      }
      if q.accountType == 1 {
        r := Account.OpenSavings(customer.value, q.initialDeposit, accountIds, ledger, txnIds, now);
      } else {
        r := Account.OpenChecking(customer.value, q.initialDeposit, accountIds, ledger, txnIds, now);
      }
    }

    /** createAccount: builds the account and files it as newly created. */
    method CreateAccount(req: Option<AccountRequest>, now: Timestamp) returns (r: Result<()>)
      requires Valid()
      modifies this, customerIds, accountIds, ledger, ledger.slots, txnIds
      ensures Valid()
      ensures r.Ok? ==> req.Some? && |accounts| == |old(accounts)| + 1 && accountCount == old(accountCount) + 1
      ensures r.Ok? ==> AccountNumber(accountIds.value) in accounts && AccountNumber(accountIds.value) in newlyCreated
      ensures r.Ok? ==>
                var n := AccountNumber(accountIds.value);
                n !in old(accounts) && accounts == old(accounts)[n := accounts[n]] &&
                newlyCreated == old(newlyCreated) + {n} && fresh(accounts[n]) &&
                accounts[n].balance == req.value.initialDeposit &&
                accounts[n].kind == (if req.value.accountType == 1 then Savings else Checking) &&
                accounts[n].customer.kind == (if req.value.customerType == 1 then Regular else Premium) &&
                accounts[n].customer.id == CustomerId(customerIds.value)
      ensures r.Err? ==> accounts == old(accounts) && accountCount == old(accountCount)
    {
      var created := CreateAccountInternal(req, now);
      if created.Err? {
        return Err(created.error);
      }
      var added := AddAccount(created.value);
      if added.Err? {
        return Err(added.error);
      }
      assert created.value.number !in old(accounts);
      r := Ok(());
    }

    /** One processTransaction call on a filed account: only its balance moves. */
    method RunProcess(account: Account, amount: Cents, txnType: string, now: Timestamp) returns (res: Result<()>)
      requires Valid() && account.number in accounts && accounts[account.number] == account
      modifies account, ledger, ledger.slots, txnIds
      ensures Valid()
      ensures account.status == old(account.status)
      ensures var leg := old(RunLeg(ProcessDecision(account.kind, account.balance, amount, txnType), account.balance,
                                    MaxTransactions - ledger.count));
              res == leg.result && Balances() == old(Balances())[account.number := leg.balance] &&
              ledger.count == old(ledger.count) + leg.recorded
      ensures var d := old(ProcessDecision(account.kind, account.balance, amount, txnType));
              txnIds.value == old(txnIds.value) + Moves(d) &&
              Grew(old(ledger.slots[..]), old(ledger.count), ledger.slots[..], ledger.count,
                   LegEntries(d, MaxTransactions - old(ledger.count), account.number, txnIds.value, now))
    {
      var t := account.ProcessTransaction(amount, txnType, now);
      res := Status(t);
    }

    /** The sender's "Transfer" leg on a filed account, with the dispatch resolved to `SenderDecision`. */
    method RunSend(account: Account, amount: Cents, now: Timestamp,
                  ghost kinds: map<string, AccountKind>, ghost balances: map<string, Cents>, ghost free: nat)
      returns (res: Result<()>)
      requires Valid() && account.number in accounts && accounts[account.number] == account
      requires kinds == Kinds() && balances == Balances() && free == MaxTransactions - ledger.count
      modifies account, ledger, ledger.slots, txnIds
      ensures Valid()
      ensures account.status == old(account.status)
      ensures var leg := RunLeg(SenderDecision(kinds[account.number], balances[account.number], amount),
                                balances[account.number], free);
              res == leg.result && Balances() == balances[account.number := leg.balance] &&
              ledger.count == old(ledger.count) + leg.recorded
      ensures res.Err? ==> Grew(old(ledger.slots[..]), old(ledger.count), ledger.slots[..], ledger.count, [])
      ensures res.Ok? ==>
                txnIds.value == old(txnIds.value) + 1 &&
                Grew(old(ledger.slots[..]), old(ledger.count), ledger.slots[..], ledger.count,
                     [Transaction(TxnId(txnIds.value), account.number, "Transfer Out", amount,
                                  balances[account.number] - amount, now)])
    {
      SenderDispatch(account.kind, account.balance, amount);
      res := RunProcess(account, amount, "Transfer", now);
    }

    /** The receiver's "Receive" leg on a filed account, with the dispatch resolved to `ReceiverDecision`. */
    method RunReceive(account: Account, amount: Cents, now: Timestamp,
                  ghost kinds: map<string, AccountKind>, ghost balances: map<string, Cents>, ghost free: nat)
      returns (res: Result<()>)
      requires Valid() && account.number in accounts && accounts[account.number] == account
      requires kinds == Kinds() && balances == Balances() && free == MaxTransactions - ledger.count
      modifies account, ledger, ledger.slots, txnIds
      ensures Valid()
      ensures account.status == old(account.status)
      ensures var leg := RunLeg(ReceiverDecision(kinds[account.number], balances[account.number], amount),
                                balances[account.number], free);
              res == leg.result && Balances() == balances[account.number := leg.balance] &&
              ledger.count == old(ledger.count) + leg.recorded
      ensures res.Err? ==> Grew(old(ledger.slots[..]), old(ledger.count), ledger.slots[..], ledger.count, [])
      ensures res.Ok? ==>
                txnIds.value == old(txnIds.value) + 1 &&
                Grew(old(ledger.slots[..]), old(ledger.count), ledger.slots[..], ledger.count,
                     [Transaction(TxnId(txnIds.value), account.number, "Transfer In", amount, account.balance, now)])
    {
      ReceiverDispatch(account.kind, account.balance, amount);
      res := RunProcess(account, amount, "Receive", now);
    }

    /** One plain deposit on a filed account: only its balance moves. */
    method RunDeposit(account: Account, amount: Cents, now: Timestamp) returns (res: Result<()>)
      requires Valid() && account.number in accounts && accounts[account.number] == account
      modifies account, ledger, ledger.slots, txnIds
      ensures Valid()
      ensures account.status == old(account.status)
      ensures var leg := old(RunLeg(DepositDecision(account.kind, account.balance, amount), account.balance,
                                    MaxTransactions - ledger.count));
              res == leg.result && Balances() == old(Balances())[account.number := leg.balance] &&
              ledger.count == old(ledger.count) + leg.recorded
      ensures var d := old(DepositDecision(account.kind, account.balance, amount));
              txnIds.value == old(txnIds.value) + Moves(d) &&
              Grew(old(ledger.slots[..]), old(ledger.count), ledger.slots[..], ledger.count,
                   LegEntries(d, MaxTransactions - old(ledger.count), account.number, txnIds.value, now))
    {
      var t := account.Deposit(amount, now);
      res := Status(Widen(t));
    }

    /**
     * The transfer branch of processTransaction, proved against `Transfer`.
     * The ledger keeps its entries; a transfer that records anything records
     * the sender's "Transfer Out" first, and a successful one records it and
     * the receiver's "Transfer In", with the balance after each.
     */
    method TransferFunds(user: Account, receiverNumber: string, amount: Cents, now: Timestamp,
                         ghost kinds: map<string, AccountKind>, ghost balances: map<string, Cents>, ghost free: nat)
      returns (r: Result<()>)
      requires Valid() && user.number in accounts && accounts[user.number] == user
      requires kinds == Kinds() && balances == Balances() && free == MaxTransactions - ledger.count
      modifies accounts.Values, ledger, ledger.slots, txnIds
      ensures Valid()
      ensures var e := Transfer(kinds, balances, free, user.number, receiverNumber, amount);
              r == e.result && Balances() == e.balances && ledger.count == old(ledger.count) + e.recorded
      ensures ledger.Entries()[..old(ledger.count)] == old(ledger.Entries())
      ensures ledger.count > old(ledger.count) ==>
                ledger.Entries()[old(ledger.count)] ==
                  Transaction(TxnId(old(txnIds.value) + 1), user.number, "Transfer Out", amount, balances[user.number] - amount, now)
      ensures r.Ok? ==>
                receiverNumber in accounts && txnIds.value == old(txnIds.value) + 2 &&
                ledger.Entries() == old(ledger.Entries()) +
                  [Transaction(TxnId(old(txnIds.value) + 1), user.number, "Transfer Out", amount, balances[user.number] - amount, now),
                   Transaction(TxnId(old(txnIds.value) + 2), receiverNumber, "Transfer In", amount, Balances()[receiverNumber], now)]
    {
      if IsBlank(receiverNumber) {
        return Err(Runtime(IllegalArgument(ReceiverMessage)));
      }
      var foundReceiver := FindAccount(receiverNumber);
      if foundReceiver.Err? {
        return Err(foundReceiver.error);
      }
      TransferToFiled(kinds, balances, free, user.number, receiverNumber, amount);
      r := SendFunds(user, foundReceiver.value, amount, now, kinds, balances, free);
      SendEntries(old(ledger.slots[..]), old(ledger.count), ledger.slots[..], ledger.count,
                  Transaction(TxnId(old(txnIds.value) + 1), user.number, "Transfer Out", amount, balances[user.number] - amount, now),
                  Transaction(TxnId(old(txnIds.value) + 2), receiverNumber, "Transfer In", amount, Balances()[receiverNumber], now),
                  r.Ok?);
    }

    /** The two legs of a transfer between filed accounts, proved against `Send`. */
    method SendFunds(user: Account, receiver: Account, amount: Cents, now: Timestamp,
                     ghost kinds: map<string, AccountKind>, ghost balances: map<string, Cents>, ghost free: nat)
      returns (r: Result<()>)
      requires Valid() && user.number in accounts && accounts[user.number] == user
      requires receiver.number in accounts && accounts[receiver.number] == receiver
      requires kinds == Kinds() && balances == Balances() && free == MaxTransactions - ledger.count
      modifies accounts.Values, ledger, ledger.slots, txnIds
      ensures Valid()
      ensures ledger.count >= old(ledger.count)
      ensures Send(kinds, balances, free, user.number, receiver.number, amount) == Effect(r, Balances(), ledger.count - old(ledger.count))
      ensures Keeps(old(ledger.slots[..]), old(ledger.count), ledger.slots[..], ledger.count)
      ensures ledger.count > old(ledger.count) ==>
                ledger.slots[old(ledger.count)] ==
                  Transaction(TxnId(old(txnIds.value) + 1), user.number, "Transfer Out", amount, balances[user.number] - amount, now)
      ensures r.Ok? ==>
                txnIds.value == old(txnIds.value) + 2 &&
                Grew(old(ledger.slots[..]), old(ledger.count), ledger.slots[..], ledger.count,
                     [Transaction(TxnId(old(txnIds.value) + 1), user.number, "Transfer Out", amount, balances[user.number] - amount, now),
                      Transaction(TxnId(old(txnIds.value) + 2), receiver.number, "Transfer In", amount, receiver.balance, now)])
    {
      var sent := RunSend(user, amount, now, kinds, balances, free);
      if sent.Err? {
        GrewKeeps(old(ledger.slots[..]), old(ledger.count), ledger.slots[..], ledger.count, []);
        return Err(Surface(sent.error));
      }
      SendPassed(kinds, balances, free, user.number, receiver.number, amount);
      ghost var s1, c1 := ledger.slots[..], ledger.count;
      ghost var out := Transaction(TxnId(old(txnIds.value) + 1), user.number, "Transfer Out", amount,
                                   balances[user.number] - amount, now);
      r := CreditReceiver(user, receiver, amount, now, kinds, Balances(), free - 1);
      GrewThenKeeps(old(ledger.slots[..]), old(ledger.count), s1, c1, ledger.slots[..], ledger.count, [out]);
      assert ledger.slots[..][old(ledger.count)..c1] == [out];
      if r.Ok? {
        GrewChain(old(ledger.slots[..]), old(ledger.count), s1, c1, ledger.slots[..], ledger.count, [out],
                  [Transaction(TxnId(txnIds.value), receiver.number, "Transfer In", amount, receiver.balance, now)]);
      }
    }

    /** The receiver's leg of a transfer and the refund when it fails, proved against `Settle`. */
    method CreditReceiver(user: Account, receiver: Account, amount: Cents, now: Timestamp,
                          ghost kinds: map<string, AccountKind>, ghost balances: map<string, Cents>, ghost free: nat)
      returns (r: Result<()>)
      requires Valid() && user.number in accounts && accounts[user.number] == user
      requires receiver.number in accounts && accounts[receiver.number] == receiver
      requires kinds == Kinds() && balances == Balances() && free == MaxTransactions - ledger.count
      modifies accounts.Values, ledger, ledger.slots, txnIds
      ensures Valid()
      ensures ledger.count >= old(ledger.count)
      ensures Settle(kinds, balances, free, user.number, receiver.number, amount) == Effect(r, Balances(), ledger.count - old(ledger.count))
      ensures Keeps(old(ledger.slots[..]), old(ledger.count), ledger.slots[..], ledger.count)
      ensures r.Ok? ==>
                txnIds.value == old(txnIds.value) + 1 &&
                Grew(old(ledger.slots[..]), old(ledger.count), ledger.slots[..], ledger.count,
                     [Transaction(TxnId(txnIds.value), receiver.number, "Transfer In", amount, receiver.balance, now)])
    {
      ghost var leg := RunLeg(ReceiverDecision(kinds[receiver.number], balances[receiver.number], amount),
                              balances[receiver.number], free);
      var inn := RunReceive(receiver, amount, now, kinds, balances, free);
      if inn.Err? {
        ghost var s1, c1 := ledger.slots[..], ledger.count;
        SettleFailed(kinds, balances, free, user.number, receiver.number, amount);
        r := RefundSender(user, amount, inn.error.Message(), now, kinds, Balances(), free);
        GrewThenKeeps(old(ledger.slots[..]), old(ledger.count), s1, c1, ledger.slots[..], ledger.count, []);
      } else {
        GrewKeeps(old(ledger.slots[..]), old(ledger.count), ledger.slots[..], ledger.count,
                  [Transaction(TxnId(txnIds.value), receiver.number, "Transfer In", amount, receiver.balance, now)]);
        r := Ok(());
      }
    }

    /** The refund of a failed transfer, proved against `Refund`. */
    method RefundSender(user: Account, amount: Cents, reason: string, now: Timestamp,
                        ghost kinds: map<string, AccountKind>, ghost balances: map<string, Cents>, ghost free: nat)
      returns (r: Result<()>)
      requires Valid() && user.number in accounts && accounts[user.number] == user
      requires kinds == Kinds() && balances == Balances() && free == MaxTransactions - ledger.count
      modifies accounts.Values, ledger, ledger.slots, txnIds
      ensures Valid()
      ensures ledger.count >= old(ledger.count)
      ensures Refund(kinds, balances, free, user.number, amount, reason) == Effect(r, Balances(), ledger.count - old(ledger.count))
      ensures Keeps(old(ledger.slots[..]), old(ledger.count), ledger.slots[..], ledger.count)
      ensures ledger.count > old(ledger.count) ==>
                Grew(old(ledger.slots[..]), old(ledger.count), ledger.slots[..], ledger.count,
                     [Transaction(TxnId(txnIds.value), user.number, "Deposit", amount, user.balance, now)])
    {
      var refund := RunDeposit(user, amount, now);
      GrewKeeps(old(ledger.slots[..]), old(ledger.count), ledger.slots[..], ledger.count,
                LegEntries(DepositDecision(kinds[user.number], balances[user.number], amount), free, user.number, txnIds.value, now));
      r := Err(if refund.Err? then Surface(refund.error) else InsufficientFunds("Transfer failed: " + reason));
    }

    /**
     * The "DEPOSIT" and "WITHDRAWAL" branches of processTransaction on a filed account: the leg's outcome,
     * surfaced as the request's result, and the one entry it appends when it records one.
     */
    method DepositOrWithdraw(user: Account, req: TransactionRequest, now: Timestamp) returns (r: Result<()>)
      requires Valid() && user.number in accounts && accounts[user.number] == user
      requires req.userAccountNumber == user.number && !IsBlank(user.number)
      requires KindOf(req.transactionType).DepositRequest? || KindOf(req.transactionType).WithdrawalRequest?
      modifies user, ledger, ledger.slots, txnIds
      ensures Valid()
      ensures user.status == old(user.status)
      ensures var e := old(Step(Kinds(), Balances(), MaxTransactions - ledger.count, req));
              r == e.result && Balances() == e.balances && ledger.count == old(ledger.count) + e.recorded
      ensures ledger.Entries()[..old(ledger.count)] == old(ledger.Entries())
      ensures ledger.count > old(ledger.count) ==>
                var w := KindOf(req.transactionType).WithdrawalRequest?;
                txnIds.value == old(txnIds.value) + 1 &&
                ledger.Entries() == old(ledger.Entries()) +
                  [Transaction(TxnId(txnIds.value), user.number, if w then "Withdrawal" else "Deposit",
                               if w && Kinds()[user.number] == Checking then -req.amount else req.amount,
                               Balances()[user.number], now)]
    {
      var txnType := if KindOf(req.transactionType).DepositRequest? then "Deposit" else "Withdrawal";
      ghost var d := ProcessDecision(user.kind, user.balance, req.amount, txnType);
      StepOneLeg(Kinds(), Balances(), MaxTransactions - ledger.count, req);
      DepositWithdrawalMoves(user.kind, user.balance, req.amount);
      var res := RunProcess(user, req.amount, txnType, now);
      GrewEntries(old(ledger.slots[..]), old(ledger.count), ledger.slots[..], ledger.count,
                  LegEntries(d, MaxTransactions - old(ledger.count), user.number, txnIds.value, now));
      r := Surfaced(res);
    }

    /**
     * The "TRANSFER" branch of processTransaction on a filed account: `TransferFunds`
     * with the request's receiver and amount, stated in the terms of `Step`.
     */
    method RequestTransfer(user: Account, req: TransactionRequest, now: Timestamp) returns (r: Result<()>)
      requires Valid() && user.number in accounts && accounts[user.number] == user
      requires req.userAccountNumber == user.number && !IsBlank(user.number)
      requires KindOf(req.transactionType).TransferRequest?
      modifies accounts.Values, ledger, ledger.slots, txnIds
      ensures Valid()
      ensures var e := old(Step(Kinds(), Balances(), MaxTransactions - ledger.count, req));
              r == e.result && Balances() == e.balances && ledger.count == old(ledger.count) + e.recorded
      ensures ledger.Entries()[..old(ledger.count)] == old(ledger.Entries())
      ensures ledger.count > old(ledger.count) ==>
                ledger.Entries()[old(ledger.count)] ==
                  Transaction(TxnId(old(txnIds.value) + 1), user.number, "Transfer Out", req.amount,
                              old(Balances())[user.number] - req.amount, now)
      ensures r.Ok? ==>
                var v, a := req.receiverAccountNumber, req.amount;
                v in accounts && txnIds.value == old(txnIds.value) + 2 &&
                ledger.Entries() == old(ledger.Entries()) +
                  [Transaction(TxnId(old(txnIds.value) + 1), user.number, "Transfer Out", a, old(Balances())[user.number] - a, now),
                   Transaction(TxnId(old(txnIds.value) + 2), v, "Transfer In", a, Balances()[v], now)]
    {
      ghost var kinds, balances, free := Kinds(), Balances(), MaxTransactions - ledger.count;
      r := TransferFunds(user, req.receiverAccountNumber, req.amount, now, kinds, balances, free);
      TransferAsStep(kinds, balances, free, req, r, Balances(), ledger.count - old(ledger.count));
    }

    /**
     * processTransaction, proved against `Step`: a null request is refused;
     * otherwise the request is run as `ProcessRequest` runs it.
     */
    method ProcessTransaction(request: Option<TransactionRequest>, now: Timestamp) returns (r: Result<()>)
      requires Valid()
      modifies accounts.Values, ledger, ledger.slots, txnIds
      ensures Valid()
      ensures request.None? ==>
                r == Err(IllegalArgument(NullRequestMessage)) && Balances() == old(Balances()) &&
                ledger.count == old(ledger.count)
      ensures request.Some? ==>
                var e := old(Step(Kinds(), Balances(), MaxTransactions - ledger.count, request.value));
                r == e.result && Balances() == e.balances && ledger.count == old(ledger.count) + e.recorded
      ensures ledger.count >= old(ledger.count) && ledger.Entries()[..old(ledger.count)] == old(ledger.Entries())
      ensures request.Some? && (KindOf(request.value.transactionType).DepositRequest? ||
                                KindOf(request.value.transactionType).WithdrawalRequest?) &&
              ledger.count > old(ledger.count) ==>
                var u, w := request.value.userAccountNumber, KindOf(request.value.transactionType).WithdrawalRequest?;
                u in accounts && txnIds.value == old(txnIds.value) + 1 &&
                ledger.Entries() == old(ledger.Entries()) +
                  [Transaction(TxnId(txnIds.value), u, if w then "Withdrawal" else "Deposit",
                               if w && Kinds()[u] == Checking then -request.value.amount else request.value.amount,
                               Balances()[u], now)]
      ensures request.Some? && KindOf(request.value.transactionType).TransferRequest? && ledger.count > old(ledger.count) ==>
                var u := request.value.userAccountNumber;
                u in accounts &&
                ledger.Entries()[old(ledger.count)] ==
                  Transaction(TxnId(old(txnIds.value) + 1), u, "Transfer Out", request.value.amount,
                              old(Balances())[u] - request.value.amount, now)
      ensures request.Some? && KindOf(request.value.transactionType).TransferRequest? && r.Ok? ==>
                var u, v, a := request.value.userAccountNumber, request.value.receiverAccountNumber, request.value.amount;
                u in accounts && v in accounts && txnIds.value == old(txnIds.value) + 2 &&
                ledger.Entries() == old(ledger.Entries()) +
                  [Transaction(TxnId(old(txnIds.value) + 1), u, "Transfer Out", a, old(Balances())[u] - a, now),
                   Transaction(TxnId(old(txnIds.value) + 2), v, "Transfer In", a, Balances()[v], now)]
    {
      if request.None? {
        return Err(IllegalArgument(NullRequestMessage));
      }
      r := ProcessRequest(request.value, now);
    }

    /**
     * The body of processTransaction's try block: the reported outcome, the
     * balances of all filed accounts and the number of ledger entries added
     * are the ones `Step` gives for the state before the call. The ledger
     * keeps its entries; a deposit or withdrawal that records an entry
     * records it under its own type, and a transfer records as
     * `TransferFunds` does.
     */
    method ProcessRequest(req: TransactionRequest, now: Timestamp) returns (r: Result<()>)
      requires Valid()
      modifies accounts.Values, ledger, ledger.slots, txnIds
      ensures Valid()
      ensures var e := old(Step(Kinds(), Balances(), MaxTransactions - ledger.count, req));
              r == e.result && Balances() == e.balances && ledger.count == old(ledger.count) + e.recorded
      ensures ledger.count >= old(ledger.count) && ledger.Entries()[..old(ledger.count)] == old(ledger.Entries())
      ensures (KindOf(req.transactionType).DepositRequest? || KindOf(req.transactionType).WithdrawalRequest?) &&
              ledger.count > old(ledger.count) ==>
                var u, w := req.userAccountNumber, KindOf(req.transactionType).WithdrawalRequest?;
                u in accounts && txnIds.value == old(txnIds.value) + 1 &&
                ledger.Entries() == old(ledger.Entries()) +
                  [Transaction(TxnId(txnIds.value), u, if w then "Withdrawal" else "Deposit",
                               if w && Kinds()[u] == Checking then -req.amount else req.amount,
                               Balances()[u], now)]
      ensures KindOf(req.transactionType).TransferRequest? && ledger.count > old(ledger.count) ==>
                var u := req.userAccountNumber;
                u in accounts &&
                ledger.Entries()[old(ledger.count)] ==
                  Transaction(TxnId(old(txnIds.value) + 1), u, "Transfer Out", req.amount,
                              old(Balances())[u] - req.amount, now)
      ensures KindOf(req.transactionType).TransferRequest? && r.Ok? ==>
                var u, v, a := req.userAccountNumber, req.receiverAccountNumber, req.amount;
                u in accounts && v in accounts && txnIds.value == old(txnIds.value) + 2 &&
                ledger.Entries() == old(ledger.Entries()) +
                  [Transaction(TxnId(old(txnIds.value) + 1), u, "Transfer Out", a, old(Balances())[u] - a, now),
                   Transaction(TxnId(old(txnIds.value) + 2), v, "Transfer In", a, Balances()[v], now)]
    {
      var found := FindAccount(req.userAccountNumber);
      if found.Err? {
        return Err(found.error);
      }
      var user := found.value;
      var kind := KindOf(req.transactionType);
      if kind.DepositRequest? || kind.WithdrawalRequest? {
        r := DepositOrWithdraw(user, req, now);
      } else if kind.TransferRequest? {
        r := RequestTransfer(user, req, now);
      } else {
        r := Err(Runtime(IllegalArgument("Invalid transaction type: " + req.transactionType)));
      }
    }
  }

  /** The customer fields an account request must carry for the Customer constructor to accept them. */
  predicate CustomerAccepted(q: AccountRequest)
  {
    !IsBlank(q.name) && 18 <= q.age <= 120 && !IsBlank(q.contact) && !IsBlank(q.address)
  }
}
