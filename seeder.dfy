/**
 * DataSeeder: fills an empty registry, once, with five sample accounts and
 * then runs a short script of sample transactions on the first five
 * accounts the registry lists. The seeder's only state is the `dataSeeded`
 * flag.
 */
module Seeding {
  import opened Errors
  import opened Text
  import opened Money
  import opened Clock
  import opened Ledger
  import opened Customers
  import opened Accounts
  import opened AccountManagement

  // ------------------------------------------------------- sample accounts

  /** One sample account: its owner's details and kind, the account's kind and its opening deposit. */
  datatype Sample = Sample(name: string, age: int, contact: string, address: string,
                           owner: CustomerKind, kind: AccountKind, deposit: Cents)

  /** The five sample accounts, in the order they are created. */
  const Samples: seq<Sample> := [
    Sample("John Mensah", 35, "0241234567", "15 Independence Ave, Accra", Regular, Savings, 500000),
    Sample("Ama Serwaa", 28, "0551234567", "23 Oxford Street, Osu", Regular, Checking, 250000),
    Sample("Kwame Asante", 45, "0201234567", "10 Liberation Road, Kumasi", Premium, Savings, 1500000),
    Sample("Efua Owusu", 52, "0261234567", "5 High Street, Takoradi", Premium, Checking, 2500000),
    Sample("Kofi Adjei", 22, "0541234567", "78 Ring Road, Tamale", Regular, Savings, 100000)
  ]

  /** Only the first four samples open checking accounts, whose opening deposit takes a ledger slot. */
  lemma CheckingSamplesFirst()
    ensures forall k | 0 <= k < |Samples| && Samples[k].kind == Checking :: k < 4
  {
  }

  /** The customer record accepts the owner. */
  predicate OwnerAcceptable(s: Sample)
  {
    !IsBlank(s.name) && 18 <= s.age <= 120 && !IsBlank(s.contact) && !IsBlank(s.address)
  }

  /** The customer record accepts the owner and the account's opening rule accepts the deposit. */
  predicate Acceptable(s: Sample)
  {
    OwnerAcceptable(s) && (if s.kind == Savings then s.deposit >= MinimumBalance else s.deposit > 0)
  }

  lemma NotBlankByFirst(s: string)
    requires |s| > 0 && !IsTrimmed(s[0])
    ensures !IsBlank(s)
  {
    BlankIffAllTrimmed(s);
  }

  /** Every sample is acceptable, so only the registry and the ledger can make seeding fail. */
  lemma SamplesAcceptable()
    ensures forall k | 0 <= k < |Samples| :: Acceptable(Samples[k])
  {
    forall k | 0 <= k < |Samples| ensures Acceptable(Samples[k]) {
      var s := Samples[k];
      NotBlankByFirst(s.name);
      NotBlankByFirst(s.contact);
      NotBlankByFirst(s.address);
    }
  }

  // ------------------------------------------------------ sample transactions

  /** The account calls the script makes. */
  datatype Op = Deposit(amount: Cents) | Withdraw(amount: Cents)
              | DepositAs(amount: Cents, txnType: string) | WithdrawAs(amount: Cents, txnType: string)

  /** A scripted call: the position of the account in the listing, and the call. */
  datatype Step = Step(who: nat, op: Op)

  /** What the account decides for a call, by its kind and balance. */
  function Decide(kind: AccountKind, balance: Cents, op: Op): Result<Option<Move>>
  {
    match op
    case Deposit(a) => DepositDecision(kind, balance, a)
    case Withdraw(a) => WithdrawDecision(kind, balance, a)
    case DepositAs(a, t) => DepositWithTypeDecision(kind, balance, a, t)
    case WithdrawAs(a, t) => WithdrawWithTypeDecision(kind, balance, a, t)
  }

  /** Whether the transfer leg of the script runs: a checking fourth account and a savings first one. */
  predicate TransferRuns(kinds: seq<AccountKind>)
    requires |kinds| >= 5
  {
    kinds[3] == Checking && kinds[0] == Savings
  }

  /** The script's calls on the first four accounts. */
  const Opening: seq<Step> :=
    [Step(0, Deposit(150000)), Step(0, Withdraw(50000)), Step(1, Deposit(75000)), Step(1, Withdraw(20000)),
     Step(2, Deposit(500000)), Step(3, Deposit(1000000)), Step(3, Withdraw(300000))]

  /** The $2,000 transfer from the fourth account to the first. */
  const TransferLeg: seq<Step> :=
    [Step(3, WithdrawAs(200000, "Transfer Out")), Step(0, DepositAs(200000, "Transfer In"))]

  /** The script's last call, on the fifth account. */
  const Closing: seq<Step> := [Step(4, Deposit(25000))]

  /**
   * The script: deposits and withdrawals on the first four accounts, the
   * transfer when TransferRuns, and a deposit on the fifth.
   */
  function SampleSteps(kinds: seq<AccountKind>): (steps: seq<Step>)
    requires |kinds| >= 5
    ensures forall k | 0 <= k < |steps| :: steps[k].who < 5
  {
    Opening + (if TransferRuns(kinds) then TransferLeg else []) + Closing
  }

  /** The script call by call. */
  lemma SampleStepsAt(kinds: seq<AccountKind>)
    requires |kinds| >= 5
    ensures var script := SampleSteps(kinds);
            script[0] == Step(0, Deposit(150000)) && script[1] == Step(0, Withdraw(50000)) &&
            script[2] == Step(1, Deposit(75000)) && script[3] == Step(1, Withdraw(20000)) &&
            script[4] == Step(2, Deposit(500000)) && script[5] == Step(3, Deposit(1000000)) &&
            script[6] == Step(3, Withdraw(300000))
    ensures var script := SampleSteps(kinds);
            if TransferRuns(kinds) then
              |script| == 10 && script[7] == Step(3, WithdrawAs(200000, "Transfer Out")) &&
              script[8] == Step(0, DepositAs(200000, "Transfer In")) && script[9] == Step(4, Deposit(25000))
            else |script| == 8 && script[7] == Step(4, Deposit(25000))
  {
  }

  /** The script from position `k` on starts with the `k`th call and continues from `k + 1`. */
  lemma Suffix(script: seq<Step>, k: nat, n: nat)
    requires k < |script| && InRange(script, n)
    ensures script[k..] != [] && script[k..][0] == script[k] && script[k..][1..] == script[k + 1..]
    ensures InRange(script[k..], n)
  {
  }

  /** Balances and free ledger slots after a run of the script. */
  datatype Outcome = Outcome(balances: seq<Cents>, free: nat)

  predicate InRange(steps: seq<Step>, n: nat)
  {
    forall k | 0 <= k < |steps| :: steps[k].who < n
  }

  /**
   * Runs the steps in order. The first call that throws ends the script;
   * the balance change it made before throwing (a move whose entry the full
   * ledger refused) is kept.
   */
  function RunSteps(kinds: seq<AccountKind>, balances: seq<Cents>, free: nat, steps: seq<Step>): (out: Outcome)
    requires |kinds| == |balances| && InRange(steps, |kinds|)
    ensures |out.balances| == |balances| && out.free <= free
    decreases |steps|
  {
    if steps == [] then Outcome(balances, free)
    else
      var w := steps[0].who;
      var leg := RunLeg(Decide(kinds[w], balances[w], steps[0].op), balances[w], free);
      var next := balances[w := leg.balance];
      if leg.result.Err? then Outcome(next, free - leg.recorded)
      else RunSteps(kinds, next, free - leg.recorded, steps[1..])
  }

  /** The balances respect each account's floor. */
  predicate WithinFloors(kinds: seq<AccountKind>, balances: seq<Cents>)
    requires |kinds| == |balances|
  {
    forall i | 0 <= i < |kinds| :: balances[i] >= Floor(kinds[i])
  }

  lemma DecideKeepsFloor(kind: AccountKind, balance: Cents, op: Op)
    requires balance >= Floor(kind)
    ensures var d := Decide(kind, balance, op); d.Ok? && d.value.Some? ==> d.value.value.newBalance >= Floor(kind)
  {
  }

  /** No step of any script takes an account below its floor. */
  lemma {:induction false} RunStepsKeepsFloors(kinds: seq<AccountKind>, balances: seq<Cents>, free: nat, steps: seq<Step>)
    requires |kinds| == |balances| && InRange(steps, |kinds|)
    requires WithinFloors(kinds, balances)
    ensures WithinFloors(kinds, RunSteps(kinds, balances, free, steps).balances)
    decreases |steps|
  {
    if steps != [] {
      var w := steps[0].who;
      DecideKeepsFloor(kinds[w], balances[w], steps[0].op);
      var leg := RunLeg(Decide(kinds[w], balances[w], steps[0].op), balances[w], free);
      var next := balances[w := leg.balance];
      assert WithinFloors(kinds, next);
      if leg.result.Ok? {
        RunStepsKeepsFloors(kinds, next, free - leg.recorded, steps[1..]);
      }
    }
  }

  lemma TypesNotBlank()
    ensures !IsBlank("Deposit") && !IsBlank("Withdrawal") && !IsBlank("Transfer Out") && !IsBlank("Transfer In")
  {
    NotBlankByFirst("Deposit");
    NotBlankByFirst("Withdrawal");
    NotBlankByFirst("Transfer Out");
    NotBlankByFirst("Transfer In");
  }

  /** A call the account accepts, on a ledger with room, moves the balance and takes one slot. */
  lemma StepThen(kinds: seq<AccountKind>, balances: seq<Cents>, free: nat, s: Step, rest: seq<Step>, newBalance: Cents)
    requires |kinds| == |balances| && s.who < |kinds| && InRange(rest, |kinds|) && free > 0
    requires Decide(kinds[s.who], balances[s.who], s.op).Ok?
    requires Decide(kinds[s.who], balances[s.who], s.op).value.Some?
    requires Decide(kinds[s.who], balances[s.who], s.op).value.value.newBalance == newBalance
    ensures InRange([s] + rest, |kinds|)
    ensures RunSteps(kinds, balances, free, [s] + rest) ==
              RunSteps(kinds, balances[s.who := newBalance], free - 1, rest)
  {
    assert ([s] + rest)[0] == s;
    assert ([s] + rest)[1..] == rest;
  }

  /** A deposit on an account, on a ledger with room, succeeds. */
  lemma DepositSucceeds(kinds: seq<AccountKind>, balances: seq<Cents>, free: nat, w: nat, d: Cents, rest: seq<Step>)
    requires |kinds| == |balances| && w < |kinds| && InRange(rest, |kinds|)
    requires d > 0 && free >= 1
    ensures InRange([Step(w, Deposit(d))] + rest, |kinds|)
    ensures RunSteps(kinds, balances, free, [Step(w, Deposit(d))] + rest) ==
              RunSteps(kinds, balances[w := balances[w] + d], free - 1, rest)
  {
    TypesNotBlank();
    StepThen(kinds, balances, free, Step(w, Deposit(d)), rest, balances[w] + d);
  }

  /** A withdrawal that keeps the account at or above its floor, on a ledger with room, succeeds. */
  lemma WithdrawSucceeds(kinds: seq<AccountKind>, balances: seq<Cents>, free: nat, w: nat, x: Cents, rest: seq<Step>)
    requires |kinds| == |balances| && w < |kinds| && InRange(rest, |kinds|)
    requires x > 0 && balances[w] - x >= Floor(kinds[w]) && free >= 1
    ensures InRange([Step(w, Withdraw(x))] + rest, |kinds|)
    ensures RunSteps(kinds, balances, free, [Step(w, Withdraw(x))] + rest) ==
              RunSteps(kinds, balances[w := balances[w] - x], free - 1, rest)
  {
    TypesNotBlank();
    StepThen(kinds, balances, free, Step(w, Withdraw(x)), rest, balances[w] - x);
  }

  /**
   * A deposit followed by a withdrawal of no more than it, on an account
   * within its floor and a ledger with room for both, succeeds.
   */
  lemma DepositWithdrawSucceeds(kinds: seq<AccountKind>, balances: seq<Cents>, free: nat, w: nat, d: Cents, x: Cents,
                                rest: seq<Step>)
    requires |kinds| == |balances| && w < |kinds| && InRange(rest, |kinds|)
    requires balances[w] >= Floor(kinds[w]) && 0 < x <= d && free >= 2
    ensures InRange([Step(w, Deposit(d)), Step(w, Withdraw(x))] + rest, |kinds|)
    ensures RunSteps(kinds, balances, free, [Step(w, Deposit(d)), Step(w, Withdraw(x))] + rest) ==
              RunSteps(kinds, balances[w := balances[w] + d - x], free - 2, rest)
  {
    var r1 := [Step(w, Withdraw(x))] + rest;
    assert [Step(w, Deposit(d)), Step(w, Withdraw(x))] + rest == [Step(w, Deposit(d))] + r1;
    var b := balances[w := balances[w] + d];
    assert b[w := b[w] - x] == balances[w := balances[w] + d - x];
    WithdrawSucceeds(kinds, b, free - 1, w, x, rest);
    DepositSucceeds(kinds, balances, free, w, d, r1);
  }

  /** The opening calls on the third and fourth accounts succeed on balances within their floors. */
  lemma OpeningTailSucceeds(kinds: seq<AccountKind>, balances: seq<Cents>, free: nat, rest: seq<Step>)
    requires |kinds| == |balances| >= 5 && WithinFloors(kinds, balances)
    requires InRange(rest, |kinds|) && free >= 3
    ensures InRange(Opening[4..] + rest, |kinds|)
    ensures RunSteps(kinds, balances, free, Opening[4..] + rest) ==
              RunSteps(kinds, balances[2 := balances[2] + 500000][3 := balances[3] + 700000], free - 3, rest)
  {
    var r := [Step(3, Deposit(1000000)), Step(3, Withdraw(300000))] + rest;
    assert Opening[4..] + rest == [Step(2, Deposit(500000))] + r;
    var b := balances[2 := balances[2] + 500000];
    assert b[3] == balances[3];
    DepositWithdrawSucceeds(kinds, b, free - 1, 3, 1000000, 300000, rest);
    DepositSucceeds(kinds, balances, free, 2, 500000, r);
  }

  /** The opening calls all succeed on balances within their floors. */
  lemma OpeningSucceeds(kinds: seq<AccountKind>, balances: seq<Cents>, free: nat, rest: seq<Step>)
    requires |kinds| == |balances| >= 5 && WithinFloors(kinds, balances)
    requires InRange(rest, |kinds|) && free >= |Opening|
    ensures InRange(Opening + rest, |kinds|)
    ensures RunSteps(kinds, balances, free, Opening + rest) ==
              RunSteps(kinds, balances[0 := balances[0] + 100000][1 := balances[1] + 55000]
                                     [2 := balances[2] + 500000][3 := balances[3] + 700000],
                       free - |Opening|, rest)
  {
    var r2 := Opening[4..] + rest;
    var r1 := [Step(1, Deposit(75000)), Step(1, Withdraw(20000))] + r2;
    assert Opening + rest == [Step(0, Deposit(150000)), Step(0, Withdraw(50000))] + r1;
    var b1 := balances[0 := balances[0] + 100000];
    var b2 := b1[1 := balances[1] + 55000];
    assert b1[1] == balances[1] && b2[2] == balances[2] && b2[3] == balances[3];
    var target := balances[0 := balances[0] + 100000][1 := balances[1] + 55000]
                          [2 := balances[2] + 500000][3 := balances[3] + 700000];
    assert b2[2 := b2[2] + 500000][3 := b2[3] + 700000] == target;
    OpeningTailSucceeds(kinds, b2, free - 4, rest);
    assert RunSteps(kinds, b2, free - 4, r2) == RunSteps(kinds, target, free - |Opening|, rest);
    DepositWithdrawSucceeds(kinds, b1, free - 2, 1, 75000, 20000, r2);
    assert b1[1 := b1[1] + 75000 - 20000] == b2;
    DepositWithdrawSucceeds(kinds, balances, free, 0, 150000, 50000, r1);
    assert balances[0 := balances[0] + 150000 - 50000] == b1;
  }

  /** The transfer succeeds when the fourth account holds at least $1,000. */
  lemma TransferSucceeds(kinds: seq<AccountKind>, balances: seq<Cents>, free: nat, rest: seq<Step>)
    requires |kinds| == |balances| >= 5 && TransferRuns(kinds) && balances[3] >= 100000
    requires InRange(rest, |kinds|) && free >= |TransferLeg|
    ensures InRange(TransferLeg + rest, |kinds|)
    ensures RunSteps(kinds, balances, free, TransferLeg + rest) ==
              RunSteps(kinds, balances[3 := balances[3] - 200000][0 := balances[0] + 200000], free - 2, rest)
  {
    TypesNotBlank();
    var r1 := [Step(0, DepositAs(200000, "Transfer In"))] + rest;
    assert TransferLeg + rest == [Step(3, WithdrawAs(200000, "Transfer Out"))] + r1;
    var b := balances[3 := balances[3] - 200000];
    StepThen(kinds, b, free - 1, Step(0, DepositAs(200000, "Transfer In")), rest, b[0] + 200000);
    StepThen(kinds, balances, free, Step(3, WithdrawAs(200000, "Transfer Out")), r1, balances[3] - 200000);
  }

  /** The closing deposit succeeds on a ledger with room. */
  lemma ClosingSucceeds(kinds: seq<AccountKind>, balances: seq<Cents>, free: nat)
    requires |kinds| == |balances| >= 5 && free >= |Closing|
    ensures RunSteps(kinds, balances, free, Closing) == Outcome(balances[4 := balances[4] + 25000], free - 1)
  {
    TypesNotBlank();
    assert Closing == [Step(4, Deposit(25000))] + [];
    StepThen(kinds, balances, free, Step(4, Deposit(25000)), [], balances[4] + 25000);
  }

  /**
   * With room for every entry and balances at or above their floors, every
   * call of the script succeeds: the first account gains $1,000 (plus the
   * transfer), the second $550, the third $5,000, the fourth $7,000 (less
   * the transfer) and the fifth $250, and each call records one entry.
   */
  lemma SampleStepsSucceed(kinds: seq<AccountKind>, balances: seq<Cents>, free: nat)
    requires |kinds| == |balances| >= 5 && WithinFloors(kinds, balances)
    requires free >= |SampleSteps(kinds)|
    ensures var t := if TransferRuns(kinds) then 200000 else 0;
            RunSteps(kinds, balances, free, SampleSteps(kinds)) ==
              Outcome(balances[0 := balances[0] + 100000 + t][1 := balances[1] + 55000][2 := balances[2] + 500000]
                              [3 := balances[3] + 700000 - t][4 := balances[4] + 25000],
                      free - |SampleSteps(kinds)|)
  {
    if TransferRuns(kinds) {
      assert SampleSteps(kinds) == Opening + TransferLeg + Closing;
      ScriptWithTransfer(kinds, balances, free);
    } else {
      assert SampleSteps(kinds) == Opening + Closing;
      ScriptWithoutTransfer(kinds, balances, free);
    }
  }

  /** `SampleSteps` when the transfer runs. */
  lemma ScriptWithTransfer(kinds: seq<AccountKind>, balances: seq<Cents>, free: nat)
    requires |kinds| == |balances| >= 5 && WithinFloors(kinds, balances) && TransferRuns(kinds)
    requires free >= |Opening + TransferLeg + Closing|
    ensures RunSteps(kinds, balances, free, Opening + TransferLeg + Closing) ==
              Outcome(balances[0 := balances[0] + 300000][1 := balances[1] + 55000][2 := balances[2] + 500000]
                              [3 := balances[3] + 500000][4 := balances[4] + 25000],
                      free - |Opening + TransferLeg + Closing|)
  {
    var rest := TransferLeg + Closing;
    assert Opening + TransferLeg + Closing == Opening + rest;
    var b := balances[0 := balances[0] + 100000][1 := balances[1] + 55000]
                     [2 := balances[2] + 500000][3 := balances[3] + 700000];
    assert InRange(rest, |kinds|);
    OpeningSucceeds(kinds, balances, free, rest);
    assert balances[3] >= Floor(kinds[3]);
    TransferSucceeds(kinds, b, free - 7, Closing);
    var c := b[3 := b[3] - 200000][0 := b[0] + 200000];
    ClosingSucceeds(kinds, c, free - 9);
    TransferTotals(balances);
  }

  /** The opening calls, the transfer and the closing deposit add up per account. */
  lemma TransferTotals(balances: seq<Cents>)
    requires |balances| >= 5
    ensures var b := balances[0 := balances[0] + 100000][1 := balances[1] + 55000]
                             [2 := balances[2] + 500000][3 := balances[3] + 700000];
            var c := b[3 := b[3] - 200000][0 := b[0] + 200000];
            c[4 := c[4] + 25000] == balances[0 := balances[0] + 300000][1 := balances[1] + 55000]
                                            [2 := balances[2] + 500000][3 := balances[3] + 500000]
                                            [4 := balances[4] + 25000]
  {
  }

  /** `SampleSteps` when the transfer is skipped. */
  lemma ScriptWithoutTransfer(kinds: seq<AccountKind>, balances: seq<Cents>, free: nat)
    requires |kinds| == |balances| >= 5 && WithinFloors(kinds, balances)
    requires free >= |Opening + Closing|
    ensures RunSteps(kinds, balances, free, Opening + Closing) ==
              Outcome(balances[0 := balances[0] + 100000][1 := balances[1] + 55000][2 := balances[2] + 500000]
                              [3 := balances[3] + 700000][4 := balances[4] + 25000],
                      free - |Opening + Closing|)
  {
    var b := balances[0 := balances[0] + 100000][1 := balances[1] + 55000]
                     [2 := balances[2] + 500000][3 := balances[3] + 700000];
    OpeningSucceeds(kinds, balances, free, Closing);
    ClosingSucceeds(kinds, b, free - 7);
  }

  /** The sum of the balances. */
  function Sum(balances: seq<Cents>): int
  {
    if balances == [] then 0 else balances[0] + Sum(balances[1..])
  }

  /** Changing one balance changes the sum by the difference. */
  lemma {:induction false} SumUpdate(balances: seq<Cents>, i: nat, v: Cents)
    requires i < |balances|
    ensures Sum(balances[i := v]) == Sum(balances) - balances[i] + v
  {
    if i > 0 {
      SumUpdate(balances[1..], i - 1, v);
      assert balances[i := v][1..] == balances[1..][i - 1 := v];
    }
  }

  /**
   * The script adds $13,800 to the accounts in all: the transfer, when it
   * runs, moves money between two of them and creates none.
   */
  lemma SampleStepsNet(kinds: seq<AccountKind>, balances: seq<Cents>, free: nat)
    requires |kinds| == |balances| >= 5 && WithinFloors(kinds, balances)
    requires free >= |SampleSteps(kinds)|
    ensures Sum(RunSteps(kinds, balances, free, SampleSteps(kinds)).balances) == Sum(balances) + 1380000
  {
    SampleStepsSucceed(kinds, balances, free);
    var t := if TransferRuns(kinds) then 200000 else 0;
    var b0 := balances[0 := balances[0] + 100000 + t];
    var b1 := b0[1 := balances[1] + 55000];
    var b2 := b1[2 := balances[2] + 500000];
    var b3 := b2[3 := balances[3] + 700000 - t];
    SumUpdate(balances, 0, balances[0] + 100000 + t);
    SumUpdate(b0, 1, balances[1] + 55000);
    SumUpdate(b1, 2, balances[2] + 500000);
    SumUpdate(b2, 3, balances[3] + 700000 - t);
    SumUpdate(b3, 4, balances[4] + 25000);
  }

  /**
   * On a full ledger the script stops at its first call, which has already
   * raised the first account's balance by $1,500 without recording it.
   */
  lemma SampleStepsOnFullLedger(kinds: seq<AccountKind>, balances: seq<Cents>)
    requires |kinds| == |balances| >= 5
    ensures RunSteps(kinds, balances, 0, SampleSteps(kinds)) == Outcome(balances[0 := balances[0] + 150000], 0)
  {
    TypesNotBlank();
  }

  // ------------------------------------------------------------- the listing

  /** The kinds of the listed accounts. */
  function KindsOf(all: seq<Account>): (kinds: seq<AccountKind>)
    ensures |kinds| == |all|
  {
    seq(|all|, i requires 0 <= i < |all| => all[i].kind)
  }

  /** The balances of the listed accounts. */
  function BalancesOf(all: seq<Account>): (balances: seq<Cents>)
    reads set i | 0 <= i < |all| :: all[i]
    ensures |balances| == |all|
  {
    seq(|all|, i requires 0 <= i < |all| reads set j | 0 <= j < |all| :: all[j] => all[i].balance)
  }

  /** `all` lists every account of the registry once. */
  predicate Listed(all: seq<Account>, manager: AccountManager)
    reads manager
  {
    |all| == |manager.accounts| &&
    (forall i | 0 <= i < |all| :: all[i].number in manager.accounts && manager.accounts[all[i].number] == all[i]) &&
    (forall i, j | 0 <= i < j < |all| :: all[i].number != all[j].number)
  }

  /** getAllAccounts().toArray(): the accounts in the map's iteration order, which is left open. */
  method ListAccounts(manager: AccountManager) returns (all: seq<Account>)
    requires manager.Valid()
    ensures Listed(all, manager)
  {
    var remaining := manager.accounts.Keys;
    all := [];
    while remaining != {}
      invariant remaining <= manager.accounts.Keys
      invariant |all| + |remaining| == |manager.accounts|
      invariant forall i | 0 <= i < |all| ::
                  all[i].number in manager.accounts && manager.accounts[all[i].number] == all[i] &&
                  all[i].number !in remaining
      invariant forall i, j | 0 <= i < j < |all| :: all[i].number != all[j].number
      decreases remaining
    {
      var n :| n in remaining;
      all := all + [manager.accounts[n]];
      remaining := remaining - {n};
    }
  }

  /** One call of the script on one account: ok when it did not throw. */
  method Call(account: Account, op: Op, now: Timestamp) returns (ok: bool)
    requires account.Valid()
    modifies account, account.ledger, account.ledger.slots, account.txnIds
    ensures account.Valid()
    ensures var leg := RunLeg(Decide(account.kind, old(account.balance), op), old(account.balance),
                              MaxTransactions - old(account.ledger.count));
            account.balance == leg.balance && account.ledger.count == old(account.ledger.count) + leg.recorded &&
            (ok <==> leg.result.Ok?)
  {
    match op {
      case Deposit(a) =>
        var r := account.Deposit(a, now);
        ok := r.Ok?;
      case Withdraw(a) =>
        var r := account.Withdraw(a, now);
        ok := r.Ok?;
      case DepositAs(a, t) =>
        var r := account.DepositWithType(a, t, now);
        ok := r.Ok?;
      case WithdrawAs(a, t) =>
        var r := account.WithdrawWithType(a, t, now);
        ok := r.Ok?;
    }
  }

  // ------------------------------------------------------ what seeding files

  /** The number the `k`th sample takes when the account counter starts at `base`. */
  function SampleNumber(base: nat, k: nat): string
  {
    AccountNumber(base + k + 1)
  }

  /**
   * The registry `accounts` is `before` with the first `m` samples filed
   * under the numbers that follow `base`, with the samples' kinds and owner
   * kinds.
   */
  predicate Filed(accounts: map<string, Account>, before: map<string, Account>, base: nat, m: nat)
    requires m <= |Samples|
  {
    (forall n | n in before :: n in accounts && accounts[n] == before[n]) &&
    (forall n | n in accounts :: n in before || exists k | 0 <= k < m :: n == SampleNumber(base, k)) &&
    (forall k | 0 <= k < m ::
       SampleNumber(base, k) !in before && SampleNumber(base, k) in accounts &&
       accounts[SampleNumber(base, k)].kind == Samples[k].kind &&
       accounts[SampleNumber(base, k)].customer.kind == Samples[k].owner)
  }

  /** Filing the next sample's account under its number extends what is filed by one. */
  lemma FiledNext(accounts: map<string, Account>, before: map<string, Account>, base: nat, m: nat, a: Account)
    requires m < |Samples| && Filed(accounts, before, base, m)
    requires SampleNumber(base, m) !in accounts
    requires a.kind == Samples[m].kind && a.customer.kind == Samples[m].owner
    ensures Filed(accounts[SampleNumber(base, m) := a], before, base, m + 1)
  {
    var after := accounts[SampleNumber(base, m) := a];
    forall k | 0 <= k < m
      ensures after[SampleNumber(base, k)] == accounts[SampleNumber(base, k)]
    {
      AccountNumbersDistinct(base + k + 1, base + m + 1);
    }
  }

  /** Filing the next sample's account keeps the opening balances of those filed before it. */
  lemma DepositsNext(accounts: map<string, Account>, base: nat, m: nat, a: Account)
    requires m < |Samples| && a.balance == Samples[m].deposit
    requires forall j | 0 <= j < m :: SampleNumber(base, j) in accounts &&
                                      accounts[SampleNumber(base, j)].balance == Samples[j].deposit
    ensures var after := accounts[SampleNumber(base, m) := a];
            forall j | 0 <= j < m + 1 :: after[SampleNumber(base, j)].balance == Samples[j].deposit
  {
    var after := accounts[SampleNumber(base, m) := a];
    forall j | 0 <= j < m + 1
      ensures after[SampleNumber(base, j)].balance == Samples[j].deposit
    {
      if j < m {
        AccountNumbersDistinct(base + j + 1, base + m + 1);
      }
    }
  }

  /** The numbers the five samples would take are all free. */
  predicate NumbersFree(accounts: map<string, Account>, base: nat)
  {
    forall k | 0 <= k < |Samples| :: SampleNumber(base, k) !in accounts
  }

  /** When the samples' numbers were free, the next one still is. */
  lemma NextNumberFree(accounts: map<string, Account>, before: map<string, Account>, base: nat, m: nat)
    requires m < |Samples| && Filed(accounts, before, base, m) && NumbersFree(before, base)
    ensures SampleNumber(base, m) !in accounts
  {
    if SampleNumber(base, m) in accounts {
      var k :| 0 <= k < m && SampleNumber(base, m) == SampleNumber(base, k);
      AccountNumbersDistinct(base + k + 1, base + m + 1);
    }
  }

  // ------------------------------------------------------------ the seeder

  class DataSeeder {
    var dataSeeded: bool
    const manager: AccountManager

    constructor(manager: AccountManager)
      ensures this.manager == manager && !dataSeeded
    {
      this.manager := manager;
      dataSeeded := false;
    }

    /** The free ledger slots. */
    function Free(): nat
      reads this, manager, manager.ledger
      requires manager.ledger.Valid()
    {
      MaxTransactions - manager.ledger.count
    }

    /**
     * One scripted call, `s`, the `k`th of the script, on the listed
     * account it names: ok when the call did not throw. The script runs as
     * RunSteps says: after a call that succeeded, on from step `k + 1` in
     * the new state; after one that threw, not at all.
     */
    method Perform(all: seq<Account>, s: Step, ghost script: seq<Step>, ghost k: nat, now: Timestamp) returns (ok: bool)
      requires manager.Valid() && Listed(all, manager)
      requires k < |script| && script[k] == s && InRange(script, |all|)
      modifies manager.accounts.Values, manager.ledger, manager.ledger.slots, manager.txnIds
      ensures manager.Valid() && Listed(all, manager)
      ensures var out := RunSteps(KindsOf(all), old(BalancesOf(all)), old(Free()), script[k..]);
              if ok then out == RunSteps(KindsOf(all), BalancesOf(all), Free(), script[k + 1..])
              else out == Outcome(BalancesOf(all), Free())
    {
      assert s.who < |all|;
      var account := all[s.who];
      assert account.number in manager.accounts && manager.accounts[account.number] == account;
      ghost var leg := RunLeg(Decide(account.kind, account.balance, s.op), account.balance, Free());
      ghost var before := BalancesOf(all);
      ok := Call(account, s.op, now);
      assert BalancesOf(all) == before[s.who := leg.balance];
    }

    /** Two consecutive scripted calls, `s` and then `t`, stopping at the first that throws. */
    method PerformTwo(all: seq<Account>, s: Step, t: Step, ghost script: seq<Step>, ghost k: nat, now: Timestamp)
      returns (ok: bool)
      requires manager.Valid() && Listed(all, manager)
      requires k + 1 < |script| && script[k] == s && script[k + 1] == t && InRange(script, |all|)
      modifies manager.accounts.Values, manager.ledger, manager.ledger.slots, manager.txnIds
      ensures manager.Valid() && Listed(all, manager)
      ensures var out := RunSteps(KindsOf(all), old(BalancesOf(all)), old(Free()), script[k..]);
              if ok then out == RunSteps(KindsOf(all), BalancesOf(all), Free(), script[k + 2..])
              else out == Outcome(BalancesOf(all), Free())
    {
      ok := Perform(all, s, script, k, now);
      if ok {
        ok := Perform(all, t, script, k + 1, now);
      }
    }

    /**
     * One sample account, as seedAccounts creates each: the customer record,
     * then the account (savings or checking), then addAccount. Fails with
     * the first exception any of them throws.
     */
    method SeedOne(s: Sample, now: Timestamp) returns (r: Result<Account>)
      requires manager.Valid()
      modifies manager, manager.customerIds, manager.accountIds, manager.ledger, manager.ledger.slots, manager.txnIds
      ensures manager.Valid()
      ensures var number := AccountNumber(old(manager.accountIds.value) + 1);
              r.Ok? <==> Acceptable(s) && (s.kind == Checking ==> old(manager.ledger.count) < MaxTransactions) &&
                         number !in old(manager.accounts)
      ensures manager.accountIds.value == old(manager.accountIds.value) +
                if OwnerAcceptable(s) && (s.kind == Checking || s.deposit >= MinimumBalance) then 1 else 0
      ensures manager.ledger.count <= old(manager.ledger.count) + 1
      ensures r.Ok? ==>
                var number := AccountNumber(old(manager.accountIds.value) + 1);
                fresh(r.value) && r.value.number == number && r.value.kind == s.kind &&
                r.value.customer.kind == s.owner && r.value.balance == s.deposit &&
                manager.accounts == old(manager.accounts)[number := r.value] &&
                manager.accountCount == old(manager.accountCount) + 1
      ensures r.Err? ==> manager.accounts == old(manager.accounts) && manager.accountCount == old(manager.accountCount)
    {
      var customer := Customer.Create(s.owner, s.name, s.age, s.contact, s.address, manager.customerIds);
      if customer.Err? {
        return Err(customer.error);
      }
      var account: Result<Account>;
      if s.kind == Savings {
        account := Account.OpenSavings(customer.value, s.deposit, manager.accountIds, manager.ledger, manager.txnIds, now);
      } else {
        account := Account.OpenChecking(customer.value, s.deposit, manager.accountIds, manager.ledger, manager.txnIds, now);
      }
      if account.Err? {
        return Err(account.error);
      }
      var added := manager.AddAccount(account.value);
      if added.Err? {
        return Err(added.error);
      }
      r := Ok(account.value);
    }

    /**
     * After the first `k` samples: the registry is `before` with them filed
     * (with their opening deposits as balances) and counted.
     */
    predicate Progress(before: map<string, Account>, base: nat, count: int, k: nat)
      requires k <= |Samples|
      reads this, manager, manager.accounts.Values
    {
      manager.accountCount == count + k && Filed(manager.accounts, before, base, k) &&
      forall j | 0 <= j < k :: manager.accounts[SampleNumber(base, j)].balance == Samples[j].deposit
    }

    /** The `k`th sample account, on a registry holding the first `k`. */
    method SeedNext(k: nat, ghost before: map<string, Account>, ghost base: nat, ghost count: int, now: Timestamp)
      returns (r: Result<Account>)
      requires manager.Valid() && k < |Samples| && Progress(before, base, count, k)
      requires manager.accountIds.value == base + k
      modifies manager, manager.customerIds, manager.accountIds, manager.ledger, manager.ledger.slots, manager.txnIds
      ensures manager.Valid()
      ensures manager.ledger.count <= old(manager.ledger.count) + 1
      ensures r.Ok? <==> (Samples[k].kind == Checking ==> old(manager.ledger.count) < MaxTransactions) &&
                         SampleNumber(base, k) !in old(manager.accounts)
      ensures r.Ok? ==> Progress(before, base, count, k + 1) && manager.accountIds.value == base + k + 1
      ensures r.Ok? ==> fresh(r.value) && manager.accounts == old(manager.accounts)[SampleNumber(base, k) := r.value]
      ensures r.Err? ==> Progress(before, base, count, k) && manager.accounts == old(manager.accounts)
    {
      SamplesAcceptable();
      ghost var number := SampleNumber(base, k);
      ghost var sample := Samples[k];
      assert Acceptable(sample);
      r := SeedOne(Samples[k], now);
      if r.Ok? {
        assert manager.accounts == old(manager.accounts)[number := r.value];
        FiledNext(old(manager.accounts), before, base, k, r.value);
        DepositsNext(old(manager.accounts), base, k, r.value);
      }
    }

    /**
     * seedAccounts: creates the five sample accounts in the order of the
     * table; the first failure ends it, and the accounts already filed stay.
     */
    method SeedAccounts(now: Timestamp) returns (ok: bool)
      requires manager.Valid()
      modifies manager, manager.customerIds, manager.accountIds, manager.ledger, manager.ledger.slots, manager.txnIds
      ensures manager.Valid()
      ensures old(manager.accountCount) <= manager.accountCount <= old(manager.accountCount) + |Samples|
      ensures Progress(old(manager.accounts), old(manager.accountIds.value), old(manager.accountCount),
                       manager.accountCount - old(manager.accountCount))
      ensures ok <==> manager.accountCount == old(manager.accountCount) + |Samples|
      ensures (old(manager.ledger.count) + 4 <= MaxTransactions &&
               NumbersFree(old(manager.accounts), old(manager.accountIds.value))) ==> ok
      ensures forall n | n in manager.accounts && n !in old(manager.accounts) :: fresh(manager.accounts[n])
    {
      ghost var before := manager.accounts;
      ghost var base := manager.accountIds.value;
      ghost var count := manager.accountCount;
      ghost var entries := manager.ledger.count;
      ghost var free := entries + 4 <= MaxTransactions && NumbersFree(before, base);
      var k := 0;
      while k < |Samples|
        invariant 0 <= k <= |Samples| && manager.Valid()
        invariant Progress(before, base, count, k) && manager.accountIds.value == base + k
        invariant manager.ledger.count <= entries + k
        invariant forall n | n in manager.accounts && n !in before :: fresh(manager.accounts[n])
      {
        if free {
          NextNumberFree(manager.accounts, before, base, k);
          CheckingSamplesFirst();
        }
        ghost var filed := manager.accounts;
        var r := SeedNext(k, before, base, count, now);
        if r.Err? {
          return false;
        }
        forall n | n in manager.accounts && n !in before
          ensures fresh(manager.accounts[n])
        {
          if n != SampleNumber(base, k) {
            assert manager.accounts[n] == filed[n];
          }
        }
        k := k + 1;
      }
      ok := true;
    }

    /**
     * The script's calls on the first three listed accounts, stopping at
     * the first that throws: ok when none did.
     */
    method RunFirstAccounts(all: seq<Account>, ghost script: seq<Step>, now: Timestamp) returns (ok: bool)
      requires manager.Valid() && Listed(all, manager)
      requires |all| >= 5 && script == SampleSteps(KindsOf(all))
      modifies manager.accounts.Values, manager.ledger, manager.ledger.slots, manager.txnIds
      ensures manager.Valid() && Listed(all, manager)
      ensures var out := RunSteps(KindsOf(all), old(BalancesOf(all)), old(Free()), script);
              if ok then out == RunSteps(KindsOf(all), BalancesOf(all), Free(), script[5..])
              else out == Outcome(BalancesOf(all), Free())
    {
      SampleStepsAt(KindsOf(all));
      assert script[0..] == script;
      ok := PerformTwo(all, Step(0, Deposit(150000)), Step(0, Withdraw(50000)), script, 0, now);
      if ok {
        ok := RunSecondThird(all, script, now);
      }
    }

    /** The script's calls on the second and third listed accounts, stopping at the first that throws. */
    method RunSecondThird(all: seq<Account>, ghost script: seq<Step>, now: Timestamp) returns (ok: bool)
      requires manager.Valid() && Listed(all, manager)
      requires |all| >= 5 && script == SampleSteps(KindsOf(all))
      modifies manager.accounts.Values, manager.ledger, manager.ledger.slots, manager.txnIds
      ensures manager.Valid() && Listed(all, manager)
      ensures var out := RunSteps(KindsOf(all), old(BalancesOf(all)), old(Free()), script[2..]);
              if ok then out == RunSteps(KindsOf(all), BalancesOf(all), Free(), script[5..])
              else out == Outcome(BalancesOf(all), Free())
    {
      ghost var target := RunSteps(KindsOf(all), BalancesOf(all), Free(), script[2..]);
      SampleStepsAt(KindsOf(all));
      ok := PerformTwo(all, Step(1, Deposit(75000)), Step(1, Withdraw(20000)), script, 2, now);
      if !ok { return; }
      assert target == RunSteps(KindsOf(all), BalancesOf(all), Free(), script[4..]);
      ok := Perform(all, Step(2, Deposit(500000)), script, 4, now);
    }

    /**
     * The rest of the script: the fourth account, then the transfer and the
     * fifth account; the first call that throws ends it.
     */
    method RunLastAccounts(all: seq<Account>, ghost script: seq<Step>, now: Timestamp)
      requires manager.Valid() && Listed(all, manager)
      requires |all| >= 5 && script == SampleSteps(KindsOf(all))
      modifies manager.accounts.Values, manager.ledger, manager.ledger.slots, manager.txnIds
      ensures manager.Valid() && Listed(all, manager)
      ensures var out := RunSteps(KindsOf(all), old(BalancesOf(all)), old(Free()), script[5..]);
              BalancesOf(all) == out.balances && Free() == out.free
    {
      SampleStepsAt(KindsOf(all));
      var ok := PerformTwo(all, Step(3, Deposit(1000000)), Step(3, Withdraw(300000)), script, 5, now);
      if ok {
        RunClosing(all, script, now);
      }
    }

    /**
     * The transfer from the fourth account to the first, when the fourth is
     * a checking account and the first a savings one, and then the fifth
     * account; the first call that throws ends it.
     */
    method RunClosing(all: seq<Account>, ghost script: seq<Step>, now: Timestamp)
      requires manager.Valid() && Listed(all, manager)
      requires |all| >= 5 && script == SampleSteps(KindsOf(all))
      modifies manager.accounts.Values, manager.ledger, manager.ledger.slots, manager.txnIds
      ensures manager.Valid() && Listed(all, manager)
      ensures var out := RunSteps(KindsOf(all), old(BalancesOf(all)), old(Free()), script[7..]);
              BalancesOf(all) == out.balances && Free() == out.free
    {
      ghost var target := RunSteps(KindsOf(all), BalancesOf(all), Free(), script[7..]);
      SampleStepsAt(KindsOf(all));
      ghost var k := 7;
      var ok := true;
      if all[3].kind == Checking && all[0].kind == Savings {
        ok := PerformTwo(all, Step(3, WithdrawAs(200000, "Transfer Out")), Step(0, DepositAs(200000, "Transfer In")),
                         script, 7, now);
        if !ok { return; }
        k := 9;
      }
      assert target == RunSteps(KindsOf(all), BalancesOf(all), Free(), script[k..]);
      ok := Perform(all, Step(4, Deposit(25000)), script, k, now);
      assert script[k + 1..] == [];
    }

    /**
     * seedTransactions: lists the registry and, when it holds at least five
     * accounts, runs the sample script on the first five listed; the first
     * call that throws ends the script, and the error is swallowed.
     */
    method SeedTransactions(now: Timestamp) returns (listed: seq<Account>)
      requires manager.Valid()
      modifies manager.accounts.Values, manager.ledger, manager.ledger.slots, manager.txnIds
      ensures manager.Valid() && Listed(listed, manager)
      ensures |listed| < 5 ==> BalancesOf(listed) == old(BalancesOf(listed)) && Free() == old(Free())
      ensures |listed| >= 5 ==>
                var out := RunSteps(KindsOf(listed), old(BalancesOf(listed)), old(Free()), SampleSteps(KindsOf(listed)));
                BalancesOf(listed) == out.balances && Free() == out.free
    {
      listed := ListAccounts(manager);
      if |listed| < 5 {
        return;
      }
      ghost var script := SampleSteps(KindsOf(listed));
      var ok := RunFirstAccounts(listed, script, now);
      if ok {
        RunLastAccounts(listed, script, now);
      }
    }

    /**
     * seedInitialData: does nothing once seeded; marks a registry that
     * already counts accounts as seeded without touching it; otherwise
     * creates the sample accounts and, when all five were created, runs the
     * sample script and marks the data seeded. A failure while creating the
     * accounts leaves the flag clear and keeps what was created.
     */
    method SeedInitialData(now: Timestamp)
      requires manager.Valid()
      modifies this, manager, manager.customerIds, manager.accountIds, manager.ledger, manager.ledger.slots,
               manager.txnIds, manager.accounts.Values
      ensures manager.Valid()
      ensures old(dataSeeded) ==>
                dataSeeded && unchanged(manager, manager.ledger, manager.accountIds) &&
                unchanged(manager.accounts.Values, manager.ledger.slots, manager.customerIds, manager.txnIds)
      ensures !old(dataSeeded) && old(manager.accountCount) > 0 ==>
                dataSeeded && unchanged(manager, manager.ledger, manager.accountIds) &&
                unchanged(manager.accounts.Values, manager.ledger.slots, manager.customerIds, manager.txnIds)
      ensures !old(dataSeeded) && old(manager.accountCount) <= 0 ==>
                old(manager.accountCount) <= manager.accountCount <= old(manager.accountCount) + |Samples| &&
                Filed(manager.accounts, old(manager.accounts), old(manager.accountIds.value),
                      manager.accountCount - old(manager.accountCount)) &&
                (dataSeeded <==> manager.accountCount == old(manager.accountCount) + |Samples|)
      ensures (!old(dataSeeded) && old(manager.accountCount) <= 0 && old(manager.ledger.count) + 4 <= MaxTransactions &&
               NumbersFree(old(manager.accounts), old(manager.accountIds.value))) ==> dataSeeded
    {
      if dataSeeded {
        return;
      }
      if manager.accountCount > 0 {
        dataSeeded := true;
        return;
      }
      var ok := SeedAccounts(now);
      if !ok {
        return;
      }
      var _ := SeedTransactions(now);
      dataSeeded := true;
    }

    /**
     * forceReseed: clears the flag and seeds again. A registry that already
     * counts accounts is only marked as seeded, so no account is created
     * twice.
     */
    method ForceReseed(now: Timestamp)
      requires manager.Valid()
      modifies this, manager, manager.customerIds, manager.accountIds, manager.ledger, manager.ledger.slots,
               manager.txnIds, manager.accounts.Values
      ensures manager.Valid()
      ensures old(manager.accountCount) > 0 ==>
                dataSeeded && unchanged(manager, manager.ledger, manager.accountIds) &&
                unchanged(manager.accounts.Values, manager.ledger.slots, manager.customerIds, manager.txnIds)
      ensures old(manager.accountCount) <= 0 ==>
                old(manager.accountCount) <= manager.accountCount <= old(manager.accountCount) + |Samples| &&
                Filed(manager.accounts, old(manager.accounts), old(manager.accountIds.value),
                      manager.accountCount - old(manager.accountCount)) &&
                (dataSeeded <==> manager.accountCount == old(manager.accountCount) + |Samples|)
    {
      dataSeeded := false;
      SeedInitialData(now);
    }
  }
}
