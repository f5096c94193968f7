# Bank account ledger

A model of the core of a console bank: customers open savings and checking
accounts, deposit, withdraw and transfer money, every committed operation is
recorded as an entry in one shared, fixed-capacity ledger, statements total an
account's entries, and accounts and entries are written to and read back from
pipe-separated text lines. The model covers:

- **Accounts** (`accounts.dfy`): one `Account` class for the abstract account
  and its two kinds. It has the overdraft limit ($1,000) and monthly fee ($10)
  of checking, and the minimum balance ($500) and 3.5% interest of savings.
  Each operation is split into a pure decision function and a method. The
  method stores the new balance, then numbers an entry and appends it to the
  ledger.
- **Ledger** (`ledger.dfy`): the transaction manager as an array of 200
  slots with a count. It covers append, index lookup, a sort most recent
  first, and the per-account view.
- **Registry** (`registry.dfy`): the account manager, a map from account
  number to account. It covers adding, finding, creating and totalling
  accounts, and dispatching deposit, withdrawal and transfer requests. The
  state changes are tied to pure functions over the map of balances and the
  number of free ledger slots.
- **Customers, counters, entries** (`customers.dfy`, `counters.dfy`,
  `transactions.dfy`): the validating and the file-loading customer
  constructors, the premium customer's extras, and the static id counters.
- **File lines** (`fileio.dfy`, with `text.dfy`, `money.dfy`, `clock.dfy` for
  trimming, splitting, `%03d`, `%.2f` and the `dd-MM-yyyy hh:mm:ss a`
  timestamp): serializing and deserializing entries and accounts, and the two
  load loops.
- **Statements and functional helpers** (`statements.dfy`, `functional.dfy`,
  with the generic `sorting.dfy` and `sequences.dfy`).
- **Console input** (`validation.dfy`, `creation_input.dfy`): the prompt
  loops and the account-creation form, with the console as a list of lines.
- **Seeding** (`seeder.dfy`): the five sample accounts and the sample script
  of deposits, withdrawals and one transfer.

Money is held in integer cents (`Cents`); the console is a sequence of input
lines, and a prompt that runs out of lines yields `None`. Clock readings are
parameters.

Where the repository's tests and its code disagree, the model follows the
code:

- A test adds 205 entries to the ledger, but the code caps it at 200.
- Tests expect OverdraftExceeded from a checking withdrawal past the overdraft
  limit. `withdraw` reports InsufficientFunds, because its earlier check
  already covers every amount the later OverdraftExceeded check would catch.

## Model

| member | source | states |
|---|---|---|
| Counters.Counter.constructor | src/main/java/com/miracle/src/models/Account.java:10 | a counter starts at the given value |
| Counters.Counter.Next | src/main/java/com/miracle/src/models/Account.java:24-26 | pre-increment: the counter grows by one and the new value is the one used |
| Counters.Counter.TakeAndAdvance | src/main/java/com/miracle/src/utils/FileIOUtils.java:359 | post-increment: the counter grows by one and the old value is the one used |
| Counters.Counter.RaiseTo | src/main/java/com/miracle/src/models/Customer.java:57-62 | the counter becomes the larger of its value and the given number, so it never decreases |
| Text.TrimShape | src/main/java/com/miracle/src/models/Customer.java:31-34 | trimming returns a contiguous slice of the input with no whitespace or control character at either end |
| Text.TrimOfUntrimmable | src/main/java/com/miracle/src/utils/FileIOUtils.java:189-191 | trimming text that has nothing to trim returns it unchanged |
| Text.BlankIffAllTrimmed | src/main/java/com/miracle/src/models/Account.java:112 | text is blank after trimming exactly when every character is at or below a space |
| Text.EqualsIgnoreCaseIffUpper | src/main/java/com/miracle/src/models/Account.java:118-125 | comparing ignoring case is the same as comparing the upper-cased texts |
| Text.SplitJoin | src/main/java/com/miracle/src/utils/FileIOUtils.java:187 | splitting on the separator the text joined with gives the fields back, when no field holds the separator and the last one is non-empty (trailing empty fields are dropped by the split) |
| Text.SplitOnJoin | src/main/java/com/miracle/src/utils/FileIOUtils.java:339 | the raw split of a join gives every field back, empty ones included |
| Text.DecimalRoundTrip | src/main/java/com/miracle/src/utils/FileIOUtils.java:320 | reading back the decimal text of a number gives the number |
| Text.ParseInt | src/main/java/com/miracle/src/utils/FileIOUtils.java:345 | whatever `Integer.parseInt` accepts lies in the 32-bit `int` range |
| Text.ParseIntDecimal | src/main/java/com/miracle/src/utils/FileIOUtils.java:345 | parsing the decimal text of a natural number gives it back when it fits in an `int`, and is refused when it does not |
| Text.Format3RoundTrip | src/main/java/com/miracle/src/models/Account.java:26 | `%03d` text is all digits, at least three of them, and reads back as the number |
| Text.Format3Injective | src/main/java/com/miracle/src/models/Account.java:26 | different numbers never get the same `%03d` text |
| Text.PrefixedIdInjective | src/main/java/com/miracle/src/models/Transaction.java:25 | different counter values give different prefixed ids |
| Text.ParseIntFormat3 | src/main/java/com/miracle/src/models/Customer.java:58 | parsing the digits of a `%03d` id gives the counter value back when it fits in an `int`, and is refused when it does not |
| Money.FormatCents | src/main/java/com/miracle/src/utils/FileIOUtils.java:302-303 | two-decimal amount text has no blank at either end and no pipe, so it survives a trim and a split |
| Money.CentsRoundTrip | src/main/java/com/miracle/src/utils/FileIOUtils.java:192-193 | parsing the two-decimal text of any amount, negative ones included, gives the amount back |
| Money.FormatCentsInjective | src/main/java/com/miracle/src/utils/FileIOUtils.java:326 | different amounts never print alike |
| Clock.TicksOrder | src/main/java/com/miracle/src/services/TransactionManager.java:93 | the integer key of a timestamp orders valid timestamps exactly as date-time comparison does, and equal keys mean equal timestamps |
| Clock.Parse | src/main/java/com/miracle/src/utils/FileIOUtils.java:194 | a successful parse yields a valid date and time, with a day the month has, and no fraction of a second; clock hours 00 to 12 are read |
| Clock.Resolve | src/main/java/com/miracle/src/models/Transaction.java:20-21 | a resolved timestamp is valid, with a day its month has, and has no fraction of a second |
| Clock.ResolveDay | src/main/java/com/miracle/src/models/Transaction.java:20-21 | fields resolve exactly when each is in range, with a clock hour from 0 to 12; the day is kept when the month has it, a later day becomes the month's last day, and clock hours 0 and 12 both give the first hour of the half-day |
| Clock.ResolveExamples | src/main/java/com/miracle/src/models/Transaction.java:20-21 | 31 February resolves to the 29th in 2024 and to the 28th in 2023 and 1900, 31 April to the 30th, 00:30 AM to 00:30 and 00:30 PM to 12:30, and a clock hour of 13 is refused |
| Clock.ClockHourBack | src/main/java/com/miracle/src/models/Transaction.java:20-21 | the 12-hour clock shows an hour from 1 to 12, and together with the AM/PM marker gives the 24-hour hour back |
| Clock.FormatSlices | src/main/java/com/miracle/src/models/Transaction.java:20-21 | the formatted timestamp is 22 characters: day, month, year, hour, minute, second and marker at fixed positions with their separators |
| Clock.FormatParseRoundTrip | src/main/java/com/miracle/src/models/Transaction.java:20-21 | parsing the formatted timestamp gives it back, less its fraction of a second |
| Clock.ParseClockHourZero | src/main/java/com/miracle/src/utils/FileIOUtils.java:194 | a stored line whose clock hour reads 00 instead of 12 parses to the same timestamp |
| Clock.FormatShape | src/main/java/com/miracle/src/utils/FileIOUtils.java:304 | a formatted timestamp has no blank at either end and no pipe |
| Transactions.NewTransaction | src/main/java/com/miracle/src/models/Transaction.java:23-31 | an entry takes the id getNextTransactionId announced, advances the counter by one, and stores the other fields as given with the current time |
| Transactions.TxnIdsDistinct | src/main/java/com/miracle/src/models/Transaction.java:25 | different counter values give different entry ids |
| Ledger.TransactionManager.constructor | src/main/java/com/miracle/src/services/TransactionManager.java:17-19 | a new ledger holds no entries |
| Ledger.TransactionManager.AddTransaction | src/main/java/com/miracle/src/services/TransactionManager.java:66-79 | a null entry and a full ledger are refused, in that order, and change nothing; otherwise the entry is appended after the existing ones |
| Ledger.TransactionManager.GetTransaction | src/main/java/com/miracle/src/services/TransactionManager.java:98-103 | an index in range returns that entry; any other index fails with the index in the message |
| Ledger.TransactionManager.TransactionCount | src/main/java/com/miracle/src/services/TransactionManager.java:105-107 | the count never exceeds the capacity of 200 |
| Ledger.TransactionManager.SortTransactions | src/main/java/com/miracle/src/services/TransactionManager.java:90-95 | the stored entries become a permutation of themselves sorted most recent first (the stable sort of the entries), and the unused slots stay as they were |
| Ledger.TransactionManager.StoreEntries | src/main/java/com/miracle/src/services/TransactionManager.java:92-94 | writing the sorted entries back leaves exactly them in the used slots |
| Ledger.TransactionManager.TransactionsByAccount | src/main/java/com/miracle/src/services/TransactionManager.java:81-86 | sorts the ledger, then returns the entries whose account number matches ignoring case, in ledger order |
| Customers.IdNumberOfCustomerId | src/main/java/com/miracle/src/models/Customer.java:57-58 | the number read back from a generated customer id is the counter value it was made from when that fits in an `int`; past that it does not parse |
| Customers.NextIdAvoidsLoaded | src/main/java/com/miracle/src/models/Customer.java:59-61 | once the counter has been raised to a loaded id's number, the next generated id differs from the loaded one |
| Customers.Customer.Make | src/main/java/com/miracle/src/models/Customer.java:17-36 | a customer record holds the fields it was given, with no minimum balance |
| Customers.Customer.Create | src/main/java/com/miracle/src/models/Customer.java:17-36 | name, age (18 to 120), contact and address are checked in that order, each failure with its own message and no id taken; otherwise the fields are stored trimmed and the next CUS id is taken |
| Customers.Customer.CreateFromFile | src/main/java/com/miracle/src/models/Customer.java:49-66 | a loaded customer keeps its id and trimmed fields; the counter is raised to the id's number when that parses as an `int` and is larger, and stays otherwise |
| Customers.Customer.SetName | src/main/java/com/miracle/src/models/Customer.java:69-71 | changes the name and nothing else |
| Customers.Customer.SetAge | src/main/java/com/miracle/src/models/Customer.java:73-75 | changes the age and nothing else |
| Customers.Customer.SetContact | src/main/java/com/miracle/src/models/Customer.java:77-79 | changes the contact and nothing else |
| Customers.Customer.SetAddress | src/main/java/com/miracle/src/models/Customer.java:81-83 | changes the address and nothing else |
| Customers.Customer.CustomerType | src/main/java/com/miracle/src/models/PremiumCustomer.java:24-27 | the type name is "Premium" exactly for premium customers, "Regular" otherwise |
| Customers.Customer.HasWaivedFees | src/main/java/com/miracle/src/models/PremiumCustomer.java:30-32 | premium customers always have their fees waived |
| Customers.Customer.SetMinimumBalance | src/main/java/com/miracle/src/models/PremiumCustomer.java:38-44 | a positive amount is stored; any other amount is refused and the old value kept |
| Accounts.AccountNumbersDistinct | src/main/java/com/miracle/src/models/Account.java:23-27 | different counter values give different account numbers |
| Accounts.WithdrawSucceedsIff | src/main/java/com/miracle/src/models/CheckingAccount.java:70-103 | withdraw succeeds exactly when the amount is positive and the balance after it stays at or above the account's floor (−$1,000 checking, $500 savings), and then leaves balance − amount |
| Accounts.WithdrawWithTypeSucceedsIff | src/main/java/com/miracle/src/models/SavingsAccount.java:119-171 | a typed withdrawal succeeds exactly when the amount is positive, the type is not blank (savings), and the floor holds |
| Accounts.ProcessKeepsFloor | src/main/java/com/miracle/src/models/Account.java:107-130 | no operation reached through processTransaction takes an account that respects its floor below it |
| Accounts.ProcessEntryAmount | src/main/java/com/miracle/src/models/CheckingAccount.java:98 | the entry processTransaction records carries the amount, except a checking "Withdrawal", which carries its negative |
| Accounts.ProcessRejectsNonPositive | src/main/java/com/miracle/src/models/Account.java:108-110 | a non-positive amount is refused as invalid whatever the type |
| Accounts.SenderDispatch | src/main/java/com/miracle/src/models/Account.java:122-123 | processTransaction(amount, "Transfer") is the typed withdrawal tagged "Transfer Out": below the floor checking reports OverdraftExceeded and savings InsufficientFunds |
| Accounts.ReceiverDispatch | src/main/java/com/miracle/src/models/Account.java:124-125 | processTransaction(amount, "Receive") is the typed deposit tagged "Transfer In", which succeeds for every positive amount |
| Accounts.TransferLegsBalance | src/main/java/com/miracle/src/services/AccountManager.java:215-218 | when the sender's leg of a transfer passes, the receiver's leg passes too, and the two new balances add up to the two old ones |
| Accounts.DepositWithdrawRestores | src/main/java/com/miracle/src/models/CheckingAccount.java:46-103 | any number of rounds of deposit(a) then withdraw(a) returns an account at or above its floor to its starting balance |
| Accounts.InterestOnThousand | src/main/java/com/miracle/src/models/SavingsAccount.java:175-177 | 3.5% of $1,000.00 is $35.00 |
| Accounts.RunLeg | src/main/java/com/miracle/src/models/CheckingAccount.java:51-59 | an operation records at most one entry, exactly when its decision passes with a move and the ledger has room; it succeeds exactly when the decision passes and any move finds room; the balance changes only when the decision passes with a move, and a full ledger does not prevent that change |
| Accounts.Account.Make | src/main/java/com/miracle/src/models/Account.java:17-27 | a new account holds the number, kind, customer and opening balance given, with status "Active" |
| Accounts.Account.UpdateBalance | src/main/java/com/miracle/src/models/Account.java:67-72 | stores exactly the given balance and returns it |
| Accounts.Account.SetStatus | src/main/java/com/miracle/src/models/Account.java:81-83 | changes the status and nothing else |
| Accounts.Account.Commit | src/main/java/com/miracle/src/models/CheckingAccount.java:51-59 | stores the new balance first, then numbers an entry and appends it; a full ledger fails after the balance has changed |
| Accounts.Account.DepositWithType | src/main/java/com/miracle/src/models/CheckingAccount.java:130-148 | checking returns no entry and changes nothing for a non-positive amount and ignores the type; savings refuses a non-positive amount and a blank type; otherwise the balance grows by the amount |
| Accounts.Account.Deposit | src/main/java/com/miracle/src/models/CheckingAccount.java:46-60 | a positive amount is added to the balance and recorded as "Deposit"; anything else is refused with no change |
| Accounts.Account.WithdrawWithType | src/main/java/com/miracle/src/models/SavingsAccount.java:119-171 | performs the typed withdrawal decision; a savings withdrawal below the minimum is refused with no change |
| Accounts.Account.Withdraw | src/main/java/com/miracle/src/models/CheckingAccount.java:70-103 | checking refuses amounts past the overdraft as InsufficientFunds and records −amount; savings refuses going below $500 and records the amount |
| Accounts.Account.ProcessTransaction | src/main/java/com/miracle/src/models/Account.java:107-130 | checks the amount, then a blank type, then dispatches on the type ignoring case; the new balance, the result and the entry count are those of the decision run against the free ledger slots |
| Accounts.Account.ApplyMonthlyFee | src/main/java/com/miracle/src/models/CheckingAccount.java:107-119 | premium customers pay nothing; a regular customer pays $10 when that keeps the balance within the overdraft, and otherwise nothing changes |
| Accounts.Account.CalculateInterest | src/main/java/com/miracle/src/models/SavingsAccount.java:175-177 | a savings account at or above its minimum earns at least $17.50 |
| Accounts.Account.OpenChecking | src/main/java/com/miracle/src/models/CheckingAccount.java:14-30 | the account number is taken first, so a refused deposit still uses one; a non-positive deposit is refused; otherwise the account opens with the deposit as balance and a "Deposit" entry, and a full ledger makes the opening fail after the number and entry id were taken |
| Accounts.Account.OpenSavings | src/main/java/com/miracle/src/models/SavingsAccount.java:16-43 | a deposit that is not positive, or is below $500, is refused before any number is taken; otherwise the account opens with the deposit as balance and a "Deposit" entry, and on a full ledger it opens without that entry |
| AccountManagement.TotalUpdate | src/main/java/com/miracle/src/services/AccountManager.java:138-143 | changing one balance changes the total by the difference |
| AccountManagement.Transfer | src/main/java/com/miracle/src/services/AccountManager.java:206-224 | a transfer keeps the set of accounts and never records more entries than the ledger has room for |
| AccountManagement.Send | src/main/java/com/miracle/src/services/AccountManager.java:213-223 | the sender's leg keeps the set of accounts and the ledger bound |
| AccountManagement.Settle | src/main/java/com/miracle/src/services/AccountManager.java:217-223 | the receiver's leg, with its refund, keeps the set of accounts and the ledger bound |
| AccountManagement.Refund | src/main/java/com/miracle/src/services/AccountManager.java:219-222 | the refund path always ends in failure and keeps the ledger bound |
| AccountManagement.Step | src/main/java/com/miracle/src/services/AccountManager.java:186-237 | any request keeps the set of accounts and never records more entries than there is room for |
| AccountManagement.RefundLeg | src/main/java/com/miracle/src/services/AccountManager.java:221 | the refund deposit of a positive amount always passes its checks |
| AccountManagement.TransferWithRoom | src/main/java/com/miracle/src/services/AccountManager.java:206-224 | with room for both entries, a transfer succeeds exactly when the receiver is named and known, the amount is positive and the sender stays above its floor; it then moves the amount, records two entries and keeps the total |
| AccountManagement.RefundOnFullLedger | src/main/java/com/miracle/src/services/AccountManager.java:219-222 | on a full ledger the refund still credits the sender, then fails |
| AccountManagement.SettleOnFullLedger | src/main/java/com/miracle/src/services/AccountManager.java:217-222 | on a full ledger the receiver is credited and the sender refunded, and the request fails |
| AccountManagement.SendWithOneSlot | src/main/java/com/miracle/src/services/AccountManager.java:215-222 | with one free slot, the sender is debited and recorded, the receiver credited, and the sender refunded, and the request fails |
| AccountManagement.SendPassed | src/main/java/com/miracle/src/services/AccountManager.java:215-218 | once the sender's leg passes, the rest of the transfer is the receiver's leg on the debited balances |
| AccountManagement.RefundRestores | src/main/java/com/miracle/src/services/AccountManager.java:219-221 | debiting then refunding the sender leaves only the receiver's credit |
| AccountManagement.TransferWithOneSlot | src/main/java/com/miracle/src/services/AccountManager.java:215-222 | with one free slot a valid transfer fails, yet the receiver keeps the credit and the sender gets the amount back |
| AccountManagement.TransferWithOneSlotCreatesMoney | src/main/java/com/miracle/src/services/AccountManager.java:215-222 | with one free slot a failed valid transfer raises the bank's total by the amount |
| AccountManagement.TransferOnFullLedger | src/main/java/com/miracle/src/services/AccountManager.java:215-217 | on a full ledger a valid transfer fails with IllegalState, records nothing and leaves the sender debited, with no refund |
| AccountManagement.TransferOnFullLedgerLosesMoney | src/main/java/com/miracle/src/services/AccountManager.java:215-217 | on a full ledger a failed valid transfer lowers the bank's total by the amount |
| AccountManagement.GuardedTransfer | src/main/java/com/miracle/src/services/TransactionManager.java:71-76 | a transfer that checks for room for both entries first keeps the set of accounts and the ledger bound |
| AccountManagement.GuardedTransferConserves | src/main/java/com/miracle/src/services/AccountManager.java:206-224 | with the room check first, a transfer keeps the total; on success it records two entries, and on failure it changes nothing |
| AccountManagement.SingleAccountStep | src/main/java/com/miracle/src/services/AccountManager.java:199-205 | a successful deposit or withdrawal request records one entry and changes the total by plus or minus the amount |
| AccountManagement.RejectedRequestChangesNothing | src/main/java/com/miracle/src/services/AccountManager.java:196-227 | a blank or unknown user account or an unknown request type fails with no balance changed and nothing recorded |
| AccountManagement.AccountManager.constructor | src/main/java/com/miracle/src/services/AccountManager.java:19-33 | a new registry holds no accounts and counts none |
| AccountManagement.AccountManager.AddAccount | src/main/java/com/miracle/src/services/AccountManager.java:41-54 | null and duplicate accounts are refused with no change; otherwise the account is filed under its number, counted and marked newly created |
| AccountManagement.AccountManager.AddAccountFromFile | src/main/java/com/miracle/src/services/AccountManager.java:60-73 | null is refused; a duplicate is skipped with false; otherwise the account is filed and counted but not marked newly created |
| AccountManagement.AccountManager.FindAccount | src/main/java/com/miracle/src/services/AccountManager.java:78-87 | finds an account exactly when the number is not blank and registered, and then returns the account under that number |
| AccountManagement.AccountManager.GetTotalBalance | src/main/java/com/miracle/src/services/AccountManager.java:138-143 | returns the sum of all balances |
| AccountManagement.AccountManager.CreateAccountInternal | src/main/java/com/miracle/src/services/AccountManager.java:155-168 | a missing request is refused; a request the customer checks reject takes no id; otherwise the customer and the account of the requested kinds are built from it |
| AccountManagement.AccountManager.CreateAccount | src/main/java/com/miracle/src/services/AccountManager.java:171-176 | on success exactly one new account is filed, under the latest account number, which was not filed before; the other accounts are kept; the new account is fresh, holds the requested initial deposit, has the requested account kind and customer kind and the latest customer id, and is marked newly created; on failure no account is filed |
| AccountManagement.AccountManager.RunProcess | src/main/java/com/miracle/src/services/AccountManager.java:199-205 | runs one account's processTransaction: the registry's balances and entry count become those of the leg's outcome; earlier entries are kept and the leg's own entry is appended, with the next entry number; the account's status is kept |
| AccountManagement.AccountManager.RunSend | src/main/java/com/miracle/src/services/AccountManager.java:215 | runs the sender's leg, with the outcome the sender's dispatch decides; earlier entries are kept, and on success one "Transfer Out" entry with the debited balance is appended; the sender's status is kept |
| AccountManagement.AccountManager.RunReceive | src/main/java/com/miracle/src/services/AccountManager.java:218 | runs the receiver's leg, with the outcome the receiver's dispatch decides; earlier entries are kept, and on success one "Transfer In" entry with the credited balance is appended; the receiver's status is kept |
| AccountManagement.AccountManager.RunDeposit | src/main/java/com/miracle/src/services/AccountManager.java:221 | runs the refund deposit, with the outcome of the deposit decision; earlier entries are kept and the deposit's entry, if any, is appended; the account's status is kept |
| AccountManagement.AccountManager.TransferFunds | src/main/java/com/miracle/src/services/AccountManager.java:206-224 | the registry ends in the state the transfer function gives, with its result; earlier entries are kept, the first new entry is the sender's "Transfer Out" with the debited balance, and a successful transfer appends exactly that entry and the receiver's "Transfer In" with consecutive entry numbers |
| AccountManagement.AccountManager.SendFunds | src/main/java/com/miracle/src/services/AccountManager.java:213-224 | the sender's leg followed by the rest, as the send function gives; earlier entries are kept, the first new entry is the "Transfer Out", and on success "Transfer In" follows it |
| AccountManagement.AccountManager.CreditReceiver | src/main/java/com/miracle/src/services/AccountManager.java:216-223 | the receiver's leg and, on its failure, the refund, as the settle function gives; earlier entries are kept, and on success one "Transfer In" entry is appended |
| AccountManagement.AccountManager.RefundSender | src/main/java/com/miracle/src/services/AccountManager.java:219-222 | the refund and the failure that follows it, as the refund function gives; earlier entries are kept and the refund's "Deposit" entry, if recorded, is appended |
| AccountManagement.AccountManager.ProcessTransaction | src/main/java/com/miracle/src/services/AccountManager.java:186-238 | a null request is refused with no change; otherwise the registry ends in the state the request function gives, with its result; earlier ledger entries are always kept; a deposit or withdrawal that records appends one entry of its own type with the next number, the signed amount and the new balance; a transfer that records starts with a "Transfer Out" entry of the debited balance, and on success appends exactly that entry and then a "Transfer In" entry of the receiver's new balance |
| AccountManagement.AccountManager.ProcessRequest | src/main/java/com/miracle/src/services/AccountManager.java:196-227 | the registry ends in the state the request function gives; earlier entries are kept; a deposit or withdrawal that records appends one "Deposit" or "Withdrawal" entry with the next number, the signed amount and the new balance; a transfer records a "Transfer Out" first and, on success, exactly "Transfer Out" then "Transfer In" |
| AccountManagement.AccountManager.DepositOrWithdraw | src/main/java/com/miracle/src/services/AccountManager.java:200-205 | the deposit or withdrawal branch ends in the state the request function gives; earlier entries are kept, and a recorded leg appends one entry of its own type with the next number, the signed amount and the new balance; the account's status is kept |
| AccountManagement.AccountManager.RequestTransfer | src/main/java/com/miracle/src/services/AccountManager.java:206-224 | the transfer branch ends in the state the request function gives; earlier entries are kept, the first new entry is the "Transfer Out", and on success "Transfer In" follows it |
| FileIO.DeserializeTransaction | src/main/java/com/miracle/src/utils/FileIOUtils.java:185-196 | a blank line gives no entry; an entry read has at least six fields, the trimmed first field as its id, and a valid timestamp |
| FileIO.TransactionRoundTrip | src/main/java/com/miracle/src/utils/FileIOUtils.java:297-306 | a written entry reads back as itself, less the fraction of a second of its timestamp |
| FileIO.ExtraFieldsIgnored | src/main/java/com/miracle/src/utils/FileIOUtils.java:188-195 | fields after the sixth do not change what a line reads as |
| FileIO.ExtractAccountNumber | src/main/java/com/miracle/src/utils/FileIOUtils.java:146-152 | a blank line has no account number; a number read is trimmed and holds no pipe |
| FileIO.SerializeAccounts | src/main/java/com/miracle/src/utils/FileIOUtils.java:310-330 | given the map's iteration order, exactly one line per map entry, each the entry's account written under its key; an empty map gives no lines |
| FileIO.IterationOrderLength | src/main/java/com/miracle/src/utils/FileIOUtils.java:311 | an order listing every key of a map exactly once is as long as the map is large |
| FileIO.AccountLineColumns | src/main/java/com/miracle/src/utils/FileIOUtils.java:317-327 | an account line splits into nine columns, each of which trims back to its field |
| FileIO.AccountRoundTrip | src/main/java/com/miracle/src/utils/FileIOUtils.java:333-378 | a written account line reads back as its account number, customer id and creation request, and takes no generated id |
| FileIO.SerializeAccountsReadBack | src/main/java/com/miracle/src/utils/FileIOUtils.java:310-330 | no lines exactly when there are no accounts, and each line reads back as the account it was written from |
| FileIO.ParseAccount | src/main/java/com/miracle/src/utils/FileIOUtils.java:333-390 | decodes a line as the line decoder says, advancing the customer counter only for an eight-column line whose age parses as an `int` |
| FileIO.ParseColumns | src/main/java/com/miracle/src/utils/FileIOUtils.java:342-378 | the column part of the decoding, with the same outcome and counter effect |
| FileIO.DecodedLinesAppend | src/main/java/com/miracle/src/utils/FileIOUtils.java:120-131 | decoding one more line appends its outcome, decoded with the counter as the earlier lines left it |
| FileIO.ParseNext | src/main/java/com/miracle/src/utils/FileIOUtils.java:127 | one step of the load loop: decodes the line with the counter as the earlier lines left it |
| FileIO.ReadAccounts | src/main/java/com/miracle/src/utils/FileIOUtils.java:106-135 | loads exactly the non-blank lines whose number is new, decodes each in order with the counter threaded through, and adds their count to the account count |
| FileIO.ReadTransactionsAsWritten | src/main/java/com/miracle/src/utils/FileIOUtils.java:225-247 | the loop as written: every line that reads as an entry is loaded, in order, because the seen-set compares entries by identity |
| FileIO.EntryOfWritten | src/main/java/com/miracle/src/utils/FileIOUtils.java:231-235 | a written entry's line yields exactly that entry |
| FileIO.AsWrittenKeepsDuplicates | src/main/java/com/miracle/src/utils/FileIOUtils.java:232-237 | the same line twice loads the same id twice |
| FileIO.LoadStep | src/main/java/com/miracle/src/utils/FileIOUtils.java:232-240 | one line: an entry with an id already known or kept is skipped, any other is kept |
| FileIO.LoadTransactions | src/main/java/com/miracle/src/utils/FileIOUtils.java:225-247 | the corrected loop: the entries read, with each id already known or seen before dropped |
| FileIO.LoadTransactionsSpec | src/main/java/com/miracle/src/utils/FileIOUtils.java:209-240 | the loaded entries have distinct ids, none already known, all taken from the file, and every id in the file is known or loaded; a file with fresh distinct ids loads whole |
| Functional.FilterTransactionsExactly | src/main/java/com/miracle/src/utils/FunctionalUtils.java:12-16 | filtering keeps each entry exactly as often as it occurs when the condition holds and drops it otherwise, and distributes over concatenation |
| Functional.SortTransactionsByAmount | src/main/java/com/miracle/src/utils/FunctionalUtils.java:19-23 | a permutation of the entries in ascending amount |
| Functional.SortTransactionsByDate | src/main/java/com/miracle/src/utils/FunctionalUtils.java:26-30 | a permutation of the entries in ascending timestamp |
| Functional.SortByDateChronological | src/main/java/com/miracle/src/utils/FunctionalUtils.java:26-30 | no entry comes before one with an earlier timestamp |
| Functional.SortByAmountStable | src/main/java/com/miracle/src/utils/FunctionalUtils.java:19-23 | entries with the same amount keep their relative order |
| Functional.SortByDateStable | src/main/java/com/miracle/src/utils/FunctionalUtils.java:26-30 | entries with the same timestamp keep their relative order |
| Functional.SortsIdempotent | src/main/java/com/miracle/src/utils/FunctionalUtils.java:19-30 | sorting a sorted list again changes nothing |
| Functional.DateOrderOppositeLedger | src/main/java/com/miracle/src/utils/FunctionalUtils.java:26-30 | sorting by date and reversing gives the ledger's most-recent-first order |
| Sorting.Filter | src/main/java/com/miracle/src/utils/FunctionalUtils.java:12-16 | a filter keeps only elements of the input that satisfy the condition |
| Sorting.FilterAppend | src/main/java/com/miracle/src/services/TransactionManager.java:83-85 | filtering distributes over concatenation |
| Sorting.FilterCounts | src/main/java/com/miracle/src/services/TransactionManager.java:83-85 | filtering keeps every occurrence of a satisfying element and none of the others |
| Sorting.SortByPermutes | src/main/java/com/miracle/src/services/TransactionManager.java:92-94 | sorting gives a sorted permutation |
| Sorting.SortByStable | src/main/java/com/miracle/src/services/TransactionManager.java:92-94 | elements with equal keys keep their relative order |
| Sorting.SortBySorted | src/main/java/com/miracle/src/utils/FunctionalUtils.java:19-23 | sorting a sorted list leaves it unchanged |
| Sorting.SortByIdempotent | src/main/java/com/miracle/src/utils/FunctionalUtils.java:19-30 | sorting twice is sorting once |
| Sorting.FilterSorted | src/main/java/com/miracle/src/services/TransactionManager.java:82-85 | filtering a sorted list keeps it sorted |
| Sequences.DedupDistinct | src/main/java/com/miracle/src/utils/FileIOUtils.java:232-237 | deduplication keeps distinct ids, none already known |
| Sequences.DedupComplete | src/main/java/com/miracle/src/utils/FileIOUtils.java:232-237 | every id of the input is known or kept |
| Sequences.DedupSubset | src/main/java/com/miracle/src/utils/FileIOUtils.java:232-237 | deduplication keeps only input entries, each at most as often |
| Sequences.DedupKeepsDistinct | src/main/java/com/miracle/src/utils/FileIOUtils.java:232-237 | input with distinct ids, none known, is kept whole |
| Statements.InflowIsCredit | src/main/java/com/miracle/src/models/Transaction.java:40-45 | the entries a statement counts as inflows are exactly those displayed with a plus sign, and no type is both an inflow and an outflow |
| Statements.TotalsAppend | src/main/java/com/miracle/src/services/StatementGenerator.java:185-203 | totals over two lists are the sums of their totals |
| Statements.TotalsOrderFree | src/main/java/com/miracle/src/services/StatementGenerator.java:180-203 | the totals do not depend on the order of the entries |
| Statements.StatementTotals | src/main/java/com/miracle/src/services/StatementGenerator.java:185-203 | the loop counts every entry, and sums the inflows and outflows |
| Statements.ViewAllBranches | src/main/java/com/miracle/src/services/StatementGenerator.java:63-71 | the first two branches take every type the last two test, so the separate transfer totals never grow |
| Statements.ViewAllTotals | src/main/java/com/miracle/src/services/StatementGenerator.java:48-81 | the per-account loop gives the statement's summary of the account's entries, with the transfer totals at zero |
| Statements.StatementOrderFree | src/main/java/com/miracle/src/services/StatementGenerator.java:180-183 | re-sorting an account's entries most recent first keeps them, sorted, with the same summary |
| Statements.GenerateStatement | src/main/java/com/miracle/src/services/StatementGenerator.java:150-229 | sorts the ledger; an unknown account gives no statement; a known one gets its entries most recent first with their summary |
| Statements.ViewAllTransactionByAccount | src/main/java/com/miracle/src/services/StatementGenerator.java:16-91 | sorts the ledger; reports whether the account exists, and for one that does gives the summary of its entries and the net change |
| Statements.OfAccountTwice | src/main/java/com/miracle/src/services/StatementGenerator.java:46-51 | selecting an account's entries twice selects them once, so the loop's account check never skips an entry |
| Statements.ProcessedEntryFlow | src/main/java/com/miracle/src/services/StatementGenerator.java:197-203 | an entry processTransaction records is an inflow the balance gained or an outflow the balance lost |
| Statements.ProcessedEntryTypes | src/main/java/com/miracle/src/models/Account.java:118-128 | processTransaction records only "Deposit" or "Transfer In" (balance up by the amount) and "Withdrawal" or "Transfer Out" (balance down) |
| Statements.RecordedTypesFlow | src/main/java/com/miracle/src/services/StatementGenerator.java:197-202 | deposits and incoming transfers are inflows only; withdrawals and outgoing transfers outflows only |
| Statements.NetChangeAsWritten | src/main/java/com/miracle/src/services/StatementGenerator.java:212 | the net change as printed follows the balance for every recorded entry except a checking withdrawal, which raises it by the amount the balance lost |
| Statements.NetChangeFollowsBalance | src/main/java/com/miracle/src/services/StatementGenerator.java:212 | counting outflows by their size, the net change moves exactly with the balance for every recorded entry |
| Validation.FirstAnswer | src/main/java/com/miracle/src/utils/ValidationUtils.java:17-32 | the first acceptable line, with every line before it rejected; none when no line is acceptable |
| Validation.FirstAnswerAt | src/main/java/com/miracle/src/utils/ValidationUtils.java:17-32 | when line j is the first acceptable one, the prompt answers with it and resumes after it |
| Validation.Prompt | src/main/java/com/miracle/src/utils/ValidationUtils.java:17-32 | the prompt loop returns the first acceptable answer |
| Validation.ValidatedByPattern | src/main/java/com/miracle/src/utils/ValidationUtils.java:21-31 | with a pattern that only matches non-blank text, a line is accepted exactly when it matches |
| Validation.GetValidatedInput | src/main/java/com/miracle/src/utils/ValidationUtils.java:12-33 | returns the first non-blank line that matches the pattern |
| Validation.AgeAnswerRange | src/main/java/com/miracle/src/utils/ValidationUtils.java:40 | an age is accepted exactly when it is above 0 and below 120 |
| Validation.AgeAnswerDisagrees | src/main/java/com/miracle/src/utils/ValidationUtils.java:40 | 17 is accepted though the customer check refuses it, and 120 refused though the customer check accepts it |
| Validation.GetValidAgeInput | src/main/java/com/miracle/src/utils/ValidationUtils.java:36-45 | returns the first age strictly between 0 and 120 |
| Validation.AdultAgeAnswerRange | src/main/java/com/miracle/src/models/Customer.java:21 | the corrected age check accepts exactly 18 to 120 |
| Validation.GetAdultAgeInput | src/main/java/com/miracle/src/models/Customer.java:21-23 | returns the first age from 18 to 120 |
| Validation.AccountNumberAnswerShape | src/main/java/com/miracle/src/utils/ValidationUtils.java:53-67 | an answer is "exit" exactly for the input 0, and otherwise ACC followed by three digits |
| Validation.AccountNumberAnswerIdempotent | src/main/java/com/miracle/src/utils/ValidationUtils.java:56-66 | an accepted account number is accepted again as itself |
| Validation.AccountNumberAccepted | src/main/java/com/miracle/src/utils/ValidationUtils.java:65 | every account number the counter makes below 1000 is accepted, and from 1000 on none is |
| Validation.GetValidAccountNumber | src/main/java/com/miracle/src/utils/ValidationUtils.java:47-71 | returns the first line that is 0 ("exit") or ACC followed by three digits |
| Validation.PositiveAmountExactly | src/main/java/com/miracle/src/utils/ValidationUtils.java:80-87 | an amount is accepted exactly when it is positive |
| Validation.BoundedAmountExactly | src/main/java/com/miracle/src/utils/ValidationUtils.java:101-113 | an amount is accepted exactly when it is at least the minimum and, when a maximum is set, at most it |
| Validation.BoundedWithoutMaximum | src/main/java/com/miracle/src/utils/ValidationUtils.java:108 | a maximum of zero or less imposes no bound |
| Validation.AtLeastAmountExactly | src/main/java/com/miracle/src/utils/ValidationUtils.java:126-132 | an amount is accepted exactly when it is at least the minimum |
| Validation.GetValidAmount | src/main/java/com/miracle/src/utils/ValidationUtils.java:76-93 | returns the first positive amount |
| Validation.GetValidAmountBetween | src/main/java/com/miracle/src/utils/ValidationUtils.java:97-119 | returns the first amount within the bounds |
| Validation.GetValidAmountAtLeast | src/main/java/com/miracle/src/utils/ValidationUtils.java:122-138 | returns the first amount at or above the minimum |
| CreationInput.NameSplit | src/main/java/com/miracle/src/utils/AccountCreationInput.java:11 | a name matches exactly when its first word is a valid word and the rest are space-separated valid words |
| CreationInput.OneWord | src/main/java/com/miracle/src/utils/AccountCreationInput.java:11 | a single word is never a valid name |
| CreationInput.NameNotBlank | src/main/java/com/miracle/src/utils/AccountCreationInput.java:11 | a valid name is never blank |
| CreationInput.ContactShape | src/main/java/com/miracle/src/utils/AccountCreationInput.java:12-14 | a contact matches exactly when it is a country code or 0, a network prefix, then three and four digits with optional separators |
| CreationInput.ContactBounds | src/main/java/com/miracle/src/utils/AccountCreationInput.java:12-14 | a valid contact has 10 to 16 characters and is not blank |
| CreationInput.AddressNotBlank | src/main/java/com/miracle/src/utils/AccountCreationInput.java:15 | a valid address is never blank |
| CreationInput.TypeChoiceExactly | src/main/java/com/miracle/src/utils/AccountCreationInput.java:44-75 | a type choice is accepted exactly when it is 1 or 2 |
| CreationInput.DepositExactly | src/main/java/com/miracle/src/utils/AccountCreationInput.java:79-97 | a deposit is accepted exactly when it is positive, at least $10,000 for premium customers and at least $500 for savings |
| CreationInput.CollectInitialDeposit | src/main/java/com/miracle/src/utils/AccountCreationInput.java:78-97 | returns the first deposit the customer and account types allow |
| CreationInput.CollectAccountCreationData | src/main/java/com/miracle/src/utils/AccountCreationInput.java:17-120 | the form reads name, age, contact, address, the two types and the deposit in order, and gives no request when input runs out |
| CreationInput.CollectedRequestValid | src/main/java/com/miracle/src/utils/AccountCreationInput.java:100-103 | every request the form gives satisfies each field's rule |
| CreationInput.CollectedAcceptedIffAdult | src/main/java/com/miracle/src/utils/AccountCreationInput.java:26-29 | a request from the form passes the customer checks exactly when its age is at least 18 |
| CreationInput.CorrectedRequestAccepted | src/main/java/com/miracle/src/models/Customer.java:17-29 | with the corrected age check, every request the form gives passes the customer checks |
| Seeding.SamplesAcceptable | src/main/java/com/miracle/src/utils/DataSeeder.java:69-122 | every sample passes the customer checks and its account's opening rules |
| Seeding.SampleSteps | src/main/java/com/miracle/src/utils/DataSeeder.java:136-175 | the script only touches the first five listed accounts |
| Seeding.SampleStepsAt | src/main/java/com/miracle/src/utils/DataSeeder.java:136-175 | the script's calls, one by one, with the transfer only from a checking fourth account to a savings first |
| Seeding.RunSteps | src/main/java/com/miracle/src/utils/DataSeeder.java:131-180 | running the script keeps the number of accounts and never adds ledger room |
| Seeding.DecideKeepsFloor | src/main/java/com/miracle/src/utils/DataSeeder.java:136-175 | no call of the script takes an account that respects its floor below it |
| Seeding.RunStepsKeepsFloors | src/main/java/com/miracle/src/utils/DataSeeder.java:131-180 | accounts within their floors stay within them through any script |
| Seeding.SampleStepsSucceed | src/main/java/com/miracle/src/utils/DataSeeder.java:136-175 | with the ledger room, every call succeeds with the stated balance changes |
| Seeding.ScriptWithTransfer | src/main/java/com/miracle/src/utils/DataSeeder.java:165-170 | with the transfer, the first account gains $3,000 and the fourth $5,000 |
| Seeding.ScriptWithoutTransfer | src/main/java/com/miracle/src/utils/DataSeeder.java:136-175 | without the transfer, the first gains $1,000 and the fourth $7,000 |
| Seeding.SampleStepsNet | src/main/java/com/miracle/src/utils/DataSeeder.java:136-175 | the script adds $13,800 to the five balances either way |
| Seeding.SampleStepsOnFullLedger | src/main/java/com/miracle/src/utils/DataSeeder.java:137-138 | on a full ledger the first deposit changes the first account's balance and then fails, and nothing else runs |
| Seeding.ListAccounts | src/main/java/com/miracle/src/utils/DataSeeder.java:133 | lists the registered accounts, each once, in an order left open |
| Seeding.Call | src/main/java/com/miracle/src/utils/DataSeeder.java:136-175 | one call of the script on an account, with the outcome of its decision against the free slots |
| Seeding.DataSeeder.constructor | src/main/java/com/miracle/src/utils/DataSeeder.java:16 | a new seeder has not seeded |
| Seeding.DataSeeder.Perform | src/main/java/com/miracle/src/utils/DataSeeder.java:136-175 | one call of the script; on success the rest of the script runs from the new state, on failure the script stops there |
| Seeding.DataSeeder.PerformTwo | src/main/java/com/miracle/src/utils/DataSeeder.java:136-175 | two calls of the script in a row, with the same stopping rule |
| Seeding.DataSeeder.SeedOne | src/main/java/com/miracle/src/utils/DataSeeder.java:70-77 | one sample: its customer, then its account, then filing; succeeds exactly when the sample is acceptable, a checking deposit has ledger room and the number is free |
| Seeding.DataSeeder.SeedNext | src/main/java/com/miracle/src/utils/DataSeeder.java:69-122 | the next sample in the table is filed with its deposit as balance, or the registry is left as it was |
| Seeding.DataSeeder.SeedAccounts | src/main/java/com/miracle/src/utils/DataSeeder.java:66-123 | files the samples in order up to the first failure, keeping those already filed; with four ledger slots and free numbers, all five are filed |
| Seeding.DataSeeder.RunFirstAccounts | src/main/java/com/miracle/src/utils/DataSeeder.java:136-156 | the calls on the first three listed accounts, stopping at the first failure |
| Seeding.DataSeeder.RunSecondThird | src/main/java/com/miracle/src/utils/DataSeeder.java:144-156 | the calls on the second and third listed accounts |
| Seeding.DataSeeder.RunLastAccounts | src/main/java/com/miracle/src/utils/DataSeeder.java:157-175 | the calls on the fourth account, then the transfer and the fifth account |
| Seeding.DataSeeder.RunClosing | src/main/java/com/miracle/src/utils/DataSeeder.java:165-175 | the transfer when its kinds allow, then the fifth account |
| Seeding.DataSeeder.SeedTransactions | src/main/java/com/miracle/src/utils/DataSeeder.java:128-181 | with fewer than five accounts nothing changes; otherwise the balances and free slots end as the script says, with a failure swallowed |
| Seeding.DataSeeder.SeedInitialData | src/main/java/com/miracle/src/utils/DataSeeder.java:26-61 | seeded data is left alone, with every account, ledger slot and counter unchanged; a registry already holding accounts is only marked seeded and is otherwise unchanged; otherwise the samples are filed and the flag is set exactly when all five were |
| Seeding.DataSeeder.ForceReseed | src/main/java/com/miracle/src/utils/DataSeeder.java:187-190 | clears the flag and seeds again; a registry already holding accounts is only marked seeded, with every account, ledger slot and counter unchanged |

## Left out

- Console output, menus, prompts' printed text and every display method (displayAccountDetails, displayTransactionDetails, displayAllTransactions, displayAccountDetail, displaySeedSummary, viewAllAccounts, displayAllCustomers): they print and change nothing.
- Console input is a list of lines; running out of input gives `None` where the source would block.
- File-system effects: reading and writing the files, directory creation and the I/O error paths. Lines are given and returned as sequences.
- Concurrency: the per-account locks, `volatile`, the atomic counter and the parallel stream. Every operation is treated as atomic.
- The TransactionContext helpers of src/main/java/com/miracle/src/services/TransactionManager.java:15-63: they wrap the same append.
- TransactionManager.getAllTransactions: the entries already held are the `known` parameter of FileIO.LoadTransactions.
- AccountManager.createAccountFromFile: FileIO.ParseAccount returns the decoded request and customer id that it would consume.
- The six-argument Transaction constructor used by deserializeTransaction is not part of this model; it is taken to store its fields as given.
- Account.setBalance and the Transaction setters: nothing in the core calls them.
- isDataSeeded and getAccountCount: they read a field the model exposes directly.
- Locale: the model fixes a locale whose decimal separator is '.' and whose day-period markers are "AM" and "PM". In the source, String.format("%.2f") (src/main/java/com/miracle/src/utils/FileIOUtils.java:302-303,326) and the "a" pattern letter follow the JVM's default locale. FileIO.TransactionRoundTrip, FileIO.AccountRoundTrip and Money.CentsRoundTrip hold only under such a locale.
- Floating point: amounts are integer cents with two-decimal text, so `double` rounding is not modelled. Interest is computed on reals.
- The id counters (Account.accountCounter, Customer.customerCounter, Transaction.transactionCounter) are unbounded: the wrap-around of a Java `int` past 2147483647 is not modelled. Integer.parseInt is bounded to the `int` range (Text.ParseInt).
- Years before 1 and after 9999 are not modelled: the pattern's four-digit year is the only width the file layout carries.
- LocalDateTime is a record of date and time fields. The current time is a parameter, so its readings are not modelled.
- Case folding is ASCII only: non-ASCII letters in equalsIgnoreCase and toUpperCase are not modelled.
- The regular expressions are written as predicates over the input text, not as general regex matching.
- Accounts.Account.WithdrawWithType: the savings re-prompt loop on stdin is modelled as a refusal with no change.
- Accounts.Account.CalculateInterest: states only a lower bound; the exact value is InterestOnThousand's.
- AccountManagement.Transfer, AccountManagement.Send, AccountManagement.Settle, AccountManagement.Refund, AccountManagement.Step: their own contracts state only frame and ledger bounds; what they compute is stated by the lemmas about them.
- AccountManagement.AccountManager.SendFunds, CreditReceiver, RefundSender, TransferFunds, RequestTransfer, ProcessRequest and ProcessTransaction: they do not state that every account's status is kept; each leg they run states it for its own account (RunSend, RunReceive, RunDeposit, DepositOrWithdraw), and carrying it across the legs over all accounts made those proofs too costly.
- Seeding.DataSeeder.SeedAccounts: the five straight-line blocks of the source are one loop over the table of samples.
- Seeding.DataSeeder.SeedTransactions: states the balances and the free ledger slots, not the contents of the entries.
- Seeding.ListAccounts: HashMap iteration order is not modelled; any order of the registered accounts is allowed.
- RunSend, RunReceive, RunDeposit, SendFunds, CreditReceiver, RefundSender, ProcessRequest, DepositOrWithdraw, RequestTransfer, ParseColumns, ParseNext, ReadEntry, StoreEntries, SeedOne, SeedNext, Perform, PerformTwo and the Run methods of the seeder each cover part of a single source method, split so each proof stays small.
- The comment on forceReseed warns of duplicate accounts; the code marks a registry that already holds accounts as seeded, and the model follows the code.

## Findings

| source | as written | input that shows it | evidently intended | confidence | as-written member | corrected member |
|---|---|---|---|---|---|---|
| src/main/java/com/miracle/src/utils/FileIOUtils.java:209-240 | the seen-set holds Transaction objects, which have no equals or hashCode, so a freshly read entry never matches and no duplicate is ever dropped | a file with the same entry line twice loads it twice | entries whose id is already held or already read are skipped | not executed | FileIO.AsWrittenKeepsDuplicates | FileIO.LoadTransactionsSpec |
| src/main/java/com/miracle/src/utils/ValidationUtils.java:40 | the age prompt accepts 0 < age < 120, while the customer check demands 18 to 120 | the answer "17" is accepted and the account creation then fails; "120" is refused though valid | the prompt accepts exactly the ages the customer check accepts | not executed | Validation.AgeAnswerDisagrees | Validation.AdultAgeAnswerRange |
| src/main/java/com/miracle/src/services/AccountManager.java:215-222 | when the receiver's entry cannot be recorded, the receiver keeps the credit and the sender is refunded as well | a ledger with 199 entries and a valid $100 transfer: the total grows by $100 | a transfer that fails changes no balance | not executed | AccountManagement.TransferWithOneSlotCreatesMoney | AccountManagement.GuardedTransferConserves |
| src/main/java/com/miracle/src/services/AccountManager.java:215-217 | on a full ledger the sender's balance is stored before its entry is refused, and the exception leaves the try block before any refund | a ledger with 200 entries and a valid $100 transfer: the sender loses $100 and the total drops by $100 | a transfer that fails changes no balance | not executed | AccountManagement.TransferOnFullLedgerLosesMoney | AccountManagement.GuardedTransferConserves |
| src/main/java/com/miracle/src/services/StatementGenerator.java:212 | checking withdrawals are recorded with a negative amount (src/main/java/com/miracle/src/models/CheckingAccount.java:98) and the statement subtracts the withdrawal total | a checking account opened with $100 that withdraws $30 has a balance of $70, yet its statement shows a net change of +$130 | the net change equals the change in balance | not executed | Statements.NetChangeAsWritten | Statements.NetChangeFollowsBalance |

The rest of the model keeps the source's behaviour where these findings
apply: the registry dispatches transfers as written, the account-creation
form uses the as-written age check, and statements sum signed amounts.
