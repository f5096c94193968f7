/**
 * FileIOUtils: the pipe-separated line formats of the transaction and
 * account files, and the loops that read them back. Files are sequences of
 * lines; reading and writing them is not modelled.
 */
module FileIO {
  import opened Errors
  import opened Text
  import opened Money
  import opened Clock
  import opened Counters
  import opened Sorting
  import opened Transactions
  import opened Customers
  import opened Accounts
  import opened Requests
  import opened AccountManagement
  import opened Sequences

  const Sep: char := '|'
  const EmptyLineMessage: string := "Empty line in account file"

  /** The last character of a join is the last character of its last field. */
  lemma {:induction false} JoinLast(fields: seq<string>, sep: char)
    requires |fields| >= 1 && fields[|fields| - 1] != []
    ensures |Join(fields, sep)| >= 1
    ensures Join(fields, sep)[|Join(fields, sep)| - 1] == fields[|fields| - 1][|fields[|fields| - 1]| - 1]
  {
    if |fields| > 1 {
      JoinLast(fields[1..], sep);
      assert fields[1..][|fields[1..]| - 1] == fields[|fields| - 1];
    }
  }

  /** A line that ends with a kept character is not blank. */
  lemma NotBlankByLast(s: string)
    requires |s| >= 1 && !IsTrimmed(s[|s| - 1])
    ensures !IsBlank(s)
  {
    BlankIffAllTrimmed(s);
  }

  /** A field the line format can carry: no separator, nothing that `trim` would remove. */
  predicate Storable(s: string)
  {
    Sep !in s && Untrimmable(s)
  }

  // ------------------------------------------------------------- transactions

  /** serializeTransaction: id, account, type, amount, balance after and timestamp, joined by '|'. */
  function SerializeTransaction(t: Transaction): string
    requires Clock.Valid(t.timestamp)
  {
    Join([t.id, t.accountNumber, t.txnType, FormatCents(t.amount), FormatCents(t.balanceAfter),
          Format(t.timestamp)], Sep)
  }

  /**
   * deserializeTransaction: a blank line or one with fewer than six fields is
   * null; the fields are trimmed and read by position, later fields ignored.
   */
  function DeserializeTransaction(line: string): (r: Result<Option<Transaction>>)
    ensures IsBlank(line) ==> r == Ok(None)
    ensures r.Ok? && r.value.Some? ==>
              |Split(line, Sep)| >= 6 && r.value.value.id == Trim(Split(line, Sep)[0]) &&
              Clock.Valid(r.value.value.timestamp) && r.value.value.timestamp.nano == 0
  {
    if IsBlank(line) then Ok(None)
    else
      var parts := Split(line, Sep);
      if |parts| < 6 then Ok(None)
      else
        match (ParseCents(Trim(parts[3])), ParseCents(Trim(parts[4])))
        case (None, _) => Err(NumberFormat)
        case (_, None) => Err(NumberFormat)
        case (Some(amount), Some(balanceAfter)) =>
          match Parse(Trim(parts[5]))
          case Err(e) => Err(e)
          case Ok(ts) =>
            Ok(Some(Transaction(Trim(parts[0]), Trim(parts[1]), Trim(parts[2]), amount, balanceAfter, ts)))
  }

  /**
   * Reading back a written entry gives it again, with the timestamp cut to
   * the second, when its text fields are storable.
   */
  lemma TransactionRoundTrip(t: Transaction)
    requires Storable(t.id) && Storable(t.accountNumber) && Storable(t.txnType)
    requires Clock.Valid(t.timestamp)
    ensures DeserializeTransaction(SerializeTransaction(t)) ==
              Ok(Some(t.(timestamp := t.timestamp.(nano := 0))))
  {
    var fields := [t.id, t.accountNumber, t.txnType, FormatCents(t.amount), FormatCents(t.balanceAfter),
                   Format(t.timestamp)];
    FormatShape(t.timestamp);
    FormatSlices(t.timestamp);
    SplitJoin(fields, Sep);
    var line := SerializeTransaction(t);
    JoinLast(fields, Sep);
    NotBlankByLast(line);
    TrimOfUntrimmable(t.id);
    TrimOfUntrimmable(t.accountNumber);
    TrimOfUntrimmable(t.txnType);
    TrimOfUntrimmable(FormatCents(t.amount));
    TrimOfUntrimmable(FormatCents(t.balanceAfter));
    TrimOfUntrimmable(Format(t.timestamp));
    CentsRoundTrip(t.amount);
    CentsRoundTrip(t.balanceAfter);
    FormatParseRoundTrip(t.timestamp);
  }

  /** A line is read the same whatever follows its sixth field. */
  lemma ExtraFieldsIgnored(line: string, extra: string)
    requires !IsBlank(line) && Sep !in extra && extra != []
    requires Sep in line && |SplitOn(line, Sep)| >= 6 && SplitOn(line, Sep)[|SplitOn(line, Sep)| - 1] != []
    ensures var longer := line + [Sep] + extra;
            DeserializeTransaction(longer) == DeserializeTransaction(line)
  {
    var longer := line + [Sep] + extra;
    SplitWithExtra(line, extra);
    NotBlankExtended(line, extra);
    var p := Split(line, Sep);
    assert forall k | 0 <= k < 6 :: Split(longer, Sep)[k] == p[k];
  }

  /** One more non-empty field after the last non-empty one is kept by the split. */
  lemma SplitWithExtra(line: string, extra: string)
    requires Sep !in extra && extra != []
    requires Sep in line && SplitOn(line, Sep)[|SplitOn(line, Sep)| - 1] != []
    ensures Split(line + [Sep] + extra, Sep) == Split(line, Sep) + [extra]
  {
    var longer := line + [Sep] + extra;
    SplitOnAppend(line, extra, Sep);
    assert Sep in longer by { assert longer[|line|] == Sep; }
    var p := SplitOn(line, Sep);
    assert DropTrailingEmpty(p) == p;
    assert DropTrailingEmpty(p + [extra]) == p + [extra];
  }

  /** A non-blank line stays non-blank with more text after it. */
  lemma NotBlankExtended(line: string, extra: string)
    requires !IsBlank(line)
    ensures !IsBlank(line + [Sep] + extra)
  {
    var longer := line + [Sep] + extra;
    BlankIffAllTrimmed(line);
    BlankIffAllTrimmed(longer);
    var k :| 0 <= k < |line| && !IsTrimmed(line[k]);
    assert longer[k] == line[k];
  }

  /** Splitting `a|b` where b has no separator adds b as one more field. */
  lemma {:induction false} SplitOnAppend(a: string, b: string, sep: char)
    requires sep !in b
    ensures SplitOn(a + [sep] + b, sep) == SplitOn(a, sep) + [b]
    decreases |a|
  {
    var i := IndexOf(a, sep);
    if i == |a| {
      SplitOnAppendLast(a, b, sep);
    } else {
      SplitOnAppend(a[i + 1..], b, sep);
      SplitOnAppendFirst(a, b, sep);
    }
  }

  /** Appending to a text without a separator splits into that text and the appended piece. */
  lemma {:induction false} SplitOnAppendLast(a: string, b: string, sep: char)
    requires sep !in b && IndexOf(a, sep) == |a|
    ensures SplitOn(a + [sep] + b, sep) == SplitOn(a, sep) + [b]
  {
    var s := a + [sep] + b;
    IndexOfExtended(a, s, sep);
    SplitOnAt(s, sep);
    SplitOnAt(a, sep);
    assert s[..|a|] == a && s[|a| + 1..] == b;
    SplitOnAt(b, sep);
  }

  /** Appending after a separator of `a` leaves the first piece and appends to the split of the rest. */
  lemma {:induction false} SplitOnAppendFirst(a: string, b: string, sep: char)
    requires IndexOf(a, sep) < |a|
    requires var i := IndexOf(a, sep);
             SplitOn(a[i + 1..] + [sep] + b, sep) == SplitOn(a[i + 1..], sep) + [b]
    ensures SplitOn(a + [sep] + b, sep) == SplitOn(a, sep) + [b]
  {
    var i := IndexOf(a, sep);
    var p := SplitOn(a[i + 1..], sep);
    SplitOnExtendedAt(a, b, sep);
    SplitOnAt(a, sep);
    PieceAssociates(a[..i], p, b);
  }

  lemma PieceAssociates(x: string, p: seq<string>, y: string)
    ensures [x] + (p + [y]) == ([x] + p) + [y]
  {
  }

  /** The first piece of `a + [sep] + b` is the first piece of `a` when `a` holds a separator. */
  lemma {:induction false} SplitOnExtendedAt(a: string, b: string, sep: char)
    requires IndexOf(a, sep) < |a|
    ensures var i := IndexOf(a, sep);
            SplitOn(a + [sep] + b, sep) == [a[..i]] + SplitOn(a[i + 1..] + [sep] + b, sep)
  {
    var s := a + [sep] + b;
    var i := IndexOf(a, sep);
    IndexOfExtended(a, s, sep);
    SplitOnAt(s, sep);
    ExtendedSlices(a, b, sep, i);
  }

  lemma ExtendedSlices(a: string, b: string, sep: char, i: nat)
    requires i < |a|
    ensures (a + [sep] + b)[..i] == a[..i]
    ensures (a + [sep] + b)[i + 1..] == a[i + 1..] + [sep] + b
  {
  }

  /** One step of the split: the piece before the first separator, then the split of the rest. */
  lemma {:induction false} SplitOnAt(s: string, sep: char)
    ensures var i := IndexOf(s, sep);
            SplitOn(s, sep) == if i == |s| then [s] else [s[..i]] + SplitOn(s[i + 1..], sep)
  {
  }

  /** The first separator of `a + [sep] + b` is the first of `a`, or the one appended when `a` has none. */
  lemma {:induction false} IndexOfExtended(a: string, s: string, sep: char)
    requires |a| < |s| && s[..|a|] == a && s[|a|] == sep
    ensures IndexOf(s, sep) == IndexOf(a, sep)
  {
    var i := IndexOf(a, sep);
    assert forall k | 0 <= k < i :: s[k] == a[k];
    assert s[i] == sep;
  }

  /** extractAccountNumber: the trimmed first field of a non-blank line, null when there is none. */
  function ExtractAccountNumber(line: string): (r: Option<string>)
    ensures IsBlank(line) ==> r == None
    ensures r.Some? ==> Untrimmable(r.value) && Sep !in r.value
  {
    if IsBlank(line) then None
    else
      var parts := Split(line, Sep);
      if |parts| > 0 then
        TrimShape(parts[0]);
        Some(Trim(parts[0]))
      else None
  }

  // ------------------------------------------------------------- account lines

  /** The columns an account contributes to the accounts file after its number. */
  datatype AccountSnapshot = AccountSnapshot(name: string, age: int, contact: string, address: string,
                                             customerId: string, customerType: string, accountType: string,
                                             balance: Cents)

  /** What serializeAccounts reads from an account and its customer. */
  function Snapshot(a: Account): AccountSnapshot
    reads a, a.customer
  {
    AccountSnapshot(a.customer.name, a.customer.age, a.customer.contact, a.customer.address, a.customer.id,
                    if a.customer.kind == Regular then "Regular" else "Premium",
                    if a.kind == Savings then "Savings" else "Checking", a.balance)
  }

  /** One line of the accounts file: nine '|'-separated columns, the balance with two decimals. */
  function AccountLine(number: string, s: AccountSnapshot): string
  {
    Join(AccountFields(number, s), Sep)
  }

  /** An iteration order of a map: each of its keys, each exactly once. */
  predicate IterationOrder<V>(m: map<string, V>, order: seq<string>)
  {
    (forall i | 0 <= i < |order| :: order[i] in m) &&
    (forall i, j | 0 <= i < j < |order| :: order[i] != order[j]) &&
    (forall n | n in m :: n in order)
  }

  /** A sequence without repeats has as many elements as it is long. */
  lemma {:induction false} DistinctElements(order: seq<string>)
    requires forall i, j | 0 <= i < j < |order| :: order[i] != order[j]
    ensures |set n | n in order| == |order|
  {
    if |order| > 0 {
      var init := order[..|order| - 1];
      DistinctElements(init);
      assert (set n | n in order) == (set n | n in init) + {order[|order| - 1]};
      assert order[|order| - 1] !in (set n | n in init);
    }
  }

  /** An iteration order is as long as the map is large. */
  lemma IterationOrderLength<V>(m: map<string, V>, order: seq<string>)
    requires IterationOrder(m, order)
    ensures |order| == |m|
  {
    DistinctElements(order);
    assert (set n | n in order) == m.Keys;
  }

  /**
   * serializeAccounts: one line per map entry, in the map's iteration order
   * `order`, each the entry's account written under its key; an empty map
   * writes no lines.
   */
  function SerializeAccounts(accounts: map<string, AccountSnapshot>, order: seq<string>): (lines: seq<string>)
    requires IterationOrder(accounts, order)
    ensures |lines| == |order| == |accounts|
    ensures forall i | 0 <= i < |lines| :: lines[i] == AccountLine(order[i], accounts[order[i]])
  {
    IterationOrderLength(accounts, order);
    seq(|order|, i requires 0 <= i < |order| => AccountLine(order[i], accounts[order[i]]))
  }

  /** What parseAccount reads from a line: the request it builds, with the number and customer id beside it. */
  datatype ParsedAccount = ParsedAccount(accountNumber: string, customerId: string, request: AccountRequest)

  /**
   * parseAccount's reading of a line, with `counter` the customer counter
   * before the call: the age is parsed before the column count is checked;
   * nine columns carry the customer id, eight take "CUS" + `%03d` of the
   * counter; any other count is refused.
   */
  function DecodeAccountLine(line: string, counter: nat): Result<ParsedAccount>
  {
    if IsBlank(line) then Err(IllegalArgument(EmptyLineMessage))
    else
      var c := Split(line, Sep);
      if |c| < 3 then Err(MissingColumn)
      else
        match ParseInt(Trim(c[2]))
        case None => Err(NumberFormat)
        case Some(age) =>
          if |c| < 5 then Err(MissingColumn)
          else if |c| != 9 && |c| != 8 then Err(IllegalArgument("Invalid account format: " + line))
          else if |c| == 9 then DecodeColumns(c, age, Trim(c[5]), 6)
          else DecodeColumns(c, age, CustomerId(counter), 5)
  }

  /**
   * The columns after the address, read from column `k` on: the customer
   * type, the account type and the balance, which must parse.
   */
  function DecodeColumns(c: seq<string>, age: int, customerId: string, k: nat): Result<ParsedAccount>
    requires 5 <= k && k + 2 < |c|
  {
    match ParseCents(Trim(c[k + 2]))
    case None => Err(NumberFormat)
    case Some(balance) =>
      Ok(ParsedAccount(Trim(c[0]), customerId,
                       AccountRequest(Trim(c[1]), age, Trim(c[3]), Trim(c[4]),
                                      if EqualsIgnoreCase("Regular", Trim(c[k])) then 1 else 2,
                                      if EqualsIgnoreCase("Savings", Trim(c[k + 1])) then 1 else 2,
                                      balance)))
  }

  /** The lines on which parseAccount takes a customer id from the counter. */
  predicate TakesGeneratedId(line: string)
  {
    !IsBlank(line) && |Split(line, Sep)| == 8 && ParseInt(Trim(Split(line, Sep)[2])).Some?
  }

  /** parseAccount: reads one line; the eight-column format advances the customer counter (post-increment). */
  method ParseAccount(line: string, ids: Counter) returns (r: Result<ParsedAccount>)
    modifies ids
    ensures r == DecodeAccountLine(line, old(ids.value))
    ensures ids.value == old(ids.value) + (if TakesGeneratedId(line) then 1 else 0)
  {
    if IsBlank(line) {
      return Err(IllegalArgument(EmptyLineMessage));
    }
    var column := Split(line, Sep);
    if |column| < 3 {
      return Err(MissingColumn);
    }
    var age := ParseInt(Trim(column[2]));
    if age.None? {
      return Err(NumberFormat);
    }
    if |column| < 5 {
      return Err(MissingColumn);
    }
    r := ParseColumns(line, column, age.value, ids);
  }

  /**
   * The rest of parseAccount, once the age has parsed and the line has at
   * least five columns: nine columns carry the customer id, eight take one
   * from the counter, any other count is refused; then the types and the
   * balance are read.
   */
  method ParseColumns(line: string, column: seq<string>, age: int, ids: Counter) returns (r: Result<ParsedAccount>)
    requires !IsBlank(line) && column == Split(line, Sep) && |column| >= 5 && ParseInt(Trim(column[2])) == Some(age)
    modifies ids
    ensures r == DecodeAccountLine(line, old(ids.value))
    ensures ids.value == old(ids.value) + (if |column| == 8 then 1 else 0)
  {
    var customerId: string;
    var index: nat;
    if |column| == 9 {
      customerId := Trim(column[5]);
      index := 6;
    } else if |column| == 8 {
      var n := ids.TakeAndAdvance();
      customerId := CustomerId(n);
      index := 5;
    } else {
      return Err(IllegalArgument("Invalid account format: " + line));
    }
    var customerType := Trim(column[index]);
    var accountType := Trim(column[index + 1]);
    var balance := ParseCents(Trim(column[index + 2]));
    if balance.None? {
      return Err(NumberFormat);
    }
    r := Ok(ParsedAccount(Trim(column[0]), customerId,
                          AccountRequest(Trim(column[1]), age, Trim(column[3]), Trim(column[4]),
                                         if EqualsIgnoreCase("Regular", customerType) then 1 else 2,
                                         if EqualsIgnoreCase("Savings", accountType) then 1 else 2,
                                         balance.value)));
  }

  /** An account the file format can carry: storable text, an age within `int` that is not negative, and the type names the model writes. */
  predicate StorableAccount(number: string, s: AccountSnapshot)
  {
    Storable(number) && Storable(s.name) && Storable(s.contact) && Storable(s.address) &&
    Storable(s.customerId) && 0 <= s.age <= MaxInt &&
    (s.customerType == "Regular" || s.customerType == "Premium") &&
    (s.accountType == "Savings" || s.accountType == "Checking")
  }

  /** The columns of an account line, in file order. */
  function AccountFields(number: string, s: AccountSnapshot): seq<string>
  {
    [number, s.name, IntToDecimal(s.age), s.contact, s.address, s.customerId, s.customerType,
     s.accountType, FormatCents(s.balance)]
  }

  /** A written account line is not blank and splits back into its nine columns. */
  lemma AccountLineSplit(number: string, s: AccountSnapshot)
    requires StorableAccount(number, s)
    ensures !IsBlank(AccountLine(number, s)) && Split(AccountLine(number, s), Sep) == AccountFields(number, s)
  {
    var fields := AccountFields(number, s);
    assert AccountLine(number, s) == Join(fields, Sep);
    assert Sep !in NatToDecimal(s.age) && !IsTrimmed(FormatCents(s.balance)[|FormatCents(s.balance)| - 1]) by {
      TrimOfUntrimmable(FormatCents(s.balance));
    }
    assert Sep !in s.customerType && Sep !in s.accountType;
    SplitJoin(fields, Sep);
    JoinLast(fields, Sep);
    NotBlankByLast(AccountLine(number, s));
  }

  /** A written account line splits back into its nine columns, each unchanged by trimming. */
  lemma AccountLineColumns(number: string, s: AccountSnapshot)
    requires StorableAccount(number, s)
    ensures var c := Split(AccountLine(number, s), Sep);
            !IsBlank(AccountLine(number, s)) && |c| == 9 &&
            Trim(c[0]) == number && Trim(c[1]) == s.name && Trim(c[2]) == NatToDecimal(s.age) &&
            Trim(c[3]) == s.contact && Trim(c[4]) == s.address && Trim(c[5]) == s.customerId &&
            Trim(c[6]) == s.customerType && Trim(c[7]) == s.accountType && Trim(c[8]) == FormatCents(s.balance)
  {
    AccountLineSplit(number, s);
    assert Untrimmable(NatToDecimal(s.age)) by {
      assert IsDigit(NatToDecimal(s.age)[0]);
      assert IsDigit(NatToDecimal(s.age)[|NatToDecimal(s.age)| - 1]);
    }
    assert Untrimmable(s.customerType) && Untrimmable(s.accountType);
    TrimOfUntrimmable(number);
    TrimOfUntrimmable(s.name);
    TrimOfUntrimmable(NatToDecimal(s.age));
    TrimOfUntrimmable(s.contact);
    TrimOfUntrimmable(s.address);
    TrimOfUntrimmable(s.customerId);
    TrimOfUntrimmable(s.customerType);
    TrimOfUntrimmable(s.accountType);
    TrimOfUntrimmable(FormatCents(s.balance));
  }

  /**
   * A written account line reads back as the request that recreates it: the
   * number, customer id, customer fields and balance come back unchanged and
   * the type names map back to their codes; no counter value is consumed.
   */
  lemma AccountRoundTrip(number: string, s: AccountSnapshot, counter: nat)
    requires StorableAccount(number, s)
    ensures var line := AccountLine(number, s);
            ExtractAccountNumber(line) == Some(number) && !TakesGeneratedId(line) &&
            DecodeAccountLine(line, counter) ==
              Ok(ParsedAccount(number, s.customerId,
                               AccountRequest(s.name, s.age, s.contact, s.address,
                                              if s.customerType == "Regular" then 1 else 2,
                                              if s.accountType == "Savings" then 1 else 2, s.balance)))
  {
    AccountLineColumns(number, s);
    var c := Split(AccountLine(number, s), Sep);
    ParseIntDecimal(s.age);
    CentsRoundTrip(s.balance);
    assert EqualsIgnoreCase("Regular", "Regular");
    assert !EqualsIgnoreCase("Regular", "Premium") by { assert UpperChar("Regular"[0]) != UpperChar("Premium"[0]); }
    assert EqualsIgnoreCase("Savings", "Savings");
    assert DecodeAccountLine(AccountLine(number, s), counter) == DecodeColumns(c, s.age, s.customerId, 6);
  }

  /**
   * Every line serializeAccounts writes reads back as its account, under the
   * key it was filed by; an empty registry writes nothing.
   */
  lemma SerializeAccountsReadBack(accounts: map<string, AccountSnapshot>, order: seq<string>, counter: nat)
    requires IterationOrder(accounts, order)
    requires forall n | n in accounts :: StorableAccount(n, accounts[n])
    ensures accounts == map[] <==> SerializeAccounts(accounts, order) == []
    ensures var lines := SerializeAccounts(accounts, order);
            forall i | 0 <= i < |lines| ::
              ExtractAccountNumber(lines[i]) == Some(order[i]) &&
              DecodeAccountLine(lines[i], counter).Ok? &&
              DecodeAccountLine(lines[i], counter).value.accountNumber == order[i] &&
              DecodeAccountLine(lines[i], counter).value.request.initialDeposit == accounts[order[i]].balance
  {
    var lines := SerializeAccounts(accounts, order);
    forall i | 0 <= i < |lines|
      ensures ExtractAccountNumber(lines[i]) == Some(order[i])
      ensures DecodeAccountLine(lines[i], counter).Ok?
      ensures DecodeAccountLine(lines[i], counter).value.accountNumber == order[i]
      ensures DecodeAccountLine(lines[i], counter).value.request.initialDeposit == accounts[order[i]].balance
    {
      AccountRoundTrip(order[i], accounts[order[i]], counter);
    }
    assert |order| > 0 ==> order[0] in accounts;
    if accounts != map[] {
      var n :| n in accounts;
      assert n in order;
    }
  }

  // ------------------------------------------------------------ the load loops

  /** A line readAccountsFromFile passes on: it has a first field that is not a registered number. */
  predicate Selected(line: string, existing: set<string>)
  {
    ExtractAccountNumber(line).Some? && ExtractAccountNumber(line).value !in existing
  }

  /** The line itself when it is selected, nothing otherwise. */
  function SelectedBy(existing: set<string>): string -> seq<string>
  {
    line => if Selected(line, existing) then [line] else []
  }

  /** The lines readAccountsFromFile passes on, in file order. */
  function SelectedLines(lines: seq<string>, existing: set<string>): seq<string>
  {
    Collect(lines, SelectedBy(existing))
  }

  /** Each selected line decoded with the customer counter as the lines before it leave it. */
  function DecodedLines(lines: seq<string>, counter: nat): seq<Result<ParsedAccount>>
  {
    Threaded(lines, counter, DecodeAccountLine, TakesGeneratedId)
  }

  /** The number of lines that take a customer id from the counter. */
  function Generated(lines: seq<string>): nat
  {
    Advanced(lines, TakesGeneratedId)
  }

  lemma DecodedLinesAppend(lines: seq<string>, line: string, counter: nat)
    ensures DecodedLines(lines + [line], counter) ==
              DecodedLines(lines, counter) + [DecodeAccountLine(line, counter + Generated(lines))]
    ensures Generated(lines + [line]) == Generated(lines) + (if TakesGeneratedId(line) then 1 else 0)
  {
    ThreadedStep(lines, line, counter, DecodeAccountLine, TakesGeneratedId);
    assert Generated(lines + [line]) == Advanced(lines + [line], TakesGeneratedId);
  }

  /** parseAccount on the line after `loaded`, with the counter as those lines left it. */
  method ParseNext(line: string, ghost loaded: seq<string>, ghost start: nat, ids: Counter)
    returns (p: Result<ParsedAccount>)
    requires ids.value == start + Generated(loaded)
    modifies ids
    ensures DecodedLines(loaded + [line], start) == DecodedLines(loaded, start) + [p]
    ensures ids.value == start + Generated(loaded + [line])
  {
    DecodedLinesAppend(loaded, line, start);
    p := ParseAccount(line, ids);
  }

  /**
   * readAccountsFromFile over the file's lines: each non-blank line whose
   * first field is not registered is parsed (with the counter as it stands
   * at that line) and returned, in file order; the registry's account count
   * then grows by the number of lines returned. Registered numbers are read
   * once, before the loop, so a number repeated in the file is loaded twice.
   */
  method ReadAccounts(lines: seq<string>, manager: AccountManager, ids: Counter)
    returns (loaded: seq<string>, parsed: seq<Result<ParsedAccount>>)
    modifies ids, manager`accountCount
    ensures loaded == SelectedLines(lines, old(manager.accounts.Keys))
    ensures parsed == DecodedLines(loaded, old(ids.value))
    ensures ids.value == old(ids.value) + Generated(loaded)
    ensures manager.accountCount == old(manager.accountCount) + |loaded|
  {
    var existing := manager.accounts.Keys;
    loaded, parsed := [], [];
    var i := 0;
    while i < |lines|
      invariant 0 <= i <= |lines|
      invariant loaded == SelectedLines(lines[..i], existing)
      invariant parsed == DecodedLines(loaded, old(ids.value))
      invariant ids.value == old(ids.value) + Generated(loaded)
      invariant manager.accountCount == old(manager.accountCount)
    {
      var line := lines[i];
      CollectStep(lines, i, SelectedBy(existing));
      if !IsBlank(line) {
        var accountNumber := ExtractAccountNumber(line);
        if accountNumber.Some? && accountNumber.value !in existing {
          assert Selected(line, existing);
          var p := ParseNext(line, loaded, old(ids.value), ids);
          parsed := parsed + [p];
          loaded := loaded + [line];
        } else {
          assert !Selected(line, existing);
        }
      } else {
        assert !Selected(line, existing);
      }
      i := i + 1;
    }
    assert lines[..i] == lines;
    manager.accountCount := manager.accountCount + |loaded|;
  }

  /** The entry deserializeTransaction builds from one trimmed line, if any; a failing line is skipped. */
  function EntryOf(line: string): (r: seq<Transaction>)
    ensures |r| <= 1
  {
    if IsBlank(line) then []
    else
      match DeserializeTransaction(Trim(line))
      case Ok(Some(t)) => [t]
      case _ => []
  }

  /**
   * The body of the read loop for one line: a blank line is skipped, and a
   * line that deserializes to an entry yields it.
   */
  method ReadEntry(line: string) returns (e: seq<Transaction>)
    ensures e == EntryOf(line)
  {
    e := [];
    if !IsBlank(line) {
      var t := DeserializeTransaction(Trim(line));
      if t.Ok? && t.value.Some? {
        e := [t.value.value];
      }
    }
  }

  /** Every entry the lines of a transactions file yield, in file order. */
  function ParsedEntries(lines: seq<string>): seq<Transaction>
  {
    Collect(lines, EntryOf)
  }

  /**
   * readTransactionsFromFile as written: the seen-set holds Transaction
   * objects, which compare by identity, and every parsed entry is a new
   * object, so the membership test never succeeds and every entry is kept.
   */
  method ReadTransactionsAsWritten(lines: seq<string>) returns (loaded: seq<Transaction>)
    ensures loaded == ParsedEntries(lines)
  {
    loaded := [];
    var i := 0;
    while i < |lines|
      invariant 0 <= i <= |lines|
      invariant loaded == ParsedEntries(lines[..i])
    {
      CollectStep(lines, i, EntryOf);
      var e := ReadEntry(lines[i]);
      loaded := loaded + e;
      i := i + 1;
    }
    assert lines[..i] == lines;
  }

  /** The first character of a join of at least two fields. */
  lemma JoinFirst(fields: seq<string>, sep: char)
    requires |fields| >= 2
    ensures |Join(fields, sep)| >= 1
    ensures Join(fields, sep)[0] == if fields[0] == [] then sep else fields[0][0]
  {
    assert Join(fields, sep) == fields[0] + [sep] + Join(fields[1..], sep);
  }

  /** A written entry, read back as one line of the file, yields itself with the timestamp cut to the second. */
  lemma EntryOfWritten(t: Transaction)
    requires Storable(t.id) && Storable(t.accountNumber) && Storable(t.txnType)
    requires Clock.Valid(t.timestamp)
    ensures EntryOf(SerializeTransaction(t)) == [t.(timestamp := t.timestamp.(nano := 0))]
  {
    var fields := [t.id, t.accountNumber, t.txnType, FormatCents(t.amount), FormatCents(t.balanceAfter),
                   Format(t.timestamp)];
    var line := SerializeTransaction(t);
    TransactionRoundTrip(t);
    FormatShape(t.timestamp);
    FormatSlices(t.timestamp);
    JoinLast(fields, Sep);
    JoinFirst(fields, Sep);
    NotBlankByLast(line);
    TrimOfUntrimmable(line);
  }

  /** Two copies of the same written line both load, giving two entries with one id. */
  lemma AsWrittenKeepsDuplicates(t: Transaction)
    requires Storable(t.id) && Storable(t.accountNumber) && Storable(t.txnType)
    requires Clock.Valid(t.timestamp)
    ensures var line := SerializeTransaction(t);
            var loaded := ParsedEntries([line, line]);
            |loaded| == 2 && loaded[0].id == loaded[1].id == t.id
  {
    var line := SerializeTransaction(t);
    EntryOfWritten(t);
    CollectStep([line, line], 0, EntryOf);
    CollectStep([line, line], 1, EntryOf);
    assert [line, line][..0] == [];
    assert [line, line][..2] == [line, line];
  }

  /** The key the corrected load deduplicates by. */
  function IdOf(t: Transaction): string
  {
    t.id
  }

  /** The ids of a sequence of entries. */
  function IdsOf(entries: seq<Transaction>): set<string>
  {
    Keys(entries, IdOf)
  }

  /** One more line adds its entry unless the entry's id is already known or loaded. */
  lemma LoadStep(lines: seq<string>, i: nat, known: set<string>)
    requires i < |lines|
    ensures var kept := DedupBy(ParsedEntries(lines[..i]), IdOf, known);
            var e := EntryOf(lines[i]);
            DedupBy(ParsedEntries(lines[..i + 1]), IdOf, known) ==
              if e == [] || e[0].id in known + IdsOf(kept) then kept else kept + e
  {
    CollectStep(lines, i, EntryOf);
    var e := EntryOf(lines[i]);
    if e != [] {
      assert e == [e[0]];
      DedupStep(ParsedEntries(lines[..i]), e[0], IdOf, known);
    } else {
      assert ParsedEntries(lines[..i]) + e == ParsedEntries(lines[..i]);
    }
  }

  /**
   * readTransactionsFromFile as evidently intended: an entry whose id is
   * already in the ledger or already loaded is skipped.
   */
  method LoadTransactions(lines: seq<string>, known: set<string>) returns (loaded: seq<Transaction>)
    ensures loaded == DedupBy(ParsedEntries(lines), IdOf, known)
  {
    loaded := [];
    var seen := known;
    var i := 0;
    while i < |lines|
      invariant 0 <= i <= |lines|
      invariant loaded == DedupBy(ParsedEntries(lines[..i]), IdOf, known)
      invariant seen == known + IdsOf(loaded)
    {
      LoadStep(lines, i, known);
      var e := ReadEntry(lines[i]);
      if e != [] && e[0].id !in seen {
        KeysAppend(loaded, e[0], IdOf);
        assert e == [e[0]];
        loaded := loaded + e;
        seen := seen + {e[0].id};
      }
      i := i + 1;
    }
    assert lines[..i] == lines;
  }

  /**
   * What the corrected load returns: entries read from the lines, with
   * distinct ids none of which the ledger already holds, and every id in the
   * file either already known or loaded; a file without repeated or known
   * ids loads whole.
   */
  lemma LoadTransactionsSpec(lines: seq<string>, known: set<string>)
    ensures var loaded := DedupBy(ParsedEntries(lines), IdOf, known);
            DistinctKeys(loaded, IdOf) && IdsOf(loaded) !! known &&
            multiset(loaded) <= multiset(ParsedEntries(lines)) &&
            IdsOf(ParsedEntries(lines)) <= known + IdsOf(loaded) &&
            (DistinctKeys(ParsedEntries(lines), IdOf) && IdsOf(ParsedEntries(lines)) !! known ==>
               loaded == ParsedEntries(lines))
  {
    var entries := ParsedEntries(lines);
    DedupDistinct(entries, IdOf, known);
    DedupSubset(entries, IdOf, known);
    DedupComplete(entries, IdOf, known);
    if DistinctKeys(entries, IdOf) && IdsOf(entries) !! known {
      DedupKeepsDistinct(entries, IdOf, known);
    }
  }
}
