/**
 * AccountCreationInput: the patterns a new customer's name, contact and
 * address must match, the two type menus, the initial-deposit rules and the
 * account request assembled from the answers, read in that order.
 */
module CreationInput {
  import opened Errors
  import opened Text
  import opened Money
  import opened Accounts
  import opened Requests
  import opened AccountManagement
  import opened Validation

  /** The regular-expression class `\s`: space, tab, line feed, vertical tab, form feed, carriage return. */
  predicate IsSpace(c: char)
  {
    c == ' ' || 9 <= c as int <= 13
  }

  predicate IsLetter(c: char)
  {
    'A' <= c <= 'Z' || 'a' <= c <= 'z'
  }

  predicate IsAlphanumeric(c: char)
  {
    IsLetter(c) || IsDigit(c)
  }

  // ------------------------------------------------------------------ names

  /** A letter, an apostrophe or a hyphen. */
  predicate IsNameChar(c: char)
  {
    IsLetter(c) || c == '\'' || c == '-'
  }

  /** One word of a name: two letters, then letters, apostrophes and hyphens. */
  predicate IsWord(w: string)
  {
    |w| >= 2 && IsLetter(w[0]) && IsLetter(w[1]) && forall k | 0 <= k < |w| :: IsNameChar(w[k])
  }

  predicate NoSpace(s: string)
  {
    forall k | 0 <= k < |s| :: !IsSpace(s[k])
  }

  /** Length of the leading run of characters that are not white space. */
  function RunLength(s: string): (n: nat)
    ensures n <= |s| && NoSpace(s[..n])
    ensures n < |s| ==> IsSpace(s[n])
  {
    if s == [] || IsSpace(s[0]) then 0
    else
      var n := 1 + RunLength(s[1..]);
      assert s[..n] == [s[0]] + s[1..][..n - 1];
      n
  }

  /**
   * Words separated by single white-space characters. A word holds no white
   * space, so each word is a whole run between separators.
   */
  predicate SpacedWords(s: string)
    decreases |s|
  {
    var n := RunLength(s);
    IsWord(s[..n]) && (n == |s| || (IsSpace(s[n]) && SpacedWords(s[n + 1..])))
  }

  /** NAME_REGEX: at least two words. */
  predicate NameMatches(s: string)
  {
    RunLength(s) < |s| && SpacedWords(s)
  }

  lemma {:induction false} RunLengthOf(a: string, tail: string)
    requires NoSpace(a) && (tail == [] || IsSpace(tail[0]))
    ensures RunLength(a + tail) == |a|
  {
    if a != [] {
      assert (a + tail)[1..] == a[1..] + tail;
      RunLengthOf(a[1..], tail);
    }
  }

  /** A single word is words, but not a name. */
  lemma OneWord(w: string)
    requires NoSpace(w)
    ensures SpacedWords(w) <==> IsWord(w)
    ensures !NameMatches(w)
  {
    RunLengthOf(w, []);
    assert w + [] == w;
  }

  /** A name is a first word, one white-space character, then words. */
  lemma NameSplit(a: string, c: char, rest: string)
    requires NoSpace(a) && IsSpace(c)
    ensures SpacedWords(a + [c] + rest) <==> IsWord(a) && SpacedWords(rest)
    ensures NameMatches(a + [c] + rest) <==> IsWord(a) && SpacedWords(rest)
  {
    var s := a + [c] + rest;
    assert s == a + ([c] + rest);
    RunLengthOf(a, [c] + rest);
    assert s[..|a|] == a && s[|a|] == c && s[|a| + 1..] == rest;
  }

  /** A name starts with a letter, so it is never blank. */
  lemma NameNotBlank(s: string)
    requires NameMatches(s)
    ensures !IsBlank(s)
  {
    var n := RunLength(s);
    assert IsLetter(s[..n][0]);
    BlankIffAllTrimmed(s);
  }

  // --------------------------------------------------------------- contacts

  /** The mobile network prefixes the contact pattern lists. */
  const Prefixes: set<string> := {"24", "54", "55", "59", "25", "20", "50", "26", "56", "57", "23"}

  /** The trunk prefix "0" and the three spellings of the country code. */
  const CountryCodes: seq<string> := ["0", "+233", "233", "00233"]

  predicate IsSeparator(c: char)
  {
    IsSpace(c) || c == '-'
  }

  /** The width of an optional leading separator; a digit is never one, so taking it when present is the only way to match. */
  function SeparatorWidth(s: string): (n: nat)
    ensures n <= |s|
  {
    if |s| > 0 && IsSeparator(s[0]) then 1 else 0
  }

  /** `[\s-]?\d{3}[\s-]?\d{4}` */
  predicate SubscriberMatches(g: string)
  {
    var a := SeparatorWidth(g);
    |g| >= a + 3 && AllDigits(g[a..a + 3]) &&
    var h := g[a + 3..];
    var b := SeparatorWidth(h);
    |h| == b + 4 && AllDigits(h[b..])
  }

  /** A listed prefix, then the subscriber number. */
  predicate LocalMatches(r: string)
  {
    |r| >= 2 && r[..2] in Prefixes && SubscriberMatches(r[2..])
  }

  /** CONTACT_REGEX: one of the alternatives of the leading code, then the local number. */
  predicate ContactMatches(s: string)
  {
    exists i | 0 <= i < |CountryCodes| :: StartsWith(s, CountryCodes[i]) && LocalMatches(s[|CountryCodes[i]|..])
  }

  /** At most one separator character. */
  predicate OptionalSeparator(x: string)
  {
    x == [] || (|x| == 1 && IsSeparator(x[0]))
  }

  /** The parts of a contact: code, prefix, separator, three digits, separator, four digits. */
  predicate ContactParts(code: string, prefix: string, sep1: string, d3: string, sep2: string, d4: string)
  {
    code in CountryCodes && prefix in Prefixes && OptionalSeparator(sep1) && |d3| == 3 && AllDigits(d3) &&
    OptionalSeparator(sep2) && |d4| == 4 && AllDigits(d4)
  }

  function ContactText(code: string, prefix: string, sep1: string, d3: string, sep2: string, d4: string): string
  {
    code + prefix + sep1 + d3 + sep2 + d4
  }

  lemma SubscriberOfParts(sep1: string, d3: string, sep2: string, d4: string)
    requires OptionalSeparator(sep1) && |d3| == 3 && AllDigits(d3) && OptionalSeparator(sep2) && |d4| == 4 && AllDigits(d4)
    ensures SubscriberMatches(sep1 + d3 + sep2 + d4)
  {
    var g := sep1 + d3 + sep2 + d4;
    assert SeparatorWidth(g) == |sep1| by { assert IsDigit(d3[0]); if sep1 == [] { assert g[0] == d3[0]; } }
    assert g[|sep1|..|sep1| + 3] == d3;
    var h := g[|sep1| + 3..];
    assert h == sep2 + d4;
    assert SeparatorWidth(h) == |sep2| by { assert IsDigit(d4[0]); if sep2 == [] { assert h[0] == d4[0]; } }
    assert h[|sep2|..] == d4;
  }

  /** Every listed prefix has two digits. */
  lemma PrefixLength(p: string)
    requires p in Prefixes
    ensures |p| == 2
  {
  }

  /** A local number assembled from a listed prefix and valid subscriber parts matches. */
  lemma LocalFromParts(prefix: string, sep1: string, d3: string, sep2: string, d4: string)
    requires prefix in Prefixes
    requires OptionalSeparator(sep1) && |d3| == 3 && AllDigits(d3) && OptionalSeparator(sep2) && |d4| == 4 && AllDigits(d4)
    ensures LocalMatches(prefix + sep1 + d3 + sep2 + d4)
  {
    var g := sep1 + d3 + sep2 + d4;
    var r := prefix + g;
    PrefixLength(prefix);
    assert r[..2] == prefix && r[2..] == g;
    SubscriberOfParts(sep1, d3, sep2, d4);
    assert prefix + sep1 + d3 + sep2 + d4 == r;
  }

  /** A contact assembled from valid parts matches. */
  lemma ContactFromParts(code: string, prefix: string, sep1: string, d3: string, sep2: string, d4: string)
    requires ContactParts(code, prefix, sep1, d3, sep2, d4)
    ensures ContactMatches(ContactText(code, prefix, sep1, d3, sep2, d4))
  {
    var s := ContactText(code, prefix, sep1, d3, sep2, d4);
    var i :| 0 <= i < |CountryCodes| && CountryCodes[i] == code;
    var r := prefix + sep1 + d3 + sep2 + d4;
    ConcatRegroup(code, prefix, sep1, d3, sep2, d4);
    assert s[..|code|] == code && s[|code|..] == r;
    LocalFromParts(prefix, sep1, d3, sep2, d4);
  }

  /** The parts of a subscriber number that matches. */
  lemma SubscriberParts(g: string) returns (sep1: string, d3: string, sep2: string, d4: string)
    requires SubscriberMatches(g)
    ensures OptionalSeparator(sep1) && |d3| == 3 && AllDigits(d3)
    ensures OptionalSeparator(sep2) && |d4| == 4 && AllDigits(d4)
    ensures g == sep1 + d3 + sep2 + d4
  {
    var a := SeparatorWidth(g);
    var h := g[a + 3..];
    var b := SeparatorWidth(h);
    sep1, d3, sep2, d4 := g[..a], g[a..a + 3], h[..b], h[b..];
    assert h == sep2 + d4;
    assert g == sep1 + d3 + h;
  }

  /** The parts of a local number that matches. */
  lemma LocalParts(r: string) returns (prefix: string, sep1: string, d3: string, sep2: string, d4: string)
    requires LocalMatches(r)
    ensures |prefix| == 2 && prefix in Prefixes && OptionalSeparator(sep1) && |d3| == 3 && AllDigits(d3)
    ensures OptionalSeparator(sep2) && |d4| == 4 && AllDigits(d4)
    ensures r == prefix + sep1 + d3 + sep2 + d4
  {
    prefix := r[..2];
    sep1, d3, sep2, d4 := SubscriberParts(r[2..]);
    assert r == prefix + r[2..];
  }

  /** The leading code of a contact that matches. */
  lemma CodeOf(s: string) returns (code: string)
    requires ContactMatches(s)
    ensures code in CountryCodes && StartsWith(s, code) && LocalMatches(s[|code|..])
    ensures 1 <= |code| <= 5 && (code[0] == '0' || code[0] == '+' || code[0] == '2')
  {
    var i :| 0 <= i < |CountryCodes| && StartsWith(s, CountryCodes[i]) && LocalMatches(s[|CountryCodes[i]|..]);
    code := CountryCodes[i];
    assert i == 0 || i == 1 || i == 2 || i == 3;
  }

  /** A contact that matches is assembled from valid parts. */
  lemma ContactIntoParts(s: string)
    returns (code: string, prefix: string, sep1: string, d3: string, sep2: string, d4: string)
    requires ContactMatches(s)
    ensures ContactParts(code, prefix, sep1, d3, sep2, d4) && s == ContactText(code, prefix, sep1, d3, sep2, d4)
    ensures 1 <= |code| <= 5 && (code[0] == '0' || code[0] == '+' || code[0] == '2') && |prefix| == 2
  {
    code := CodeOf(s);
    var r := s[|code|..];
    prefix, sep1, d3, sep2, d4 := LocalParts(r);
    assert s == s[..|code|] + r;
    ConcatRegroup(code, prefix, sep1, d3, sep2, d4);
  }

  lemma ConcatRegroup(code: string, prefix: string, sep1: string, d3: string, sep2: string, d4: string)
    ensures code + (prefix + sep1 + d3 + sep2 + d4) == ContactText(code, prefix, sep1, d3, sep2, d4)
  {
    assert code + (prefix + sep1 + d3 + sep2 + d4) == code + prefix + sep1 + d3 + sep2 + d4;
  }

  /** A contact matches exactly when it is assembled from valid parts. */
  lemma ContactShape(s: string)
    ensures ContactMatches(s) <==>
              exists code, prefix, sep1, d3, sep2, d4 ::
                ContactParts(code, prefix, sep1, d3, sep2, d4) && s == ContactText(code, prefix, sep1, d3, sep2, d4)
  {
    if ContactMatches(s) {
      var code, prefix, sep1, d3, sep2, d4 := ContactIntoParts(s);
    }
    if exists code, prefix, sep1, d3, sep2, d4 ::
         ContactParts(code, prefix, sep1, d3, sep2, d4) && s == ContactText(code, prefix, sep1, d3, sep2, d4) {
      var code, prefix, sep1, d3, sep2, d4 :|
        ContactParts(code, prefix, sep1, d3, sep2, d4) && s == ContactText(code, prefix, sep1, d3, sep2, d4);
      ContactFromParts(code, prefix, sep1, d3, sep2, d4);
    }
  }

  /** A contact is ten to sixteen characters and starts with a digit or '+', so it is never blank. */
  lemma ContactBounds(s: string)
    requires ContactMatches(s)
    ensures 10 <= |s| <= 16 && !IsBlank(s)
  {
    var code, prefix, sep1, d3, sep2, d4 := ContactIntoParts(s);
    assert s[0] == code[0];
    assert !IsTrimmed(s[0]);
    BlankIffAllTrimmed(s);
  }

  // -------------------------------------------------------------- addresses

  predicate IsAddressChar(c: char)
  {
    IsAlphanumeric(c) || IsSpace(c) || c == ',' || c == '.' || c == '\'' || c == '-' || c == '/' || c == '#'
  }

  /** ADDRESS_REGEX: a letter or digit, then four to ninety-nine address characters. */
  predicate AddressMatches(s: string)
  {
    5 <= |s| <= 100 && IsAlphanumeric(s[0]) && forall k | 1 <= k < |s| :: IsAddressChar(s[k])
  }

  lemma AddressNotBlank(s: string)
    requires AddressMatches(s)
    ensures !IsBlank(s)
  {
    BlankIffAllTrimmed(s);
  }

  // ------------------------------------------------------------ type menus

  /** A menu choice: the line read as an integer, 1 or 2. */
  function TypeChoice(line: string): Option<int>
  {
    match ReadInt(line)
    case Some(n) => if n == 1 || n == 2 then Some(n) else None
    case None => None
  }

  /** Exactly the choices 1 and 2 are taken. */
  lemma TypeChoiceExactly(n: nat)
    ensures TypeChoice(NatToDecimal(n)) == if n == 1 || n == 2 then Some(n) else None
  {
    TrimOfDecimal(n);
    ParseIntDecimal(n);
  }

  // -------------------------------------------------------- initial deposit

  /** The least initial deposit of a premium customer: $10,000.00. */
  const PremiumMinimumDeposit: Cents := 1000000

  /**
   * A positive amount, refused below $10,000 for a premium customer
   * (checked first) and below the $500 minimum balance for savings.
   */
  function DepositAnswer(customerType: int, accountType: int, line: string): Option<Cents>
  {
    match PositiveAmount(line)
    case None => None
    case Some(a) =>
      if customerType == 2 && a < PremiumMinimumDeposit then None
      else if accountType == 1 && a < MinimumBalance then None
      else Some(a)
  }

  function DepositFor(customerType: int, accountType: int): string -> Option<Cents>
  {
    line => DepositAnswer(customerType, accountType, line)
  }

  /** An amount typed as the two-decimal text of c is accepted exactly when every rule allows c. */
  lemma DepositExactly(customerType: int, accountType: int, c: Cents)
    ensures DepositFor(customerType, accountType)(FormatCents(c)) ==
              if c > 0 && (customerType == 2 ==> c >= PremiumMinimumDeposit) && (accountType == 1 ==> c >= MinimumBalance)
              then Some(c) else None
  {
    PositiveAmountExactly(c);
  }

  /**
   * The initial-deposit loop: getValidAmount reads until a positive amount,
   * and an amount the customer or account type refuses starts it again.
   */
  method CollectInitialDeposit(lines: seq<string>, from: nat, customerType: int, accountType: int)
    returns (r: Option<Read<Cents>>)
    ensures r == FirstAnswer(lines, from, DepositFor(customerType, accountType))
  {
    var deposit := DepositFor(customerType, accountType);
    var pos := from;
    while true
      invariant from <= pos
      invariant FirstAnswer(lines, from, deposit) == FirstAnswer(lines, pos, deposit)
      decreases |lines| - pos
    {
      var amount := GetValidAmount(lines, pos);
      if amount.None? {
        FirstAnswerSkip(lines, pos, if pos < |lines| then |lines| else pos, deposit);
        return None;
      }
      var a, next := amount.value.value, amount.value.next;
      FirstAnswerSkip(lines, pos, next - 1, deposit);
      if customerType == 2 && a < PremiumMinimumDeposit {
        pos := next;
        continue;
      } else if accountType == 1 && a < MinimumBalance {
        pos := next;
        continue;
      }
      return Some(Read(a, next));
    }
  }

  // ---------------------------------------------------------------- request

  /** collectAccountCreationData: each answer read after the previous one; running out of lines gives null. */
  function Collected(lines: seq<string>): Option<AccountRequest>
  {
    match FirstAnswer(lines, 0, Validated(NameMatches))
    case None => None
    case Some(name) =>
      match FirstAnswer(lines, name.next, AgeAnswer)
      case None => None
      case Some(age) =>
        match FirstAnswer(lines, age.next, Validated(ContactMatches))
        case None => None
        case Some(contact) =>
          match FirstAnswer(lines, contact.next, Validated(AddressMatches))
          case None => None
          case Some(address) =>
            match FirstAnswer(lines, address.next, TypeChoice)
            case None => None
            case Some(customerType) =>
              match FirstAnswer(lines, customerType.next, TypeChoice)
              case None => None
              case Some(accountType) =>
                match FirstAnswer(lines, accountType.next, DepositFor(customerType.value, accountType.value))
                case None => None
                case Some(deposit) =>
                  Some(AccountRequest(name.value, age.value, contact.value, address.value,
                                      customerType.value, accountType.value, deposit.value))
  }

  method CollectAccountCreationData(lines: seq<string>) returns (r: Option<AccountRequest>)
    ensures r == Collected(lines)
  {
    var name := GetValidatedInput(lines, 0, NameMatches);
    if name.None? {
      return None;
    }
    var age := GetValidAgeInput(lines, name.value.next);
    if age.None? {
      return None;
    }
    var contact := GetValidatedInput(lines, age.value.next, ContactMatches);
    if contact.None? {
      return None;
    }
    var address := GetValidatedInput(lines, contact.value.next, AddressMatches);
    if address.None? {
      return None;
    }
    var customerType := Prompt(lines, address.value.next, TypeChoice);
    if customerType.None? {
      return None;
    }
    var accountType := Prompt(lines, customerType.value.next, TypeChoice);
    if accountType.None? {
      return None;
    }
    var deposit := CollectInitialDeposit(lines, accountType.value.next, customerType.value.value, accountType.value.value);
    if deposit.None? {
      return None;
    }
    r := Some(AccountRequest(name.value.value, age.value.value, contact.value.value, address.value.value,
                             customerType.value.value, accountType.value.value, deposit.value.value));
  }

  /** Every field of a collected request passed its check. */
  lemma CollectedRequestValid(lines: seq<string>)
    requires Collected(lines).Some?
    ensures var q := Collected(lines).value;
            NameMatches(q.name) && 0 < q.age < 120 && ContactMatches(q.contact) && AddressMatches(q.address) &&
            (q.customerType == 1 || q.customerType == 2) && (q.accountType == 1 || q.accountType == 2) &&
            q.initialDeposit > 0 &&
            (q.customerType == 2 ==> q.initialDeposit >= PremiumMinimumDeposit) &&
            (q.accountType == 1 ==> q.initialDeposit >= MinimumBalance)
  {
  }

  /**
   * A collected request passes the customer record's checks exactly when
   * its age is at least 18: the prompt lets ages 1..17 through.
   */
  lemma CollectedAcceptedIffAdult(lines: seq<string>)
    requires Collected(lines).Some?
    ensures CustomerAccepted(Collected(lines).value) <==> Collected(lines).value.age >= 18
  {
    CollectedRequestValid(lines);
    var q := Collected(lines).value;
    NameNotBlank(q.name);
    ContactBounds(q.contact);
    AddressNotBlank(q.address);
  }

  /** Fields that pass the patterns and the corrected age range always pass the customer record's checks. */
  lemma CorrectedRequestAccepted(q: AccountRequest)
    requires NameMatches(q.name) && ContactMatches(q.contact) && AddressMatches(q.address)
    requires 18 <= q.age <= 120
    ensures CustomerAccepted(q)
  {
    NameNotBlank(q.name);
    ContactBounds(q.contact);
    AddressNotBlank(q.address);
  }
}
