/**
 * ValidationUtils: console prompts that ask again until a line is
 * acceptable. The console is the sequence of lines the user types; a prompt
 * reads from a position onward and yields the value it returns together
 * with the position after the line that supplied it, or None when the lines
 * run out first (the scanner's end-of-input exception).
 */
module Validation {
  import opened Errors
  import opened Text
  import opened Money
  import opened Accounts

  /** A value read from the console and the position of the next unread line. */
  datatype Read<T> = Read(value: T, next: nat)

  /**
   * The value the first acceptable line at or after `from` yields: every
   * line before it is refused, and without one every remaining line is.
   */
  function FirstAnswer<T>(lines: seq<string>, from: nat, answer: string -> Option<T>): (r: Option<Read<T>>)
    ensures r.Some? ==> from < r.value.next <= |lines| && answer(lines[r.value.next - 1]) == Some(r.value.value)
    ensures r.Some? ==> forall k | from <= k < r.value.next - 1 :: answer(lines[k]).None?
    ensures r.None? ==> forall k | from <= k < |lines| :: answer(lines[k]).None?
    decreases |lines| - from
  {
    if from >= |lines| then None
    else
      match answer(lines[from])
      case Some(v) => Some(Read(v, from + 1))
      case None => FirstAnswer(lines, from + 1, answer)
  }

  /** Conversely, the first acceptable line is the one the prompt settles on. */
  lemma {:induction false} FirstAnswerAt<T>(lines: seq<string>, from: nat, answer: string -> Option<T>, j: nat)
    requires from <= j < |lines| && answer(lines[j]).Some?
    requires forall k | from <= k < j :: answer(lines[k]).None?
    ensures FirstAnswer(lines, from, answer) == Some(Read(answer(lines[j]).value, j + 1))
    decreases j - from
  {
    if from < j {
      FirstAnswerAt(lines, from + 1, answer, j);
    }
  }

  /** Refused lines can be skipped without changing what the prompt settles on. */
  lemma {:induction false} FirstAnswerSkip<T>(lines: seq<string>, from: nat, upTo: nat, answer: string -> Option<T>)
    requires from <= upTo
    requires forall k | from <= k < upTo && k < |lines| :: answer(lines[k]).None?
    ensures FirstAnswer(lines, from, answer) == FirstAnswer(lines, upTo, answer)
    decreases upTo - from
  {
    if from < upTo && from < |lines| {
      FirstAnswerSkip(lines, from + 1, upTo, answer);
    }
  }

  /** The `while (true)` read loop every prompt below is built on. */
  method Prompt<T>(lines: seq<string>, from: nat, answer: string -> Option<T>) returns (r: Option<Read<T>>)
    ensures r == FirstAnswer(lines, from, answer)
  {
    var pos := from;
    while pos < |lines|
      invariant from <= pos
      invariant FirstAnswer(lines, from, answer) == FirstAnswer(lines, pos, answer)
      decreases |lines| - pos
    {
      var a := answer(lines[pos]);
      if a.Some? {
        return Some(Read(a.value, pos + 1));
      }
      pos := pos + 1;
    }
    return None;
  }

  // ------------------------------------------------------- getValidatedInput

  /** A blank line is refused; otherwise the line itself when it matches the whole pattern. */
  function ValidatedAnswer(matches: string -> bool, line: string): Option<string>
  {
    if IsBlank(line) then None
    else if matches(line) then Some(line)
    else None
  }

  function Validated(matches: string -> bool): string -> Option<string>
  {
    line => ValidatedAnswer(matches, line)
  }

  /** A pattern that never matches a blank line makes the blank test redundant. */
  lemma ValidatedByPattern(matches: string -> bool, line: string)
    requires forall s :: matches(s) ==> !IsBlank(s)
    ensures Validated(matches)(line) == if matches(line) then Some(line) else None
  {
  }

  method GetValidatedInput(lines: seq<string>, from: nat, matches: string -> bool) returns (r: Option<Read<string>>)
    ensures r == FirstAnswer(lines, from, Validated(matches))
    ensures r.Some? ==> !IsBlank(r.value.value) && matches(r.value.value)
  {
    r := Prompt(lines, from, Validated(matches));
  }

  // ------------------------------------------------------- getValidAgeInput

  /** `readInt`: the trimmed line parsed as an integer; an unparsable line is read again. */
  function ReadInt(line: string): Option<int>
  {
    ParseInt(Trim(line))
  }

  /** getValidAgeInput as written: 0 < age < 120. */
  function AgeAnswer(line: string): Option<int>
  {
    match ReadInt(line)
    case Some(n) => if n > 0 && n < 120 then Some(n) else None
    case None => None
  }

  /** The age range the customer record itself demands, and the prompt's own message states. */
  function AdultAgeAnswer(line: string): Option<int>
  {
    match ReadInt(line)
    case Some(n) => if 18 <= n <= 120 then Some(n) else None
    case None => None
  }

  /** The age typed as plain decimal text is accepted exactly when it lies in 1..119. */
  lemma AgeAnswerRange(n: nat)
    ensures AgeAnswer(NatToDecimal(n)) == (if 0 < n < 120 then Some(n) else None)
  {
    TrimOfDecimal(n);
    ParseIntDecimal(n);
  }

  /** The corrected prompt accepts exactly the ages the customer record accepts. */
  lemma AdultAgeAnswerRange(n: nat)
    ensures AdultAgeAnswer(NatToDecimal(n)) == (if 18 <= n <= 120 then Some(n) else None)
  {
    TrimOfDecimal(n);
    ParseIntDecimal(n);
  }

  /** As written, ages 1..17 pass the prompt though the customer record refuses them, and 120 the other way round. */
  lemma AgeAnswerDisagrees()
    ensures AgeAnswer("17") == Some(17) && AdultAgeAnswer("17").None?
    ensures AgeAnswer("120").None? && AdultAgeAnswer("120") == Some(120)
  {
    AgeAnswerRange(17);
    AdultAgeAnswerRange(17);
    AgeAnswerRange(120);
    AdultAgeAnswerRange(120);
    assert NatToDecimal(17) == "17";
    assert NatToDecimal(120) == "120";
  }

  lemma TrimOfDecimal(n: nat)
    ensures Trim(NatToDecimal(n)) == NatToDecimal(n)
  {
    var s := NatToDecimal(n);
    assert IsDigit(s[0]) && IsDigit(s[|s| - 1]);
    TrimOfUntrimmable(s);
  }

  method GetValidAgeInput(lines: seq<string>, from: nat) returns (r: Option<Read<int>>)
    ensures r == FirstAnswer(lines, from, AgeAnswer)
    ensures r.Some? ==> 0 < r.value.value < 120
  {
    r := Prompt(lines, from, AgeAnswer);
  }

  method GetAdultAgeInput(lines: seq<string>, from: nat) returns (r: Option<Read<int>>)
    ensures r == FirstAnswer(lines, from, AdultAgeAnswer)
    ensures r.Some? ==> 18 <= r.value.value <= 120
  {
    r := Prompt(lines, from, AdultAgeAnswer);
  }

  // --------------------------------------------------- getValidAccountNumber

  /** "ACC" followed by exactly three decimal digits. */
  predicate IsAccountNumberText(s: string)
  {
    |s| == 6 && s[..3] == "ACC" && AllDigits(s[3..])
  }

  /** The line trimmed and upper-cased; "0" cancels with "exit". */
  function AccountNumberAnswer(line: string): Option<string>
  {
    var a := ToUpper(Trim(line));
    if EqualsIgnoreCase(a, "0") then Some("exit")
    else if IsAccountNumberText(a) then Some(a)
    else None
  }

  /** The answer is the cancel word or a well-formed number, never a number that reads as "exit". */
  lemma AccountNumberAnswerShape(line: string)
    ensures AccountNumberAnswer(line).Some? ==>
              var a := AccountNumberAnswer(line).value;
              (a == "exit" <==> Trim(line) == "0") && (a != "exit" ==> IsAccountNumberText(a))
  {
    var a := ToUpper(Trim(line));
    if EqualsIgnoreCase(a, "0") {
      var t := Trim(line);
      assert UpperChar(a[0]) == UpperChar("0"[0]) && a[0] == UpperChar(t[0]);
      assert t == "0";
    }
  }

  /** Typing an accepted number again gives the same number. */
  lemma AccountNumberAnswerIdempotent(line: string)
    requires AccountNumberAnswer(line).Some? && AccountNumberAnswer(line).value != "exit"
    ensures AccountNumberAnswer(AccountNumberAnswer(line).value) == AccountNumberAnswer(line)
  {
    var a := ToUpper(Trim(line));
    assert IsAccountNumberText(a);
    assert a[0] == 'A' && a[5] == UpperChar(a[5]);
    TrimOfUntrimmable(a);
    assert ToUpper(a) == a by {
      forall k | 0 <= k < |a| ensures UpperChar(a[k]) == a[k] {
        if k >= 3 { assert a[k] == a[3..][k - 3]; }
      }
    }
  }

  /** A generated account number can be typed back exactly while the counter is below 1000. */
  lemma AccountNumberAccepted(n: nat)
    ensures AccountNumberAnswer(AccountNumber(n)) == (if n < 1000 then Some(AccountNumber(n)) else None)
  {
    var s := AccountNumber(n);
    Format3RoundTrip(n);
    assert s[..3] == "ACC" && s[3..] == Format3(n);
    assert IsDigit(s[|s| - 1]) by { assert s[|s| - 1] == Format3(n)[|Format3(n)| - 1]; }
    TrimOfUntrimmable(s);
    assert ToUpper(s) == s by {
      forall k | 0 <= k < |s| ensures UpperChar(s[k]) == s[k] {
        if k >= 3 { assert s[k] == Format3(n)[k - 3]; }
      }
    }
    Format3Width(n);
    assert !EqualsIgnoreCase(s, "0");
  }

  /** `%03d` is exactly three digits below 1000 and longer from there on. */
  lemma Format3Width(n: nat)
    ensures |Format3(n)| == 3 <==> n < 1000
  {
    PadZerosValue(NatToDecimal(n), 3);
    DecimalWidth(n);
  }

  lemma {:induction false} DecimalWidth(n: nat)
    ensures n < 1000 ==> |NatToDecimal(n)| <= 3
    ensures n >= 1000 ==> |NatToDecimal(n)| >= 4
  {
    if n >= 10 {
      DecimalWidth(n / 10);
    }
  }

  method GetValidAccountNumber(lines: seq<string>, from: nat) returns (r: Option<Read<string>>)
    ensures r == FirstAnswer(lines, from, AccountNumberAnswer)
    ensures r.Some? ==> r.value.value == "exit" || IsAccountNumberText(r.value.value)
  {
    r := Prompt(lines, from, AccountNumberAnswer);
    if r.Some? {
      AccountNumberAnswerShape(lines[r.value.next - 1]);
    }
  }

  // ---------------------------------------------------------- getValidAmount

  /** getValidAmount(prompt): a number above zero. */
  function PositiveAmount(line: string): Option<Cents>
  {
    match ParseCents(line)
    case Some(a) => if a <= 0 then None else Some(a)
    case None => None
  }

  /** getValidAmount(prompt, min, max): at least min, and at most max only when max is positive. */
  function BoundedAmount(min: Cents, max: Cents, line: string): Option<Cents>
  {
    match ParseCents(line)
    case Some(a) => if a < min then None else if max > 0 && a > max then None else Some(a)
    case None => None
  }

  function Bounded(min: Cents, max: Cents): string -> Option<Cents>
  {
    line => BoundedAmount(min, max, line)
  }

  /** getValidAmount(prompt, min): at least min. */
  function AtLeastAmount(min: Cents, line: string): Option<Cents>
  {
    match ParseCents(line)
    case Some(a) => if a < min then None else Some(a)
    case None => None
  }

  function AtLeast(min: Cents): string -> Option<Cents>
  {
    line => AtLeastAmount(min, line)
  }

  /** An amount typed as the two-decimal text of c is accepted, as c, exactly when it is positive. */
  lemma PositiveAmountExactly(c: Cents)
    ensures PositiveAmount(FormatCents(c)) == if c > 0 then Some(c) else None
  {
    CentsRoundTrip(c);
  }

  /** Both bounds are inclusive; the upper one applies only when positive. */
  lemma BoundedAmountExactly(min: Cents, max: Cents, c: Cents)
    ensures Bounded(min, max)(FormatCents(c)) == if min <= c && (max <= 0 || c <= max) then Some(c) else None
  {
    CentsRoundTrip(c);
  }

  /** With no positive maximum the bounded prompt is the at-least prompt. */
  lemma BoundedWithoutMaximum(min: Cents, max: Cents, line: string)
    requires max <= 0
    ensures Bounded(min, max)(line) == AtLeast(min)(line)
  {
  }

  lemma AtLeastAmountExactly(min: Cents, c: Cents)
    ensures AtLeast(min)(FormatCents(c)) == if min <= c then Some(c) else None
  {
    CentsRoundTrip(c);
  }

  method GetValidAmount(lines: seq<string>, from: nat) returns (r: Option<Read<Cents>>)
    ensures r == FirstAnswer(lines, from, PositiveAmount)
    ensures r.Some? ==> r.value.value > 0
  {
    r := Prompt(lines, from, PositiveAmount);
  }

  method GetValidAmountBetween(lines: seq<string>, from: nat, min: Cents, max: Cents) returns (r: Option<Read<Cents>>)
    ensures r == FirstAnswer(lines, from, Bounded(min, max))
    ensures r.Some? ==> min <= r.value.value && (max > 0 ==> r.value.value <= max)
  {
    r := Prompt(lines, from, Bounded(min, max));
  }

  method GetValidAmountAtLeast(lines: seq<string>, from: nat, min: Cents) returns (r: Option<Read<Cents>>)
    ensures r == FirstAnswer(lines, from, AtLeast(min))
    ensures r.Some? ==> min <= r.value.value
  {
    r := Prompt(lines, from, AtLeast(min));
  }
}
