/**
 * The java.lang.String operations the ledger relies on, over `seq<char>`:
 * trim, blank tests, ASCII case folding, `split` with a one-character
 * separator, decimal digits and the `%03d` zero padding of identifiers.
 */
module Text {
  import opened Errors

  // ---------------------------------------------------------------- trim

  /** String.trim removes every character whose code is at most U+0020. */
  predicate IsTrimmed(c: char) { c <= ' ' }

  function TrimStart(s: string): string
    decreases |s|
  {
    if |s| > 0 && IsTrimmed(s[0]) then TrimStart(s[1..]) else s
  }

  function TrimEnd(s: string): string
    decreases |s|
  {
    if |s| > 0 && IsTrimmed(s[|s| - 1]) then TrimEnd(s[..|s| - 1]) else s
  }

  function Trim(s: string): string
  {
    TrimEnd(TrimStart(s))
  }

  /** A string that `trim` leaves as it is. */
  predicate Untrimmable(s: string)
  {
    s == [] || (!IsTrimmed(s[0]) && !IsTrimmed(s[|s| - 1]))
  }

  /** `s == null || s.trim().isEmpty()` for a non-null s. */
  predicate IsBlank(s: string)
  {
    Trim(s) == []
  }

  lemma {:induction false} TrimStartShape(s: string)
    ensures |TrimStart(s)| <= |s|
    ensures TrimStart(s) == s[|s| - |TrimStart(s)|..]
    ensures forall k :: 0 <= k < |s| - |TrimStart(s)| ==> IsTrimmed(s[k])
    ensures TrimStart(s) == [] || !IsTrimmed(TrimStart(s)[0])
    decreases |s|
  {
    if |s| > 0 && IsTrimmed(s[0]) {
      TrimStartShape(s[1..]);
    }
  }

  lemma {:induction false} TrimEndShape(s: string)
    ensures |TrimEnd(s)| <= |s|
    ensures TrimEnd(s) == s[..|TrimEnd(s)|]
    ensures forall k :: |TrimEnd(s)| <= k < |s| ==> IsTrimmed(s[k])
    ensures TrimEnd(s) == [] || !IsTrimmed(TrimEnd(s)[|TrimEnd(s)| - 1])
    decreases |s|
  {
    if |s| > 0 && IsTrimmed(s[|s| - 1]) {
      TrimEndShape(s[..|s| - 1]);
    }
  }

  /** `trim` returns a middle slice of its input that begins and ends with a kept character. */
  lemma TrimShape(s: string)
    ensures Untrimmable(Trim(s))
    ensures exists i, j :: 0 <= i <= j <= |s| && Trim(s) == s[i..j]
  {
    TrimStartShape(s);
    TrimEndShape(TrimStart(s));
    var i := |s| - |TrimStart(s)|;
    var t := TrimEnd(TrimStart(s));
    if t != [] {
      assert t[0] == TrimStart(s)[0];
    }
    assert Trim(s) == s[i..i + |t|];
  }

  /** Strings without surrounding white space are their own trim. */
  lemma {:induction false} TrimOfUntrimmable(s: string)
    requires Untrimmable(s)
    ensures Trim(s) == s
  {
    if s != [] {
      assert TrimStart(s) == s;
      assert TrimEnd(s) == s;
    }
  }

  /** A string is blank exactly when each of its characters is white space. */
  lemma BlankIffAllTrimmed(s: string)
    ensures IsBlank(s) <==> forall k :: 0 <= k < |s| ==> IsTrimmed(s[k])
  {
    TrimStartShape(s);
    TrimEndShape(TrimStart(s));
    if !IsBlank(s) {
      var k := |s| - |TrimStart(s)|;
      assert !IsTrimmed(s[k]);
    }
  }

  // ------------------------------------------------------- ASCII case folding

  /** Character.toUpperCase restricted to ASCII letters. */
  function UpperChar(c: char): char
  {
    if 'a' <= c <= 'z' then (c as int - 32) as char else c
  }

  function ToUpper(s: string): (r: string)
    ensures |r| == |s|
  {
    seq(|s|, k requires 0 <= k < |s| => UpperChar(s[k]))
  }

  /** String.equalsIgnoreCase over ASCII. */
  predicate EqualsIgnoreCase(a: string, b: string)
  {
    |a| == |b| && forall k :: 0 <= k < |a| ==> UpperChar(a[k]) == UpperChar(b[k])
  }

  /** Comparing ignoring case is comparing the upper-cased strings. */
  lemma EqualsIgnoreCaseIffUpper(a: string, b: string)
    ensures EqualsIgnoreCase(a, b) <==> ToUpper(a) == ToUpper(b)
  {
    if ToUpper(a) == ToUpper(b) {
      forall k | 0 <= k < |a|
        ensures UpperChar(a[k]) == UpperChar(b[k])
      {
        assert ToUpper(a)[k] == ToUpper(b)[k];
      }
    }
  }

  // ------------------------------------------------------------------ split

  /** Index of the first `c` in `s`, or |s| when there is none. */
  function IndexOf(s: string, c: char): (r: nat)
    ensures r <= |s|
    ensures r < |s| ==> s[r] == c
    ensures forall k :: 0 <= k < r ==> s[k] != c
    decreases |s|
  {
    if s == [] then 0 else if s[0] == c then 0 else 1 + IndexOf(s[1..], c)
  }

  /** The pieces between separators, trailing empty pieces kept. */
  function SplitOn(s: string, sep: char): (r: seq<string>)
    ensures |r| >= 1
    ensures forall k :: 0 <= k < |r| ==> sep !in r[k]
    decreases |s|
  {
    var i := IndexOf(s, sep);
    if i == |s| then [s] else [s[..i]] + SplitOn(s[i + 1..], sep)
  }

  function DropTrailingEmpty(p: seq<string>): (r: seq<string>)
    ensures |r| <= |p| && r == p[..|r|]
    ensures r == [] || r[|r| - 1] != []
  {
    if |p| > 0 && p[|p| - 1] == [] then DropTrailingEmpty(p[..|p| - 1]) else p
  }

  /**
   * String.split with a one-character pattern: without a separator the whole
   * string is the only element; otherwise trailing empty strings are removed.
   */
  function Split(s: string, sep: char): seq<string>
  {
    if sep !in s then [s] else DropTrailingEmpty(SplitOn(s, sep))
  }

  /** String.join(sep, fields). */
  function Join(fields: seq<string>, sep: char): string
    requires |fields| >= 1
  {
    if |fields| == 1 then fields[0] else fields[0] + [sep] + Join(fields[1..], sep)
  }

  lemma {:induction false} SplitOnJoin(fields: seq<string>, sep: char)
    requires |fields| >= 1
    requires forall k :: 0 <= k < |fields| ==> sep !in fields[k]
    ensures SplitOn(Join(fields, sep), sep) == fields
    decreases |fields|
  {
    var s := Join(fields, sep);
    if |fields| == 1 {
      assert IndexOf(s, sep) == |s|;
    } else {
      var f := fields[0];
      assert s == f + [sep] + Join(fields[1..], sep);
      assert s[|f|] == sep;
      assert forall k :: 0 <= k < |f| ==> s[k] == f[k];
      assert IndexOf(s, sep) == |f|;
      assert s[..|f|] == f;
      assert s[|f| + 1..] == Join(fields[1..], sep);
      SplitOnJoin(fields[1..], sep);
    }
  }

  /** Splitting a join gives back the fields, when none holds the separator and the last is not empty. */
  lemma SplitJoin(fields: seq<string>, sep: char)
    requires |fields| >= 2
    requires forall k :: 0 <= k < |fields| ==> sep !in fields[k]
    requires fields[|fields| - 1] != []
    ensures Split(Join(fields, sep), sep) == fields
  {
    var s := Join(fields, sep);
    assert s == fields[0] + [sep] + Join(fields[1..], sep);
    assert s[|fields[0]|] == sep;
    SplitOnJoin(fields, sep);
  }

  // ------------------------------------------------------------------ digits

  predicate IsDigit(c: char) { '0' <= c <= '9' }

  predicate AllDigits(s: string)
  {
    forall k :: 0 <= k < |s| ==> IsDigit(s[k])
  }

  function DigitChar(d: nat): (c: char)
    requires d < 10
    ensures IsDigit(c)
  {
    ('0' as int + d) as char
  }

  function DigitValue(c: char): (d: nat)
    requires IsDigit(c)
    ensures d < 10 && DigitChar(d) == c
  {
    c as int - '0' as int
  }

  /** Integer.toString of any int. */
  function IntToDecimal(i: int): (r: string)
    ensures |r| >= 1
  {
    if i < 0 then "-" + NatToDecimal(-i) else NatToDecimal(i)
  }

  /** Decimal text of a natural number without leading zeros. */
  function NatToDecimal(n: nat): (r: string)
    ensures |r| >= 1 && AllDigits(r)
    ensures n > 0 ==> r[0] != '0'
  {
    if n < 10 then [DigitChar(n)] else NatToDecimal(n / 10) + [DigitChar(n % 10)]
  }

  /** Value of a run of decimal digits, read left to right. */
  function DecimalToNat(s: string): nat
    requires AllDigits(s)
  {
    if s == [] then 0 else DecimalToNat(s[..|s| - 1]) * 10 + DigitValue(s[|s| - 1])
  }

  /** Reading back the decimal text of n gives n. */
  lemma {:induction false} DecimalRoundTrip(n: nat)
    ensures DecimalToNat(NatToDecimal(n)) == n
  {
    var s := NatToDecimal(n);
    if n >= 10 {
      DecimalRoundTrip(n / 10);
      assert s[..|s| - 1] == NatToDecimal(n / 10);
    }
  }

  /** Leading zeros do not change a decimal value. */
  lemma {:induction false} LeadingZero(s: string)
    requires AllDigits(s)
    ensures AllDigits(['0'] + s) && DecimalToNat(['0'] + s) == DecimalToNat(s)
    decreases |s|
  {
    if s != [] {
      var t := ['0'] + s;
      assert t[..|t| - 1] == ['0'] + s[..|s| - 1];
      LeadingZero(s[..|s| - 1]);
    }
  }

  /** `String.format("%0<width>d", …)` of a digit string: left-padded with zeros. */
  function PadZeros(s: string, width: nat): (r: string)
    requires AllDigits(s)
    ensures AllDigits(r)
    decreases width - |s|
  {
    if |s| >= width then s else PadZeros(['0'] + s, width)
  }

  lemma {:induction false} PadZerosValue(s: string, width: nat)
    requires AllDigits(s)
    ensures |PadZeros(s, width)| == if |s| >= width then |s| else width
    ensures DecimalToNat(PadZeros(s, width)) == DecimalToNat(s)
    decreases width - |s|
  {
    if |s| < width {
      LeadingZero(s);
      PadZerosValue(['0'] + s, width);
    }
  }

  /** `%03d` of a counter value. */
  function Format3(n: nat): string
  {
    PadZeros(NatToDecimal(n), 3)
  }

  /** `%03d` text is at least three digits and reads back as the number. */
  lemma Format3RoundTrip(n: nat)
    ensures AllDigits(Format3(n)) && |Format3(n)| >= 3
    ensures DecimalToNat(Format3(n)) == n
  {
    PadZerosValue(NatToDecimal(n), 3);
    DecimalRoundTrip(n);
  }

  /** Different counter values never share a `%03d` text. */
  lemma Format3Injective(m: nat, n: nat)
    requires Format3(m) == Format3(n)
    ensures m == n
  {
    Format3RoundTrip(m);
    Format3RoundTrip(n);
  }

  /** "PREFIX" + `%03d`, the shape of account, entry and customer ids. */
  function PrefixedId(prefix: string, n: nat): string
  {
    prefix + Format3(n)
  }

  lemma PrefixedIdInjective(prefix: string, m: nat, n: nat)
    requires PrefixedId(prefix, m) == PrefixedId(prefix, n)
    ensures m == n
  {
    assert Format3(m) == PrefixedId(prefix, m)[|prefix|..];
    assert Format3(n) == PrefixedId(prefix, n)[|prefix|..];
    Format3Injective(m, n);
  }

  predicate StartsWith(s: string, p: string)
  {
    |p| <= |s| && s[..|p|] == p
  }

  /** The range of a Java `int`. */
  const MinInt: int := -0x8000_0000
  const MaxInt: int := 0x7fff_ffff

  /** An optional sign and at least one decimal digit, read without a width limit. */
  function ParseSigned(s: string): Option<int>
  {
    if |s| >= 2 && s[0] == '-' && AllDigits(s[1..]) then Some(-(DecimalToNat(s[1..]) as int))
    else if |s| >= 2 && s[0] == '+' && AllDigits(s[1..]) then Some(DecimalToNat(s[1..]))
    else if |s| >= 1 && AllDigits(s) then Some(DecimalToNat(s))
    else None
  }

  /**
   * Integer.parseInt: signed decimal text whose value fits in 32 bits; text
   * of the right shape whose value does not fit is refused like malformed text.
   */
  function ParseInt(s: string): (r: Option<int>)
    ensures r.Some? ==> MinInt <= r.value <= MaxInt
  {
    match ParseSigned(s)
    case Some(v) => if MinInt <= v <= MaxInt then Some(v) else None
    case None => None
  }

  /** Integer.parseInt reads `%03d` text back as the number it was made from, when that fits in 32 bits. */
  lemma ParseIntFormat3(n: nat)
    ensures ParseInt(Format3(n)) == if n <= MaxInt then Some(n) else None
  {
    Format3RoundTrip(n);
    var s := Format3(n);
    assert IsDigit(s[0]);
  }

  /** Integer.parseInt of plain decimal text: the number when it fits in 32 bits, otherwise a refusal. */
  lemma ParseIntDecimal(n: nat)
    ensures ParseInt(NatToDecimal(n)) == if n <= MaxInt then Some(n) else None
  {
    DecimalRoundTrip(n);
    var s := NatToDecimal(n);
    assert IsDigit(s[0]);
  }
}
