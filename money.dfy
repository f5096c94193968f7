/**
 * Money. The source keeps amounts in `double`s that only ever hold whole
 * cents, so the model keeps them as integer cents. `String.format("%.2f")`
 * becomes FormatCents and `Double.parseDouble` becomes ParseCents, restricted
 * to plain decimal text with at most two fractional digits.
 */
module Money {
  import opened Errors
  import opened Text

  /** An amount of money in cents; $1.00 is 100. */
  type Cents = int

  function TwoDigits(n: nat): (r: string)
    requires n < 100
    ensures |r| == 2 && AllDigits(r)
  {
    [DigitChar(n / 10), DigitChar(n % 10)]
  }

  /** `String.format("%.2f", amount)`: an optional minus, the whole units, a point and two digits. */
  function FormatCents(c: Cents): (r: string)
    ensures Untrimmable(r)
    ensures '|' !in r
  {
    var m: nat := if c < 0 then -c else c;
    (if c < 0 then "-" else "") + NatToDecimal(m / 100) + "." + TwoDigits(m % 100)
  }

  /** Value in cents of zero, one or two fractional digits. */
  function FractionCents(f: string): (v: nat)
    requires AllDigits(f) && |f| <= 2
    ensures v < 100
  {
    if |f| == 0 then 0
    else if |f| == 1 then DigitValue(f[0]) * 10
    else DigitValue(f[0]) * 10 + DigitValue(f[1])
  }

  /** Unsigned decimal text: digits, optionally a point and up to two digits, not both parts empty. */
  function ParseUnsignedCents(b: string): (r: Option<int>)
    ensures r.Some? ==> r.value >= 0
  {
    var i := IndexOf(b, '.');
    if i == |b| then
      if |b| >= 1 && AllDigits(b) then Some(DecimalToNat(b) * 100) else None
    else
      var whole := b[..i];
      var frac := b[i + 1..];
      if AllDigits(whole) && AllDigits(frac) && |frac| <= 2 && |whole| + |frac| >= 1
      then Some(DecimalToNat(whole) * 100 + FractionCents(frac))
      else None
  }

  /** `Double.parseDouble`: surrounding white space is ignored, then an optional sign. */
  function ParseCents(s: string): Option<Cents>
  {
    var t := Trim(s);
    if |t| >= 1 && t[0] == '-' then
      match ParseUnsignedCents(t[1..])
      case Some(v) => Some(-v)
      case None => None
    else if |t| >= 1 && t[0] == '+' then ParseUnsignedCents(t[1..])
    else ParseUnsignedCents(t)
  }

  lemma UnsignedRoundTrip(m: nat)
    ensures ParseUnsignedCents(NatToDecimal(m / 100) + "." + TwoDigits(m % 100)) == Some(m)
  {
    var d := NatToDecimal(m / 100);
    var two := TwoDigits(m % 100);
    var b := d + "." + two;
    assert b[|d|] == '.';
    assert forall k :: 0 <= k < |d| ==> b[k] == d[k];
    assert IndexOf(b, '.') == |d|;
    assert b[..|d|] == d;
    assert b[|d| + 1..] == two;
    DecimalRoundTrip(m / 100);
  }

  /** Reading back "%.2f" text gives the amount to the cent. */
  lemma CentsRoundTrip(c: Cents)
    ensures ParseCents(FormatCents(c)) == Some(c)
  {
    var s := FormatCents(c);
    TrimOfUntrimmable(s);
    var m: nat := if c < 0 then -c else c;
    UnsignedRoundTrip(m);
    if c < 0 {
      assert s[1..] == NatToDecimal(m / 100) + "." + TwoDigits(m % 100);
    } else {
      assert s == NatToDecimal(m / 100) + "." + TwoDigits(m % 100);
      assert IsDigit(s[0]);
      assert Trim(s) == s;
    }
  }

  /** Different amounts are written differently. */
  lemma FormatCentsInjective(a: Cents, b: Cents)
    requires FormatCents(a) == FormatCents(b)
    ensures a == b
  {
    CentsRoundTrip(a);
    CentsRoundTrip(b);
  }
}
