/**
 * LocalDateTime as the ledger uses it: entries are stamped with the current
 * time (passed in as a parameter), ordered by LocalDateTime.compareTo and
 * written with the pattern "dd-MM-yyyy hh:mm:ss a".
 */
module Clock {
  import opened Errors
  import opened Text

  datatype Timestamp = Timestamp(year: int, month: int, day: int,
                                 hour: int, minute: int, second: int, nano: int)

  /** The proleptic Gregorian leap-year rule of IsoChronology. */
  predicate IsLeapYear(year: int)
  {
    year % 4 == 0 && (year % 100 != 0 || year % 400 == 0)
  }

  /** The number of days in a month of the given year. */
  function MonthLength(year: int, month: int): (r: int)
    ensures 28 <= r <= 31
  {
    if month == 2 then (if IsLeapYear(year) then 29 else 28)
    else if month == 4 || month == 6 || month == 9 || month == 11 then 30
    else 31
  }

  /** Field ranges of a LocalDateTime with a four-digit year. */
  predicate Valid(t: Timestamp)
  {
    1 <= t.year <= 9999 && 1 <= t.month <= 12 && 1 <= t.day <= MonthLength(t.year, t.month) &&
    0 <= t.hour < 24 && 0 <= t.minute < 60 && 0 <= t.second < 60 &&
    0 <= t.nano < 1000000000
  }

  /** LocalDateTime.compareTo: field by field, most significant first. */
  predicate Before(a: Timestamp, b: Timestamp)
  {
    a.year < b.year ||
    (a.year == b.year && (a.month < b.month ||
    (a.month == b.month && (a.day < b.day ||
    (a.day == b.day && (a.hour < b.hour ||
    (a.hour == b.hour && (a.minute < b.minute ||
    (a.minute == b.minute && (a.second < b.second ||
    (a.second == b.second && a.nano < b.nano)))))))))))
  }

  function Mix(high: int, low: int, radix: int): int
  {
    high * radix + low
  }

  /** Days counted in a calendar of twelve 31-day months. */
  function DayNumber(t: Timestamp): int
  {
    Mix(Mix(t.year, t.month - 1, 12), t.day - 1, 31)
  }

  function SecondOfDay(t: Timestamp): int
  {
    Mix(Mix(t.hour, t.minute, 60), t.second, 60)
  }

  /** A single number that orders timestamps as compareTo does. */
  function Ticks(t: Timestamp): int
  {
    Mix(Mix(DayNumber(t), SecondOfDay(t), 86400), t.nano, 1000000000)
  }

  lemma MulMonotone(p: int, q: int, radix: int)
    requires p <= q && radix >= 0
    ensures p * radix <= q * radix
  {
    var d := q - p;
    assert q * radix == p * radix + d * radix;
  }

  lemma MixOrder(a: int, x: int, b: int, y: int, radix: int)
    requires 0 <= x < radix && 0 <= y < radix
    ensures Mix(a, x, radix) < Mix(b, y, radix) <==> a < b || (a == b && x < y)
    ensures Mix(a, x, radix) == Mix(b, y, radix) <==> a == b && x == y
  {
    if a < b {
      MulMonotone(a + 1, b, radix);
      assert (a + 1) * radix == a * radix + radix;
    } else if b < a {
      MulMonotone(b + 1, a, radix);
      assert (b + 1) * radix == b * radix + radix;
    }
  }

  lemma DayOrder(a: Timestamp, b: Timestamp)
    requires Valid(a) && Valid(b)
    ensures DayNumber(a) < DayNumber(b) <==>
      a.year < b.year || (a.year == b.year && (a.month < b.month || (a.month == b.month && a.day < b.day)))
    ensures DayNumber(a) == DayNumber(b) <==> a.year == b.year && a.month == b.month && a.day == b.day
  {
    MixOrder(a.year, a.month - 1, b.year, b.month - 1, 12);
    MixOrder(Mix(a.year, a.month - 1, 12), a.day - 1, Mix(b.year, b.month - 1, 12), b.day - 1, 31);
  }

  lemma TimeOfDayOrder(a: Timestamp, b: Timestamp)
    requires Valid(a) && Valid(b)
    ensures 0 <= SecondOfDay(a) < 86400
    ensures SecondOfDay(a) < SecondOfDay(b) <==>
      a.hour < b.hour || (a.hour == b.hour && (a.minute < b.minute || (a.minute == b.minute && a.second < b.second)))
    ensures SecondOfDay(a) == SecondOfDay(b) <==> a.hour == b.hour && a.minute == b.minute && a.second == b.second
  {
    MixOrder(a.hour, a.minute, b.hour, b.minute, 60);
    MixOrder(Mix(a.hour, a.minute, 60), a.second, Mix(b.hour, b.minute, 60), b.second, 60);
  }

  /** Comparing Ticks is comparing the timestamps, and Ticks tells valid timestamps apart. */
  lemma TicksOrder(a: Timestamp, b: Timestamp)
    requires Valid(a) && Valid(b)
    ensures Ticks(a) < Ticks(b) <==> Before(a, b)
    ensures Ticks(a) == Ticks(b) <==> a == b
  {
    DayOrder(a, b);
    TimeOfDayOrder(a, b);
    TimeOfDayOrder(b, a);
    MixOrder(DayNumber(a), SecondOfDay(a), DayNumber(b), SecondOfDay(b), 86400);
    MixOrder(Mix(DayNumber(a), SecondOfDay(a), 86400), a.nano,
             Mix(DayNumber(b), SecondOfDay(b), 86400), b.nano, 1000000000);
  }

  // ------------------------------------------------ "dd-MM-yyyy hh:mm:ss a"

  function Pow10(k: nat): nat
  {
    if k == 0 then 1 else 10 * Pow10(k - 1)
  }

  lemma {:induction false} DecimalLength(n: nat, k: nat)
    requires k >= 1 && n < Pow10(k)
    ensures |NatToDecimal(n)| <= k
  {
    if n >= 10 {
      assert k >= 2;
      DecimalLength(n / 10, k - 1);
    }
  }

  /** A field printed with exactly `width` digits. */
  function Field(n: nat, width: nat): string
    requires AllDigits(NatToDecimal(n))
  {
    PadZeros(NatToDecimal(n), width)
  }

  lemma FieldValue(n: nat, width: nat)
    requires width >= 1 && n < Pow10(width)
    ensures |Field(n, width)| == width && AllDigits(Field(n, width))
    ensures DecimalToNat(Field(n, width)) == n
  {
    DecimalLength(n, width);
    PadZerosValue(NatToDecimal(n), width);
    DecimalRoundTrip(n);
  }

  /** The hour on a twelve-hour clock face, 12 for midnight and noon. */
  function ClockHour(hour: int): int
  {
    if hour % 12 == 0 then 12 else hour % 12
  }

  /** "dd-MM-yyyy". */
  function DatePart(t: Timestamp): string
    requires Valid(t)
  {
    Field(t.day, 2) + "-" + Field(t.month, 2) + "-" + Field(t.year, 4)
  }

  /** "hh:mm:ss" on the twelve-hour clock. */
  function TimePart(t: Timestamp): string
    requires Valid(t)
  {
    Field(ClockHour(t.hour), 2) + ":" + Field(t.minute, 2) + ":" + Field(t.second, 2)
  }

  /** The "a" field. */
  function Marker(t: Timestamp): string
  {
    if t.hour < 12 then "AM" else "PM"
  }

  function Format(t: Timestamp): string
    requires Valid(t)
  {
    DatePart(t) + " " + TimePart(t) + " " + Marker(t)
  }

  /** The number in s[i..i+width], when those characters are all digits. */
  function NumberAt(s: string, i: nat, width: nat): (r: Option<nat>)
    requires i + width <= |s|
    ensures r.Some? ==> r.value < Pow10(width)
  {
    if AllDigits(s[i..i + width]) then
      DecimalBound(s[i..i + width]);
      Some(DecimalToNat(s[i..i + width]))
    else None
  }

  lemma {:induction false} DecimalBound(s: string)
    requires AllDigits(s)
    ensures DecimalToNat(s) < Pow10(|s|)
  {
    if s != [] {
      DecimalBound(s[..|s| - 1]);
    }
  }

  /** The literal characters of the pattern sit where it puts them. */
  predicate Layout(s: string)
  {
    |s| == 22 && s[2] == '-' && s[5] == '-' && s[10] == ' ' && s[13] == ':' &&
    s[16] == ':' && s[19] == ' ' && (s[20..] == "AM" || s[20..] == "PM")
  }

  /**
   * Resolves the parsed fields as the SMART resolver style does: each field
   * must lie in its own range (a day of 1..31), and a day past the end of its
   * month becomes the month's last day. hh is the clock hour; SMART also takes
   * 0 as well as 1..12, and 0 and 12 both stand for the first hour of the half
   * day, turned into 0..23 by the marker.
   */
  function Resolve(dd: nat, mo: nat, yyyy: nat, hh: nat, mi: nat, ss: nat, pm: bool): (r: Result<Timestamp>)
    requires yyyy < 10000
    ensures r.Ok? ==> Valid(r.value) && r.value.nano == 0
  {
    if 1 <= dd <= 31 && 1 <= mo <= 12 && 1 <= yyyy && hh <= 12 && mi < 60 && ss < 60
    then
      var day := if dd <= MonthLength(yyyy, mo) then dd else MonthLength(yyyy, mo);
      Ok(Timestamp(yyyy, mo, day, hh % 12 + (if pm then 12 else 0), mi, ss, 0))
    else Err(DateTimeParse)
  }

  /**
   * Which texts resolve, and to which day: a day the month has is kept, a
   * later day up to 31 is moved back to the month's last day, so "31-02-2024"
   * reads as 29 February and "31-04" as 30 April.
   */
  lemma ResolveDay(dd: nat, mo: nat, yyyy: nat, hh: nat, mi: nat, ss: nat, pm: bool)
    requires yyyy < 10000
    ensures Resolve(dd, mo, yyyy, hh, mi, ss, pm).Ok? <==>
              1 <= dd <= 31 && 1 <= mo <= 12 && 1 <= yyyy && hh <= 12 && mi < 60 && ss < 60
    ensures Resolve(dd, mo, yyyy, hh, mi, ss, pm).Ok? ==>
              var t := Resolve(dd, mo, yyyy, hh, mi, ss, pm).value;
              t.year == yyyy && t.month == mo && t.minute == mi && t.second == ss &&
              (t.day == dd <==> dd <= MonthLength(yyyy, mo)) &&
              (dd > MonthLength(yyyy, mo) ==> t.day == MonthLength(yyyy, mo)) &&
              t.hour == (if hh == 12 then 0 else hh) + (if pm then 12 else 0)
  {
  }

  /**
   * The examples: 31 February is the 29th in a leap year and the 28th
   * otherwise; 31 April is the 30th; a clock hour of 00 reads as 12.
   */
  lemma ResolveExamples()
    ensures Resolve(31, 2, 2024, 10, 0, 0, false) == Ok(Timestamp(2024, 2, 29, 10, 0, 0, 0))
    ensures Resolve(31, 2, 2023, 10, 0, 0, false) == Ok(Timestamp(2023, 2, 28, 10, 0, 0, 0))
    ensures Resolve(31, 2, 1900, 10, 0, 0, true) == Ok(Timestamp(1900, 2, 28, 22, 0, 0, 0))
    ensures Resolve(31, 4, 2024, 12, 0, 0, false) == Ok(Timestamp(2024, 4, 30, 0, 0, 0, 0))
    ensures Resolve(1, 1, 2024, 0, 30, 0, false) == Ok(Timestamp(2024, 1, 1, 0, 30, 0, 0))
    ensures Resolve(1, 1, 2024, 0, 30, 0, true) == Ok(Timestamp(2024, 1, 1, 12, 30, 0, 0))
    ensures Resolve(1, 1, 2024, 13, 30, 0, false) == Err(DateTimeParse)
  {
  }

  /** LocalDateTime.parse with the same pattern; the nano field comes back as 0. */
  function Parse(s: string): (r: Result<Timestamp>)
    ensures r.Ok? ==> Valid(r.value) && r.value.nano == 0
  {
    if !Layout(s) then Err(DateTimeParse)
    else
      match (NumberAt(s, 0, 2), NumberAt(s, 3, 2), NumberAt(s, 6, 4),
             NumberAt(s, 11, 2), NumberAt(s, 14, 2), NumberAt(s, 17, 2))
      case (Some(dd), Some(mo), Some(yyyy), Some(hh), Some(mi), Some(ss)) =>
        assert Pow10(4) == 10000;
        Resolve(dd, mo, yyyy, hh, mi, ss, s[20..] == "PM")
      case _ => Err(DateTimeParse)
  }

  /**
   * A stored clock hour of 00 is read as the SMART resolver reads it: like
   * 12, the first hour of its half of the day. Writing "00" in place of the
   * hour field of a formatted midnight or noon gives the same timestamp back.
   */
  lemma ParseClockHourZero(t: Timestamp)
    requires Valid(t) && (t.hour == 0 || t.hour == 12)
    ensures Field(0, 2) == "00" && |Format(t)| == 22
    ensures Parse(Format(t)[..11] + Field(0, 2) + Format(t)[13..]) == Ok(t.(nano := 0))
  {
    FieldsOfTimestamp(t);
    FormatSlices(t);
    ZeroHourField();
    var f, z := Format(t), Field(0, 2);
    var s := f[..11] + z + f[13..];
    HourFieldReplaced(f, z);
    assert NumberAt(s, 0, 2) == Some(t.day);
    assert NumberAt(s, 3, 2) == Some(t.month);
    assert NumberAt(s, 6, 4) == Some(t.year);
    assert NumberAt(s, 11, 2) == Some(0);
    assert NumberAt(s, 14, 2) == Some(t.minute);
    assert NumberAt(s, 17, 2) == Some(t.second);
  }

  /** The two-digit field of 0 is "00". */
  lemma ZeroHourField()
    ensures Field(0, 2) == "00"
  {
    FieldValue(0, 2);
    var z := Field(0, 2);
    assert DecimalToNat(z) == DecimalToNat(z[..1]) * 10 + DigitValue(z[1]);
    assert DecimalToNat(z[..1]) == DigitValue(z[0]) by {
      assert z[..1][..0] == [];
    }
  }

  lemma {:induction false} HourFieldReplaced(f: string, z: string)
    requires |f| == 22 && |z| == 2
    ensures var s := f[..11] + z + f[13..];
      |s| == 22 && s[0..2] == f[0..2] && s[3..5] == f[3..5] && s[6..10] == f[6..10] &&
      s[11..13] == z && s[14..16] == f[14..16] && s[17..19] == f[17..19] && s[20..] == f[20..] &&
      s[2] == f[2] && s[5] == f[5] && s[10] == f[10] && s[13] == f[13] && s[16] == f[16] && s[19] == f[19]
  {
  }

  lemma ClockHourBack(hour: int)
    requires 0 <= hour < 24
    ensures 1 <= ClockHour(hour) <= 12
    ensures ClockHour(hour) % 12 + (if hour < 12 then 0 else 12) == hour
  {
  }

  lemma FieldsOfTimestamp(t: Timestamp)
    requires Valid(t)
    ensures |Field(t.day, 2)| == 2 && AllDigits(Field(t.day, 2)) && DecimalToNat(Field(t.day, 2)) == t.day
    ensures |Field(t.month, 2)| == 2 && AllDigits(Field(t.month, 2)) && DecimalToNat(Field(t.month, 2)) == t.month
    ensures |Field(t.year, 4)| == 4 && AllDigits(Field(t.year, 4)) && DecimalToNat(Field(t.year, 4)) == t.year
    ensures |Field(ClockHour(t.hour), 2)| == 2 && AllDigits(Field(ClockHour(t.hour), 2))
    ensures DecimalToNat(Field(ClockHour(t.hour), 2)) == ClockHour(t.hour)
    ensures |Field(t.minute, 2)| == 2 && AllDigits(Field(t.minute, 2)) && DecimalToNat(Field(t.minute, 2)) == t.minute
    ensures |Field(t.second, 2)| == 2 && AllDigits(Field(t.second, 2)) && DecimalToNat(Field(t.second, 2)) == t.second
  {
    FieldValue(t.day, 2);
    FieldValue(t.month, 2);
    FieldValue(t.year, 4);
    FieldValue(ClockHour(t.hour), 2);
    FieldValue(t.minute, 2);
    FieldValue(t.second, 2);
  }

  lemma FormatSlices(t: Timestamp)
    requires Valid(t)
    ensures |Format(t)| == 22
    ensures Format(t)[0..2] == Field(t.day, 2) && Format(t)[2] == '-'
    ensures Format(t)[3..5] == Field(t.month, 2) && Format(t)[5] == '-'
    ensures Format(t)[6..10] == Field(t.year, 4) && Format(t)[10] == ' '
    ensures Format(t)[11..13] == Field(ClockHour(t.hour), 2) && Format(t)[13] == ':'
    ensures Format(t)[14..16] == Field(t.minute, 2) && Format(t)[16] == ':'
    ensures Format(t)[17..19] == Field(t.second, 2) && Format(t)[19] == ' '
    ensures Format(t)[20..] == Marker(t)
  {
    FieldsOfTimestamp(t);
    var d, tm, s := DatePart(t), TimePart(t), Format(t);
    assert |d| == 10 && |tm| == 8;
    assert s[0..10] == d;
    assert s[11..19] == tm;
    assert s[20..] == Marker(t);
    assert d[0..2] == Field(t.day, 2);
    assert d[3..5] == Field(t.month, 2);
    assert d[6..10] == Field(t.year, 4);
    assert tm[0..2] == Field(ClockHour(t.hour), 2);
    assert tm[3..5] == Field(t.minute, 2);
    assert tm[6..8] == Field(t.second, 2);
  }

  /** Reading back a formatted timestamp gives it again, to the second. */
  lemma FormatParseRoundTrip(t: Timestamp)
    requires Valid(t)
    ensures Parse(Format(t)) == Ok(t.(nano := 0))
  {
    FieldsOfTimestamp(t);
    FormatSlices(t);
    var s := Format(t);
    assert NumberAt(s, 0, 2) == Some(t.day);
    assert NumberAt(s, 3, 2) == Some(t.month);
    assert NumberAt(s, 6, 4) == Some(t.year);
    assert NumberAt(s, 11, 2) == Some(ClockHour(t.hour));
    assert NumberAt(s, 14, 2) == Some(t.minute);
    assert NumberAt(s, 17, 2) == Some(t.second);
    assert Layout(s);
    ClockHourBack(t.hour);
    assert (s[20..] == "PM") == (t.hour >= 12);
  }

  /** A formatted timestamp starts and ends with a kept character and holds no '|'. */
  lemma FormatShape(t: Timestamp)
    requires Valid(t)
    ensures Untrimmable(Format(t)) && '|' !in Format(t)
  {
    FieldsOfTimestamp(t);
    FormatSlices(t);
    var s := Format(t);
    assert IsDigit(s[0]) by { assert s[0] == s[0..2][0]; }
    assert s[21] == 'M';
    forall k | 0 <= k < |s| ensures s[k] != '|' {
      if k < 2 { assert s[k] == s[0..2][k]; }
      else if 3 <= k < 5 { assert s[k] == s[3..5][k - 3]; }
      else if 6 <= k < 10 { assert s[k] == s[6..10][k - 6]; }
      else if 11 <= k < 13 { assert s[k] == s[11..13][k - 11]; }
      else if 14 <= k < 16 { assert s[k] == s[14..16][k - 14]; }
      else if 17 <= k < 19 { assert s[k] == s[17..19][k - 17]; }
      else if 20 <= k { assert s[k] == s[20..][k - 20]; }
    }
  }
}
