/** Timestamps as section 5.6 of RFC 3339 writes them, in UTC, with the nanoseconds' trailing zeros trimmed: the printer,
    the strict reader, and the round trip between them. */
module Timestamp {
  import opened Base64Url
  import opened Calendar
  import opened Options

  // ----- decimal numbers

  predicate Decimal(s: string) {
    forall i :: 0 <= i < |s| ==> '0' <= s[i] <= '9'
  }

  function Numeral(d: nat): (c: char)
    requires d < 10
    ensures '0' <= c <= '9'
  {
    ('0' as int + d) as char
  }

  function Pow10(w: nat): (p: nat)
    ensures p >= 1
  {
    if w == 0 then 1 else 10 * Pow10(w - 1)
  }

  /** The last `w` decimal digits of a number. */
  function Digits(n: nat, w: nat): (s: string)
    ensures |s| == w && Decimal(s)
  {
    if w == 0 then "" else Digits(n / 10, w - 1) + [Numeral(n % 10)]
  }

  function Natural(n: nat): (s: string)
    ensures Decimal(s)
  {
    if n < 10 then [Numeral(n)] else Natural(n / 10) + [Numeral(n % 10)]
  }

  function Number(s: string): nat
    requires Decimal(s)
  {
    if s == "" then 0 else 10 * Number(s[..|s| - 1]) + (s[|s| - 1] as int - '0' as int)
  }

  lemma {:induction false} NumberOfDigits(n: nat, w: nat)
    requires n < Pow10(w)
    ensures Number(Digits(n, w)) == n
  {
    if w > 0 {
      NumberOfDigits(n / 10, w - 1);
      var s := Digits(n, w);
      assert s[..|s| - 1] == Digits(n / 10, w - 1);
    }
  }

  // ----- fractions of a second

  function Trimmed(s: string): (r: string)
    requires Decimal(s)
    ensures r <= s && Decimal(r)
  {
    if s != "" && s[|s| - 1] == '0' then Trimmed(s[..|s| - 1]) else s
  }

  function Fraction(nanos: nat): string {
    var digits := Trimmed(Digits(nanos, 9));
    if digits == "" then "" else "." + digits
  }

  /** How many digits a text starts with. */
  function LeadingDigits(s: string): (n: nat)
    ensures n <= |s| && Decimal(s[..n])
  {
    if s == "" || !('0' <= s[0] <= '9') then 0 else
    var n := LeadingDigits(s[1..]);
    assert s[..n + 1] == [s[0]] + s[1..][..n];
    n + 1
  }

  /** The length of the fraction at the head of a text; digits after the ninth are read and ignored. */
  function FractionLength(s: string): (n: nat)
    ensures n <= |s| && (n > 0 ==> n >= 2 && Decimal(s[1..n]))
  {
    if |s| >= 2 && s[0] == '.' && '0' <= s[1] <= '9' then
      var n := LeadingDigits(s[1..]);
      assert s[1..n + 1] == s[1..][..n];
      assert n >= 1;
      n + 1
    else 0
  }

  function Nanos(digits: string): nat
    requires Decimal(digits)
  {
    if |digits| >= 9 then Number(digits[..9]) else Number(digits) * Pow10(9 - |digits|)
  }

  lemma {:induction false} TrimmedKeepsNanos(s: string)
    requires Decimal(s) && |s| <= 9
    ensures Nanos(Trimmed(s)) == Nanos(s)
  {
    if s != "" && s[|s| - 1] == '0' {
      var t := s[..|s| - 1];
      TrimmedKeepsNanos(t);
      assert Number(s) == 10 * Number(t);
      assert Pow10(9 - |t|) == 10 * Pow10(9 - |s|);
      Shift(Number(t), Pow10(9 - |s|));
      assert |s| == 9 ==> s[..9] == s && Pow10(0) == 1;
    }
  }

  lemma Shift(a: nat, p: nat)
    ensures a * (10 * p) == (10 * a) * p
  {}

  lemma {:induction false} LeadingDigitsStop(s: string, rest: string)
    requires Decimal(s) && (rest == "" || !('0' <= rest[0] <= '9'))
    ensures LeadingDigits(s + rest) == |s|
  {
    if s != "" {
      LeadingDigitsStop(s[1..], rest);
      assert (s + rest)[1..] == s[1..] + rest;
    } else {
      assert s + rest == rest;
    }
  }

  /** A printed fraction is read back, and ends where it ended. */
  lemma FractionRoundTrip(nanos: nat)
    requires nanos < 1_000_000_000
    ensures var s := Fraction(nanos) + "Z"; var n := FractionLength(s);
      && n == |Fraction(nanos)| && (if n == 0 then 0 else Nanos(s[1..n])) == nanos
  {
    var digits := Digits(nanos, 9);
    var trimmed := Trimmed(digits);
    assert Pow10(9) == 1_000_000_000 by { BillionIsPow10(); }
    NumberOfDigits(nanos, 9);
    assert digits[..9] == digits;
    TrimmedKeepsNanos(digits);
    if trimmed != "" {
      var s := "." + trimmed + "Z";
      assert s[1..] == trimmed + "Z";
      LeadingDigitsStop(trimmed, "Z");
      assert s[1] == trimmed[0];
      assert s[1..|trimmed| + 1] == trimmed;
    }
  }

  lemma BillionIsPow10()
    ensures Pow10(9) == 1_000_000_000 && Pow10(4) == 10_000 && Pow10(2) == 100
  {
    assert Pow10(2) == 100;
    assert Pow10(4) == 10_000;
    assert Pow10(6) == 1_000_000;
  }

  // ----- printing and reading

  function Year(year: int): string {
    var n := if year < 0 then -year else year;
    (if year < 0 then "-" else "") + if n < 10_000 then Digits(n, 4) else Natural(n)
  }

  /** The parts of an instant: its month, the day of the month from 0, the second of the day, the nanosecond. */
  function SecondOf(t: int): (s: nat)
    ensures s < 86_400
  {
    (t - Midnight(DayOf(t))) / 1_000_000_000
  }

  function NanoOf(t: int): (n: nat)
    ensures n < 1_000_000_000
  {
    t % 1_000_000_000
  }

  function Clock(second: nat): (s: string)
    requires second < 86_400
    ensures |s| == 8
  {
    Digits(second / 3600, 2) + ":" + Digits(second / 60 % 60, 2) + ":" + Digits(second % 60, 2)
  }

  function Date(month: int, day: nat): string {
    Year(month / 12) + "-" + Digits(month % 12 + 1, 2) + "-" + Digits(day + 1, 2) + "T"
  }

  function Format(t: int): string {
    var m := MonthOfInstant(t);
    Date(m, DayOf(t) - MonthStart(m)) + Clock(SecondOf(t)) + Fraction(NanoOf(t)) + "Z"
  }

  /** A field of decimal digits within bounds. */
  predicate Field(s: string, low: int, high: int) {
    Decimal(s) && low <= Number(s) <= high
  }

  function ZoneSeconds(s: string): Option<int> {
    if s == "Z" then Some(0) else
    if |s| == 6 && (s[0] == '-' || s[0] == '+') && s[3] == ':' && Field(s[1..3], 0, 23) && Field(s[4..6], 0, 59) then
      var offset := (Number(s[1..3]) * 60 + Number(s[4..6])) * 60;
      Some(if s[0] == '-' then -offset else offset)
    else None
  }

  /** The separators and the ranges of the first nineteen characters. */
  predicate Shaped(s: string)
    requires |s| >= 19
  {
    && Field(s[0..4], 0, 9999) && Field(s[5..7], 1, 12)
    && Field(s[8..10], 1, DaysIn(12 * Number(s[0..4]) + Number(s[5..7]) - 1))
    && Field(s[11..13], 0, 23) && Field(s[14..16], 0, 59) && Field(s[17..19], 0, 59)
    && s[4] == '-' && s[7] == '-' && s[10] == 'T' && s[13] == ':' && s[16] == ':'
  }

  function Assemble(month: int, day: int, second: int, nanos: int): int {
    Midnight(MonthStart(month) + day) + second * 1_000_000_000 + nanos
  }

  function Parse(s: string): Option<int> {
    if |s| < 19 || !Shaped(s) then None else
    var month := 12 * Number(s[0..4]) + Number(s[5..7]) - 1;
    var second := Number(s[11..13]) * 3600 + Number(s[14..16]) * 60 + Number(s[17..19]);
    var rest := s[19..];
    var n := FractionLength(rest);
    var nanos := if n == 0 then 0 else Nanos(rest[1..n]);
    var zone := ZoneSeconds(rest[n..]);
    if zone.None? then None else
    Some(Assemble(month, Number(s[8..10]) - 1, second, nanos) - zone.value * 1_000_000_000)
  }

  // ----- the round trip

  lemma TwoDigits(n: nat)
    requires n < 100
    ensures Number(Digits(n, 2)) == n
  {
    BillionIsPow10();
    NumberOfDigits(n, 2);
  }

  /** The date at the head of a text, field by field. */
  lemma DateFields(month: int, day: nat, tail: string)
    requires 0 <= month / 12 <= 9999 && day < 31
    ensures var s := Date(month, day) + tail;
      && |s| == 11 + |tail| && s[11..] == tail && s[4] == '-' && s[7] == '-' && s[10] == 'T'
      && Decimal(s[0..4]) && Number(s[0..4]) == month / 12 && Decimal(s[5..7]) && Number(s[5..7]) == month % 12 + 1
      && Decimal(s[8..10]) && Number(s[8..10]) == day + 1
  {
    hide Number;
    hide Digits;
    var y, mo, d := Digits(month / 12, 4), Digits(month % 12 + 1, 2), Digits(day + 1, 2);
    var s := Date(month, day) + tail;
    assert Date(month, day) == y + "-" + mo + "-" + d + "T";
    BillionIsPow10();
    NumberOfDigits(month / 12, 4);
    TwoDigits(month % 12 + 1);
    TwoDigits(day + 1);
    assert s[0..4] == y;
    assert s[5..7] == mo;
    assert s[8..10] == d;
  }

  /** The clock at the head of a text, field by field. */
  lemma ClockFields(second: nat, tail: string)
    requires second < 86_400
    ensures var s := Clock(second) + tail;
      && |s| == 8 + |tail| && s[8..] == tail && s[2] == ':' && s[5] == ':'
      && Decimal(s[0..2]) && Number(s[0..2]) == second / 3600 && Decimal(s[3..5]) && Number(s[3..5]) == second / 60 % 60
      && Decimal(s[6..8]) && Number(s[6..8]) == second % 60
  {
    hide Number;
    hide Digits;
    TwoDigits(second / 3600);
    TwoDigits(second / 60 % 60);
    TwoDigits(second % 60);
    var s := Clock(second) + tail;
    assert s[0..2] == Digits(second / 3600, 2);
    assert s[3..5] == Digits(second / 60 % 60, 2);
    assert s[6..8] == Digits(second % 60, 2);
  }

  lemma SecondSplits(second: nat)
    requires second < 86_400
    ensures second / 3600 <= 23 && second / 60 % 60 <= 59 && second % 60 <= 59
    ensures second / 3600 * 3600 + second / 60 % 60 * 60 + second % 60 == second
  {
    assert second / 60 / 60 == second / 3600;
  }

  lemma AssembleParts(t: int)
    ensures var m := MonthOfInstant(t); Assemble(m, DayOf(t) - MonthStart(m), SecondOf(t), NanoOf(t)) == t
  {}

  /** Instants of the years 0 to 9999, the ones a four-digit year can write. */
  predicate Writable(t: int) {
    0 <= MonthOfInstant(t) / 12 <= 9999
  }

  /** Reading a printed timestamp gives the instant back. */
  lemma RoundTrip(t: int)
    requires Writable(t)
    ensures Parse(Format(t)) == Some(t)
  {
    hide Number;
    hide Digits;
    hide Date;
    hide Clock;
    hide Fraction;
    hide FractionLength;
    hide Nanos;
    hide MonthStart;
    hide MonthOf;
    hide DaysIn;
    hide SecondOf;
    hide NanoOf;
    hide Assemble;
    hide DayOf;
    var m := MonthOfInstant(t);
    var day := DayOf(t) - MonthStart(m);
    var second := SecondOf(t);
    var tail := Fraction(NanoOf(t)) + "Z";
    var clock := Clock(second) + tail;
    var s := Date(m, day) + clock;
    assert Format(t) == s;
    NextMonth(m);
    DateFields(m, day, clock);
    ClockFields(second, tail);
    assert s[11..13] == clock[0..2] && s[14..16] == clock[3..5] && s[17..19] == clock[6..8] && s[19..] == clock[8..];
    assert s[13] == clock[2] && s[16] == clock[5];
    SecondSplits(second);
    FractionRoundTrip(NanoOf(t));
    AssembleParts(t);
    assert tail[FractionLength(tail)..] == "Z";
    assert 12 * (m / 12) + (m % 12 + 1) - 1 == m;
    assert Shaped(s);
  }

  /** Only ASCII, and no bar. */
  predicate Plain(s: string) {
    forall i :: 0 <= i < |s| ==> s[i] as int < 128 && s[i] != '|'
  }

  lemma PlainJoin(a: string, b: string)
    requires Plain(a) && Plain(b)
    ensures Plain(a + b)
  {}

  lemma ClockPlain(second: nat)
    requires second < 86_400
    ensures Plain(Clock(second))
  {
    hide Digits;
  }

  lemma DatePlain(month: int, day: int)
    requires 0 <= month / 12 <= 9999 && day >= 0
    ensures Plain(Date(month, day))
  {
    hide Digits;
  }

  lemma FractionPlain(nanos: nat)
    ensures Plain(Fraction(nanos))
  {
    hide Digits;
  }

  /** A printed timestamp holds only ASCII, and no bar. */
  lemma FormatPlain(t: int)
    requires Writable(t)
    ensures Plain(Format(t))
  {
    hide Date;
    hide Clock;
    hide Fraction;
    hide MonthStart;
    hide MonthOf;
    hide SecondOf;
    hide NanoOf;
    hide Plain;
    var m := MonthOfInstant(t);
    var date, clock, fraction := Date(m, DayOf(t) - MonthStart(m)), Clock(SecondOf(t)), Fraction(NanoOf(t));
    DatePlain(m, DayOf(t) - MonthStart(m));
    ClockPlain(SecondOf(t));
    FractionPlain(NanoOf(t));
    ZuluPlain();
    PlainJoin(date, clock);
    PlainJoin(date + clock, fraction);
    PlainJoin(date + clock + fraction, "Z");
  }

  lemma ZuluPlain()
    ensures Plain("Z")
  {}

  lemma {:induction false} DigitsOfNumber(s: string)
    requires Decimal(s)
    ensures Number(s) < Pow10(|s|) && Digits(Number(s), |s|) == s
  {
    if s != "" {
      var n := |s| - 1;
      DigitsOfNumber(s[..n]);
      assert s == s[..n] + [s[n]];
    }
  }

  lemma {:induction false} NaturalLong(n: nat, k: nat)
    requires n >= Pow10(k)
    ensures |Natural(n)| > k
  {
    if k > 0 { NaturalLong(n / 10, k - 1); }
  }

  lemma {:induction false} TrimmedEnds(s: string)
    requires Decimal(s)
    ensures var r := Trimmed(s); r != "" ==> r[|r| - 1] != '0'
  {
    if s != "" && s[|s| - 1] == '0' { TrimmedEnds(s[..|s| - 1]); }
  }

  /** A fraction is left out exactly when it is zero; else it is a dot and one to nine digits, the last not a zero. */
  lemma FractionShape(nanos: nat)
    requires nanos < 1_000_000_000
    ensures var f := Fraction(nanos);
      && (f == "" <==> nanos == 0)
      && (f != "" ==> 2 <= |f| <= 10 && f[0] == '.' && Decimal(f[1..]) && f[|f| - 1] != '0')
  {
    hide Number;
    var digits := Digits(nanos, 9);
    var trimmed := Trimmed(digits);
    TrimmedEnds(digits);
    assert Pow10(9) == 1_000_000_000 by { BillionIsPow10(); }
    NumberOfDigits(nanos, 9);
    TrimmedKeepsNanos(digits);
    assert digits[..9] == digits;
    if trimmed == "" {
      NothingIsZero();
    } else if nanos == 0 {
      ZeroTrims(9);
    }
  }

  lemma NothingIsZero()
    ensures Nanos("") == 0
  {}

  lemma {:induction false} ZeroTrims(w: nat)
    ensures Trimmed(Digits(0, w)) == ""
  {
    if w > 0 {
      ZeroTrims(w - 1);
      var s := Digits(0, w);
      assert s[..|s| - 1] == Digits(0, w - 1);
    }
  }

  /** The printed form, field by field: year, month, day, hour, minute and second in their places between their separators. */
  lemma FormatFields(t: int)
    requires Writable(t)
    ensures var s := Format(t); var m := MonthOfInstant(t); var second := SecondOf(t);
      && |s| >= 19 && Shaped(s)
      && Number(s[0..4]) == m / 12 && Number(s[5..7]) == m % 12 + 1 && Number(s[8..10]) == DayOf(t) - MonthStart(m) + 1
      && Number(s[11..13]) == second / 3600 && Number(s[14..16]) == second / 60 % 60 && Number(s[17..19]) == second % 60
      && s[19..] == Fraction(NanoOf(t)) + "Z"
  {
    hide Number;
    hide Digits;
    hide Date;
    hide Clock;
    hide Fraction;
    hide MonthStart;
    hide MonthOf;
    hide DaysIn;
    hide SecondOf;
    hide NanoOf;
    hide DayOf;
    var m := MonthOfInstant(t);
    var day := DayOf(t) - MonthStart(m);
    var second := SecondOf(t);
    var tail := Fraction(NanoOf(t)) + "Z";
    var clock := Clock(second) + tail;
    var s := Date(m, day) + clock;
    assert Format(t) == s;
    NextMonth(m);
    DateFields(m, day, clock);
    ClockFields(second, tail);
    assert s[11..13] == clock[0..2] && s[14..16] == clock[3..5] && s[17..19] == clock[6..8] && s[19..] == clock[8..];
    assert s[13] == clock[2] && s[16] == clock[5];
    SecondSplits(second);
    assert 12 * (m / 12) + (m % 12 + 1) - 1 == m;
  }

  /** Then a fraction only if there is one, without trailing zeros, and Z. */
  lemma FormatEnds(t: int)
    requires Writable(t)
    ensures var s := Format(t);
      && |s| >= 20 && s[|s| - 1] == 'Z' && (|s| == 20 <==> t % 1_000_000_000 == 0)
      && (|s| > 20 ==> |s| <= 30 && s[19] == '.' && s[|s| - 2] != '0')
  {
    hide Format;
    hide Fraction;
    hide Shaped;
    FormatFields(t);
    FractionShape(NanoOf(t));
    var s, f := Format(t), Fraction(NanoOf(t));
    assert |s| == 19 + |f| + 1;
    assert forall k :: 0 <= k <= |f| ==> s[19 + k] == s[19..][k];
  }

  lemma ZoneExamples()
    ensures ZoneSeconds("+01:30") == Some(5400) && ZoneSeconds("-01:30") == Some(-5400) && ZoneSeconds("Z") == Some(0)
  {
    assert "+01:30"[1..3] == "01" && "+01:30"[4..6] == "30";
    assert "-01:30"[1..3] == "01" && "-01:30"[4..6] == "30";
    assert "01"[..1] == "0" && "30"[..1] == "3" && "0"[..0] == "" && "3"[..0] == "";
    assert Number("01") == 1 && Number("30") == 30;
  }
}
