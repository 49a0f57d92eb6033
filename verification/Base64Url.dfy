/** Unpadded base64url (section 5 of RFC 4648) over byte strings, with the reader's leniencies: line breaks are skipped
    and the unused low bits of the last digit are ignored. A byte is a character below 256. */
module Base64Url {
  import opened Options

  predicate Bytes(s: string) {
    forall i :: 0 <= i < |s| ==> s[i] as int < 256
  }

  function Digit(n: nat): char
    requires n < 64
  {
    if n < 26 then ('A' as int + n) as char else
    if n < 52 then ('a' as int + n - 26) as char else
    if n < 62 then ('0' as int + n - 52) as char else
    if n == 62 then '-' else '_'
  }

  predicate IsDigit(c: char) {
    'A' <= c <= 'Z' || 'a' <= c <= 'z' || '0' <= c <= '9' || c == '-' || c == '_'
  }

  function Value(c: char): (n: nat)
    requires IsDigit(c)
    ensures n < 64
  {
    if 'A' <= c <= 'Z' then c as int - 'A' as int else
    if 'a' <= c <= 'z' then c as int - 'a' as int + 26 else
    if '0' <= c <= '9' then c as int - '0' as int + 52 else
    if c == '-' then 62 else 63
  }

  lemma DigitValue(n: nat)
    requires n < 64
    ensures IsDigit(Digit(n)) && Value(Digit(n)) == n
  {}

  /** The alphabet of section 5 of RFC 4648: three runs of letters and numerals, then the two signs that are safe in a URL. */
  lemma Alphabet(n: nat)
    ensures Digit(0) == 'A' && Digit(25) == 'Z' && Digit(26) == 'a' && Digit(51) == 'z'
    ensures Digit(52) == '0' && Digit(61) == '9' && Digit(62) == '-' && Digit(63) == '_'
    ensures n < 61 && n != 25 && n != 51 ==> Digit(n + 1) as int == Digit(n) as int + 1
  {}

  /** One, two or three bytes as two, three or four digits. */
  function Group(b: string): (d: string)
    requires 1 <= |b| <= 3 && Bytes(b)
    ensures |d| == |b| + 1
  {
    var b0 := b[0] as int;
    if |b| == 1 then [Digit(b0 / 4), Digit(b0 % 4 * 16)] else
    var b1 := b[1] as int;
    if |b| == 2 then [Digit(b0 / 4), Digit(b0 % 4 * 16 + b1 / 16), Digit(b1 % 16 * 4)] else
    var b2 := b[2] as int;
    [Digit(b0 / 4), Digit(b0 % 4 * 16 + b1 / 16), Digit(b1 % 16 * 4 + b2 / 64), Digit(b2 % 64)]
  }

  predicate AllDigits(s: string) {
    forall i :: 0 <= i < |s| ==> IsDigit(s[i])
  }

  function Ungroup(d: string): (b: string)
    requires 2 <= |d| <= 4 && AllDigits(d)
  {
    var d0, d1 := Value(d[0]), Value(d[1]);
    if |d| == 2 then [(d0 * 4 + d1 / 16) as char] else
    var d2 := Value(d[2]);
    if |d| == 3 then [(d0 * 4 + d1 / 16) as char, (d1 % 16 * 16 + d2 / 4) as char] else
    [(d0 * 4 + d1 / 16) as char, (d1 % 16 * 16 + d2 / 4) as char, (d2 % 4 * 64 + Value(d[3])) as char]
  }

  function Encode(b: string): string
    requires Bytes(b)
  {
    if |b| == 0 then "" else
    if |b| <= 3 then Group(b) else Group(b[..3]) + Encode(b[3..])
  }

  function DecodeDigits(s: string): Option<string> {
    if |s| == 0 then Some("") else
    if |s| == 1 || !AllDigits(if |s| < 4 then s else s[..4]) then None else
    if |s| <= 4 then Some(Ungroup(s)) else
    var rest := DecodeDigits(s[4..]);
    if rest.None? then None else Some(Ungroup(s[..4]) + rest.value)
  }

  function Unwrapped(s: string): string {
    if s == "" then "" else
    (if s[0] == '\r' || s[0] == '\n' then "" else [s[0]]) + Unwrapped(s[1..])
  }

  function Decode(s: string): Option<string> {
    DecodeDigits(Unwrapped(s))
  }

  lemma GroupDigits(b: string)
    requires 1 <= |b| <= 3 && Bytes(b)
    ensures AllDigits(Group(b))
  {
    hide IsDigit;
    hide Value;
    hide Digit;
    forall n: nat | n < 64
      ensures IsDigit(Digit(n))
    {
      DigitValue(n);
    }
  }

  /** The three bytes of a group, from the digits they are spread over. */
  lemma FirstByte(b: int, next: int)
    requires 0 <= b < 256 && 0 <= next < 16
    ensures b / 4 < 64 && b % 4 * 16 + next < 64 && b / 4 * 4 + (b % 4 * 16 + next) / 16 == b
  {}

  lemma SecondByte(b: int, last: int, next: int)
    requires 0 <= b < 256 && 0 <= last < 4 && 0 <= next < 4
    ensures 0 <= last * 16 + b / 16 < 64 && b % 16 * 4 + next < 64
    ensures (last * 16 + b / 16) % 16 * 16 + (b % 16 * 4 + next) / 4 == b
  {
    assert (last * 16 + b / 16) % 16 == b / 16;
  }

  lemma ThirdByte(b: int, last: int)
    requires 0 <= b < 256 && 0 <= last < 16
    ensures 0 <= last * 4 + b / 64 < 64 && (last * 4 + b / 64) % 4 * 64 + b % 64 == b
  {
    assert (last * 4 + b / 64) % 4 == b / 64;
  }

  lemma GroupRoundTrip(b: string)
    requires 1 <= |b| <= 3 && Bytes(b)
    ensures AllDigits(Group(b)) && Ungroup(Group(b)) == b
  {
    GroupDigits(b);
    if |b| == 1 { OneByte(b); } else if |b| == 2 { TwoBytes(b); } else { ThreeBytes(b); }
  }

  lemma OneByte(b: string)
    requires |b| == 1 && Bytes(b) && AllDigits(Group(b))
    ensures Ungroup(Group(b)) == b
  {
    hide IsDigit;
    hide Value;
    hide Digit;
    var b0 := b[0] as int;
    FirstByte(b0, 0);
    DigitValue(b0 / 4);
    DigitValue(b0 % 4 * 16);
  }

  lemma TwoBytes(b: string)
    requires |b| == 2 && Bytes(b) && AllDigits(Group(b))
    ensures Ungroup(Group(b)) == b
  {
    hide IsDigit;
    hide Value;
    hide Digit;
    var b0, b1 := b[0] as int, b[1] as int;
    FirstByte(b0, b1 / 16);
    SecondByte(b1, b0 % 4, 0);
    DigitValue(b0 / 4);
    DigitValue(b0 % 4 * 16 + b1 / 16);
    DigitValue(b1 % 16 * 4);
  }

  lemma ThreeBytes(b: string)
    requires |b| == 3 && Bytes(b) && AllDigits(Group(b))
    ensures Ungroup(Group(b)) == b
  {
    hide IsDigit;
    hide Value;
    hide Digit;
    var b0, b1, b2 := b[0] as int, b[1] as int, b[2] as int;
    FirstByte(b0, b1 / 16);
    SecondByte(b1, b0 % 4, b2 / 64);
    ThirdByte(b2, b1 % 16);
    DigitValue(b0 / 4);
    DigitValue(b0 % 4 * 16 + b1 / 16);
    DigitValue(b1 % 16 * 4 + b2 / 64);
    DigitValue(b2 % 64);
  }

  lemma {:induction false} DigitsRoundTrip(b: string)
    requires Bytes(b)
    ensures AllDigits(Encode(b)) && DecodeDigits(Encode(b)) == Some(b)
  {
    hide IsDigit;
    hide Group;
    hide Ungroup;
    if |b| == 0 {
    } else if |b| <= 3 {
      GroupRoundTrip(b);
      var e := Encode(b);
      if |e| == 4 { assert e[..4] == e; }
    } else {
      GroupRoundTrip(b[..3]);
      DigitsRoundTrip(b[3..]);
      var e := Encode(b);
      assert e[..4] == Group(b[..3]) && e[4..] == Encode(b[3..]);
      assert |e| > 4;
      assert b == b[..3] + b[3..];
    }
  }

  lemma {:induction false} DigitsUnwrapped(s: string)
    requires AllDigits(s)
    ensures Unwrapped(s) == s
  {
    if s != "" {
      DigitsUnwrapped(s[1..]);
      assert IsDigit(s[0]);
      assert s == [s[0]] + s[1..];
    }
  }

  /** Reading what was printed gives the bytes back. */
  lemma RoundTrip(b: string)
    requires Bytes(b)
    ensures Decode(Encode(b)) == Some(b)
  {
    DigitsRoundTrip(b);
    DigitsUnwrapped(Encode(b));
  }

  /** The reader is not injective: the low bits of a last digit that no byte needs are dropped. */
  lemma ReaderIsLenient(b: nat, low: nat)
    requires b < 256 && low < 16
    ensures b / 4 < 64 && b % 4 * 16 + low < 64 && Decode([Digit(b / 4), Digit(b % 4 * 16 + low)]) == Some([b as char])
  {
    hide IsDigit;
    hide Value;
    hide Digit;
    FirstByte(b, low);
    DigitValue(b / 4);
    DigitValue(b % 4 * 16 + low);
    DigitsUnwrapped([Digit(b / 4), Digit(b % 4 * 16 + low)]);
  }

  /** And line breaks are skipped wherever they stand. */
  lemma {:induction false} LineBreaksSkipped(s: string, t: string)
    ensures Decode(s + "\n" + t) == Decode(s + t) && Decode(s + "\r" + t) == Decode(s + t)
  {
    UnwrappedSkips(s, '\n', t);
    UnwrappedSkips(s, '\r', t);
  }

  lemma {:induction false} UnwrappedSkips(s: string, c: char, t: string)
    requires c == '\n' || c == '\r'
    ensures Unwrapped(s + [c] + t) == Unwrapped(s + t)
  {
    if s == "" {
      assert (s + [c] + t)[1..] == t && s + t == t;
    } else {
      UnwrappedSkips(s[1..], c, t);
      assert (s + [c] + t)[1..] == s[1..] + [c] + t && (s + t)[1..] == s[1..] + t;
    }
  }
}
