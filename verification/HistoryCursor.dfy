/** The opaque cursor of an incident history and the request that carries it (internal/api/handlers_statushistory.go):
    base64url of the timestamp, a bar and the incident id. */
module HistoryCursor {
  import opened Base64Url
  import opened Calendar
  import opened HistoryMonths
  import opened Options
  import Timestamp

  datatype Position = Position(resolvedAt: int, id: string)

  predicate Hex(c: char) {
    '0' <= c <= '9' || 'a' <= c <= 'f'
  }

  predicate CanonicalUUID(s: string) {
    |s| == 36 && forall i :: 0 <= i < 36 ==>
      if i == 8 || i == 13 || i == 18 || i == 23 then s[i] == '-' else Hex(s[i])
  }

  /** The bytes a position is spelled with. The id is the store's, so it is ASCII. */
  function Spelled(p: Position): string {
    Timestamp.Format(p.resolvedAt) + "|" + p.id
  }

  function Encode(p: Position): Option<string> {
    if Bytes(Spelled(p)) then Some(Base64Url.Encode(Spelled(p))) else None
  }

  /** The index of the first bar. */
  function Bar(s: string): (n: nat)
    ensures n <= |s| && '|' !in s[..n] && (n < |s| ==> s[n] == '|')
  {
    if s == "" || s[0] == '|' then 0 else
    var n := Bar(s[1..]);
    assert s[..n + 1] == [s[0]] + s[1..][..n];
    n + 1
  }

  /** `slow` reads the timestamps the strict RFC 3339 reader turned down. */
  function ReadInstant(s: string, slow: string -> Option<int>): Option<int> {
    var strict := Timestamp.Parse(s);
    if strict.Some? then strict else slow(s)
  }

  function Decode(raw: string, slow: string -> Option<int>): Option<Position> {
    var b := Base64Url.Decode(raw);
    if b.None? then None else
    var n := Bar(b.value);
    if n == |b.value| || !CanonicalUUID(b.value[n + 1..]) then None else
    var at := ReadInstant(b.value[..n], slow);
    if at.None? then None else Some(Position(at.value, b.value[n + 1..]))
  }

  // ----- the round trip

  lemma SpelledPlain(p: Position)
    requires Timestamp.Writable(p.resolvedAt) && CanonicalUUID(p.id)
    ensures Bytes(Spelled(p))
  {
    hide Timestamp.Format;
    hide Timestamp.Writable;
    var at := Timestamp.Format(p.resolvedAt);
    Timestamp.FormatPlain(p.resolvedAt);
    assert Timestamp.Plain(at);
  }

  lemma {:induction false} BarUnique(a: string, b: string)
    requires '|' !in a
    ensures Bar(a + "|" + b) == |a|
  {
    if a != "" {
      BarUnique(a[1..], b);
      assert (a + "|" + b)[1..] == a[1..] + "|" + b;
    }
  }

  /** Decoding a minted cursor gives its position, whatever the lenient timestamp reader does. */
  lemma CursorRoundTrip(p: Position, slow: string -> Option<int>)
    requires Timestamp.Writable(p.resolvedAt) && CanonicalUUID(p.id)
    ensures Encode(p).Some? && Decode(Encode(p).value, slow) == Some(p)
  {
    hide Timestamp.Format;
    hide Timestamp.Parse;
    hide Timestamp.Writable;
    hide CanonicalUUID;
    hide Base64Url.Encode;
    hide Base64Url.Decode;
    SpelledPlain(p);
    var at, s := Timestamp.Format(p.resolvedAt), Spelled(p);
    Base64Url.RoundTrip(s);
    Timestamp.FormatPlain(p.resolvedAt);
    assert '|' !in at;
    BarUnique(at, p.id);
    Timestamp.RoundTrip(p.resolvedAt);
    assert s[..|at|] == at && s[|at| + 1..] == p.id;
  }

  /** What a cursor spells: the timestamp, a bar and the id. */
  lemma CursorSpelling(p: Position)
    requires Timestamp.Writable(p.resolvedAt) && CanonicalUUID(p.id)
    ensures Encode(p).Some? && Base64Url.Decode(Encode(p).value) == Some(Timestamp.Format(p.resolvedAt) + "|" + p.id)
  {
    hide Timestamp.Format;
    hide Timestamp.Writable;
    hide CanonicalUUID;
    hide Base64Url.Encode;
    hide Base64Url.Decode;
    SpelledPlain(p);
    Base64Url.RoundTrip(Spelled(p));
  }

  // ----- the request

  datatype Parsed =
    | InvalidMonth
    | MonthOutsideHistory
    | InvalidCursor
    | Request(month: int, after: Option<Position>)

  function MonthText(month: int): string {
    Timestamp.Year(month / 12) + "-" + Timestamp.Digits(month % 12 + 1, 2)
  }

  function ReadMonth(s: string): Option<int> {
    if |s| == 7 && Timestamp.Decimal(s[..4]) && s[4] == '-' && Timestamp.Field(s[5..], 1, 12) then
      Some(12 * Timestamp.Number(s[..4]) + Timestamp.Number(s[5..]) - 1)
    else None
  }

  /** Whether a cursor is this server's own spelling of a position in the month and in the window (since, now]. */
  predicate Accepts(raw: string, p: Position, month: int, now: int) {
    && Encode(p) == Some(raw) && now - WINDOW < p.resolvedAt <= now
    && MonthStartsAt(month) <= p.resolvedAt < MonthStartsAt(month + 1)
  }

  method OfferedTexts(now: int) returns (texts: seq<string>, months: seq<int>)
    ensures months == MonthsBack(MonthOfInstant(now), now - WINDOW) && |texts| == |months|
    ensures forall i :: 0 <= i < |months| ==> texts[i] == MonthText(months[i])
  {
    months := HistoryMonthsOffered(now - WINDOW, now);
    texts := [];
    for i := 0 to |months|
      invariant |texts| == i
      invariant forall k :: 0 <= k < i ==> texts[k] == MonthText(months[k])
    {
      texts := texts + [MonthText(months[i])];
    }
  }

  predicate OfferedText(now: int, text: string) {
    exists i :: 0 <= i < |Offered(now)| && MonthText(Offered(now)[i]) == text
  }

  function Offered(now: int): (out: seq<int>)
    ensures |out| >= 3
  {
    OfferedMonths(now);
    MonthsBack(MonthOfInstant(now), now - WINDOW)
  }

  /** What the request parses to: the reference for the method below. */
  function Expected(now: int, month: string, raw: string, slow: string -> Option<int>): Parsed {
    var text := if month == "" then MonthText(Offered(now)[0]) else month;
    var start := ReadMonth(text);
    if start.None? || MonthText(start.value) != text then InvalidMonth else
    if !OfferedText(now, text) then MonthOutsideHistory else
    if raw == "" then Request(start.value, None) else
    var after := Decode(raw, slow);
    if after.None? || !Accepts(raw, after.value, start.value, now) then InvalidCursor
    else Request(start.value, after)
  }

  method ParseHistoryRequest(now: int, month: string, raw: string, slow: string -> Option<int>) returns (r: Parsed)
    ensures r == Expected(now, month, raw, slow)
  {
    hide Decode;
    hide ReadMonth;
    hide MonthText;
    hide MonthsBack;
    hide Accepts;
    hide OfferedText;
    var texts, months := OfferedTexts(now);
    assert months == Offered(now);
    var text := month;
    if text == "" { text := texts[0]; }
    var start := ReadMonth(text);
    if start.None? || MonthText(start.value) != text { return InvalidMonth; }
    var offered := Among(texts, text);
    TextsOffered(now, texts, text);
    if !offered { return MonthOutsideHistory; }
    if raw == "" { return Request(start.value, None); }
    var after := Decode(raw, slow);
    if after.None? || !Accepts(raw, after.value, start.value, now) { return InvalidCursor; }
    return Request(start.value, after);
  }

  method Among(texts: seq<string>, text: string) returns (found: bool)
    ensures found <==> text in texts
  {
    found := false;
    for i := 0 to |texts|
      invariant found <==> text in texts[..i]
    {
      found := found || texts[i] == text;
    }
  }

  lemma TextsOffered(now: int, texts: seq<string>, text: string)
    requires |texts| == |Offered(now)|
    requires forall i :: 0 <= i < |texts| ==> texts[i] == MonthText(Offered(now)[i])
    ensures text in texts <==> OfferedText(now, text)
  {
    hide MonthText;
    hide Offered;
    if text in texts {
      var k :| 0 <= k < |texts| && texts[k] == text;
      assert MonthText(Offered(now)[k]) == text;
    }
    if OfferedText(now, text) {
      var k :| 0 <= k < |Offered(now)| && MonthText(Offered(now)[k]) == text;
      assert texts[k] == text;
    }
  }

  // ----- canonicity and the moving window

  /** A position has one accepted spelling: distinct accepted cursors never name the same position, in any requests. */
  lemma CursorCanonical(now1: int, month1: string, raw1: string, now2: int, month2: string, raw2: string,
      slow: string -> Option<int>)
    ensures var one, two := Expected(now1, month1, raw1, slow), Expected(now2, month2, raw2, slow);
      one.Request? && two.Request? && raw1 != "" && raw2 != "" ==> (one.after == two.after <==> raw1 == raw2)
  {
    hide Decode;
    hide ReadMonth;
    hide MonthText;
    hide Offered;
    hide Encode;
    hide OfferedText;
    hide MonthStartsAt;
  }

  lemma MonthReads(month: int)
    requires 0 <= month / 12 <= 9999
    ensures ReadMonth(MonthText(month)) == Some(month)
  {
    hide Timestamp.Number;
    hide Timestamp.Digits;
    var y, m := Timestamp.Digits(month / 12, 4), Timestamp.Digits(month % 12 + 1, 2);
    assert Timestamp.Year(month / 12) == y;
    var s := MonthText(month);
    assert s == y + "-" + m;
    assert s[..4] == y && s[5..] == m && s[4] == '-';
    Timestamp.BillionIsPow10();
    Timestamp.NumberOfDigits(month / 12, 4);
    Timestamp.TwoDigits(month % 12 + 1);
  }

  /** An offered month's text is among the offered texts. */
  lemma TextOffered(now: int, month: int)
    requires 0 <= month / 12 <= 9999
    ensures month in Offered(now) ==> OfferedText(now, MonthText(month))
  {
    hide MonthText;
    if month in Offered(now) {
      var i :| 0 <= i < |Offered(now)| && Offered(now)[i] == month;
      assert MonthText(Offered(now)[i]) == MonthText(month);
    }
  }

  /** The month of an instant in the window is offered. */
  lemma WindowMonthOffered(now: int, t: int)
    requires now - WINDOW < t <= now
    ensures MonthOfInstant(t) in Offered(now)
  {
    hide MonthsBack;
    hide MonthStartsAt;
    hide MonthOfInstant;
    var m, cur := MonthOfInstant(t), MonthOfInstant(now);
    InstantInMonth(t, m);
    InstantInMonth(now, cur);
    if m > cur { EndsLater(cur + 1, m); }
    MonthsBackMembers(cur, now - WINDOW, m);
  }

  /** A minted cursor, sent with its own month, stays acceptable exactly while its instant is in the moving window. */
  lemma CursorWindow(p: Position, now: int, slow: string -> Option<int>)
    requires Timestamp.Writable(p.resolvedAt) && CanonicalUUID(p.id)
    ensures Encode(p).Some? && Encode(p).value != ""
    ensures var month := MonthOfInstant(p.resolvedAt);
      (Expected(now, MonthText(month), Encode(p).value, slow) == Request(month, Some(p))) <==>
      (now - WINDOW < p.resolvedAt <= now)
  {
    hide Decode;
    hide ReadMonth;
    hide Timestamp.Format;
    hide MonthStartsAt;
    hide OfferedText;
    hide CanonicalUUID;
    hide MonthOfInstant;
    hide Offered;
    var month := MonthOfInstant(p.resolvedAt);
    CursorRoundTrip(p, slow);
    SpelledPlain(p);
    assert Spelled(p) != "";
    assert Encode(p).value != "";
    MonthReads(month);
    InstantInMonth(p.resolvedAt, month);
    TextOffered(now, month);
    if now - WINDOW < p.resolvedAt <= now {
      WindowMonthOffered(now, p.resolvedAt);
    }
  }

  /** A request with neither month nor cursor is answered, for the current month. */
  lemma PlainRequestAccepted(now: int, slow: string -> Option<int>)
    requires Timestamp.Writable(now)
    ensures Expected(now, "", "", slow) == Request(MonthOfInstant(now), None)
  {
    hide ReadMonth;
    hide MonthText;
    hide MonthsBack;
    hide MonthOfInstant;
    OfferedMonths(now);
    var month := MonthOfInstant(now);
    assert Offered(now)[0] == month;
    MonthReads(month);
    TextOffered(now, month);
  }

  /** What a month text reads as, it is the text of. */
  lemma ReadMonthText(s: string)
    requires ReadMonth(s).Some?
    ensures MonthText(ReadMonth(s).value) == s && 0 <= ReadMonth(s).value / 12 <= 9999
  {
    hide Timestamp.Number;
    hide Timestamp.Digits;
    var y, m := s[..4], s[5..];
    Timestamp.DigitsOfNumber(y);
    Timestamp.DigitsOfNumber(m);
    Timestamp.BillionIsPow10();
    var month := 12 * Timestamp.Number(y) + Timestamp.Number(m) - 1;
    assert month / 12 == Timestamp.Number(y) && month % 12 + 1 == Timestamp.Number(m);
    assert Timestamp.Year(month / 12) == y;
    assert s == y + "-" + m;
  }

  lemma NegativeUnreadable(month: int)
    requires month / 12 < 0
    ensures ReadMonth(MonthText(month)).None?
  {
    hide Timestamp.Number;
    hide Timestamp.Digits;
    hide Timestamp.Natural;
    var s := MonthText(month);
    assert s[0] == '-';
    if |s| == 7 { assert s[..4][0] == '-'; }
  }

  lemma LongUnreadable(month: int)
    requires month / 12 > 9999
    ensures ReadMonth(MonthText(month)).None?
  {
    hide Timestamp.Number;
    hide Timestamp.Digits;
    hide Timestamp.Natural;
    Timestamp.BillionIsPow10();
    Timestamp.NaturalLong(month / 12, 4);
  }

  /** Only months of four-digit years have a text that reads as a month, and it reads as that month. */
  lemma ReadableMonth(month: int)
    ensures ReadMonth(MonthText(month)) == if 0 <= month / 12 <= 9999 then Some(month) else None
  {
    hide ReadMonth;
    hide MonthText;
    if month / 12 < 0 {
      NegativeUnreadable(month);
    } else if month / 12 > 9999 {
      LongUnreadable(month);
    } else {
      MonthReads(month);
    }
  }

  /** A month's text: four digits of the year, a dash, two digits of the month. */
  lemma MonthTextFields(month: int)
    requires 0 <= month / 12 <= 9999
    ensures var s := MonthText(month);
      && |s| == 7 && s[4] == '-' && Timestamp.Decimal(s[..4]) && Timestamp.Decimal(s[5..])
      && Timestamp.Number(s[..4]) == month / 12 && Timestamp.Number(s[5..]) == month % 12 + 1
  {
    hide Timestamp.Number;
    hide Timestamp.Digits;
    var y, m := Timestamp.Digits(month / 12, 4), Timestamp.Digits(month % 12 + 1, 2);
    assert Timestamp.Year(month / 12) == y;
    var s := MonthText(month);
    assert s[..4] == y && s[5..] == m;
    Timestamp.BillionIsPow10();
    Timestamp.NumberOfDigits(month / 12, 4);
    Timestamp.TwoDigits(month % 12 + 1);
  }

  /** A month the history offers: not later than the current one, and ending after the window's start. */
  predicate InHistory(now: int, month: int) {
    month <= MonthOfInstant(now) && MonthStartsAt(month + 1) > now - 90 * 86_400_000_000_000
  }

  lemma OfferedTextMeans(now: int, text: string)
    requires ReadMonth(text).Some?
    ensures OfferedText(now, text) <==> InHistory(now, ReadMonth(text).value)
  {
    hide ReadMonth;
    hide MonthText;
    hide MonthsBack;
    hide MonthStartsAt;
    hide MonthOfInstant;
    var month := ReadMonth(text).value;
    ReadMonthText(text);
    MonthsBackMembers(MonthOfInstant(now), now - WINDOW, month);
    if OfferedText(now, text) {
      var i :| 0 <= i < |Offered(now)| && MonthText(Offered(now)[i]) == text;
      ReadableMonth(Offered(now)[i]);
      assert Offered(now)[i] in Offered(now);
    }
    TextOffered(now, month);
  }

  /** A request for a month without a cursor: refused as malformed exactly when the text is no YYYY-MM month, refused as outside
      exactly when that month is not in the history, and otherwise answered for that very month. */
  lemma MonthRequest(now: int, text: string, slow: string -> Option<int>)
    requires text != ""
    ensures Expected(now, text, "", slow) ==
      match ReadMonth(text)
      case None => InvalidMonth
      case Some(month) => if InHistory(now, month) then Request(month, None) else MonthOutsideHistory
  {
    hide ReadMonth;
    hide MonthText;
    hide OfferedText;
    hide Offered;
    hide InHistory;
    if ReadMonth(text).Some? {
      ReadMonthText(text);
      OfferedTextMeans(now, text);
    }
  }

  /** An accepted cursor is this server's spelling of a position in the month asked for and in the last 90 days. */
  lemma AcceptedInside(now: int, month: string, raw: string, slow: string -> Option<int>)
    ensures var r := Expected(now, month, raw, slow);
      r.Request? && raw != "" ==>
        && r.after.Some? && Encode(r.after.value) == Some(raw)
        && now - 90 * 86_400_000_000_000 < r.after.value.resolvedAt <= now
        && MonthStartsAt(r.month) <= r.after.value.resolvedAt < MonthStartsAt(r.month + 1)
  {
    hide ReadMonth;
    hide MonthText;
    hide OfferedText;
    hide Offered;
    hide Decode;
    hide Encode;
    hide MonthStartsAt;
  }
}
