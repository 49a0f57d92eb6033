/** The render cache's key (internal/api/statuspagecache.go) and the packed response it stores
    (internal/api/handlers_statuspage.go).

    The key is a JSON array of strings as Go's encoding/json prints it. A Go string is a sequence of Unicode
    scalar values and of stray bytes that are not UTF-8; the printer writes every stray byte as the escape of U+FFFD. */
module CacheKey {
  import opened Options

  datatype Unit = Scalar(c: char) | Stray(byte: nat)

  type Text = seq<Unit>

  // ---------------------------------------------------------------- the printer

  function HexDigit(n: nat): char
    requires n < 16
  {
    if n < 10 then ('0' as nat + n) as char else ('a' as nat + n - 10) as char
  }

  function Hex4(n: nat): string
    requires n < 0x10000
  {
    [HexDigit(n / 4096), HexDigit(n / 256 % 16), HexDigit(n / 16 % 16), HexDigit(n % 16)]
  }

  /** Printed as \uXXXX: other control characters, what HTML could misread, and two JavaScript line ends. */
  predicate Hexed(c: char) {
    c < ' ' || c == '<' || c == '>' || c == '&' || c == '\U{2028}' || c == '\U{2029}'
  }

  function PrintUnit(u: Unit): string {
    match u
    case Stray(_) => "\\ufffd"
    case Scalar(c) =>
      if c == '\"' then "\\\"" else
      if c == '\\' then "\\\\" else
      if c == '\U{08}' then "\\b" else
      if c == '\U{0C}' then "\\f" else
      if c == '\n' then "\\n" else
      if c == '\r' then "\\r" else
      if c == '\t' then "\\t" else
      if Hexed(c) then "\\u" + Hex4(c as nat) else [c]
  }

  function PrintUnits(t: Text): string {
    if t == [] then [] else PrintUnit(t[0]) + PrintUnits(t[1..])
  }

  function PrintString(t: Text): string {
    "\"" + PrintUnits(t) + "\""
  }

  function PrintMore(ts: seq<Text>): string {
    if ts == [] then "]" else "," + PrintString(ts[0]) + PrintMore(ts[1..])
  }

  function PrintArray(ts: seq<Text>): string {
    if ts == [] then "[]" else "[" + PrintString(ts[0]) + PrintMore(ts[1..])
  }

  datatype Endpoint = Render | History

  function Ascii(s: string): Text {
    seq(|s|, i requires 0 <= i < |s| => Scalar(s[i]))
  }

  /** What a request is keyed by: `unlisted` pages key by the token presented, all others by none. */
  datatype Request = Request(endpoint: Endpoint, page: Text, unlisted: bool, public: bool, token: Text, parts: seq<Text>)

  function EffectiveToken(r: Request): Text {
    if r.unlisted then r.token else []
  }

  function Fields(r: Request): seq<Text> {
    [Ascii(if r.endpoint == Render then "render" else "history"), r.page,
     Ascii(if r.public then "public" else "authed"), EffectiveToken(r)] + r.parts
  }

  function StatusPageCacheKey(r: Request): string {
    PrintArray(Fields(r))
  }

  // ---------------------------------------------------------------- a reader that inverts it

  function HexValue(c: char): Option<nat> {
    if '0' <= c <= '9' then Some(c as nat - '0' as nat) else
    if 'a' <= c <= 'f' then Some(c as nat - 'a' as nat + 10) else None
  }

  function ReadHex4(s: string): Option<nat>
    requires |s| >= 4
  {
    match (HexValue(s[0]), HexValue(s[1]), HexValue(s[2]), HexValue(s[3]))
    case (Some(a), Some(b), Some(c), Some(d)) => Some(4096 * a + 256 * b + 16 * c + d)
    case _ => None
  }

  /** One unit from the front of a string body; stray bytes come back as one and the same stray unit. */
  function ReadUnit(s: string): Option<(Unit, nat)>
    requires s != []
  {
    if s[0] != '\\' then Some((Scalar(s[0]), 1)) else
    if |s| < 2 then None else
    if s[1] == '\"' then Some((Scalar('\"'), 2)) else
    if s[1] == '\\' then Some((Scalar('\\'), 2)) else
    if s[1] == 'b' then Some((Scalar('\U{08}'), 2)) else
    if s[1] == 'f' then Some((Scalar('\U{0C}'), 2)) else
    if s[1] == 'n' then Some((Scalar('\n'), 2)) else
    if s[1] == 'r' then Some((Scalar('\r'), 2)) else
    if s[1] == 't' then Some((Scalar('\t'), 2)) else
    if s[1] != 'u' || |s| < 6 then None else
    match ReadHex4(s[2..6])
    case None => None
    case Some(v) =>
      if v == 0xfffd then Some((Stray(0), 6)) else
      if v < 0xd800 then Some((Scalar(v as char), 6)) else None
  }

  /** A string body and what follows its closing quote. */
  function ReadUnits(s: string): Option<(Text, string)> {
    if s == [] then None else
    if s[0] == '\"' then Some(([], s[1..])) else
    match ReadUnit(s)
    case None => None
    case Some((u, n)) =>
      if n == 0 || n > |s| then None else
      match ReadUnits(s[n..])
      case None => None
      case Some((t, rest)) => Some(([u] + t, rest))
  }

  function ReadMore(s: string): Option<seq<Text>>
    decreases |s|
  {
    if s == "]" then Some([]) else
    if |s| < 2 || s[0] != ',' || s[1] != '\"' then None else
    match ReadUnits(s[2..])
    case None => None
    case Some((t, rest)) =>
      if |rest| >= |s| then None else
      match ReadMore(rest)
      case None => None
      case Some(ts) => Some([t] + ts)
  }

  function ReadArray(s: string): Option<seq<Text>> {
    if s == "[]" then Some([]) else
    if |s| < 2 || s[0] != '[' || s[1] != '\"' then None else
    match ReadUnits(s[2..])
    case None => None
    case Some((t, rest)) =>
      match ReadMore(rest)
      case None => None
      case Some(ts) => Some([t] + ts)
  }

  // ---------------------------------------------------------------- the round trip

  function Blur(u: Unit): Unit {
    match u case Stray(_) => Stray(0) case Scalar(_) => u
  }

  /** Everything about a text except which stray bytes it holds. */
  function BlurText(t: Text): Text {
    seq(|t|, i requires 0 <= i < |t| => Blur(t[i]))
  }

  function BlurAll(ts: seq<Text>): seq<Text> {
    seq(|ts|, i requires 0 <= i < |ts| => BlurText(ts[i]))
  }

  lemma Hex4RoundTrip(n: nat)
    requires n < 0x10000
    ensures ReadHex4(Hex4(n)) == Some(n)
  {
    HexRoundTrip(n / 4096);
    HexRoundTrip(n / 256 % 16);
    HexRoundTrip(n / 16 % 16);
    HexRoundTrip(n % 16);
    hide HexDigit;
    hide HexValue;
    assert n / 16 == 16 * (n / 256) + n / 16 % 16;
    assert n / 256 == 16 * (n / 4096) + n / 256 % 16;
  }

  lemma HexRoundTrip(n: nat)
    requires n < 16
    ensures HexValue(HexDigit(n)) == Some(n)
  {}

  lemma UnitRoundTrip(u: Unit, rest: string)
    ensures var p := PrintUnit(u);
      p != [] && p[0] != '\"' && ReadUnit(p + rest) == Some((Blur(u), |p|)) && (p + rest)[|p|..] == rest
  {
    var p := PrintUnit(u);
    match u
    case Stray(_) =>
      assert (p + rest)[2..6] == "fffd";
      assert ReadHex4("fffd") == Some(0xfffd);
    case Scalar(c) =>
      if Hexed(c) && c != '\n' && c != '\r' && c != '\t' && c != '\U{08}' && c != '\U{0C}' {
        Hex4RoundTrip(c as nat);
        assert (p + rest)[2..6] == Hex4(c as nat);
      }
  }

  lemma {:induction false} UnitsRoundTrip(t: Text, rest: string)
    ensures ReadUnits(PrintUnits(t) + "\"" + rest) == Some((BlurText(t), rest))
  {
    var s := PrintUnits(t) + "\"" + rest;
    if t == [] {
      assert s == "\"" + rest;
      assert s[1..] == rest;
    } else {
      var p, more := PrintUnit(t[0]), PrintUnits(t[1..]) + "\"" + rest;
      assert s == p + more;
      UnitRoundTrip(t[0], more);
      UnitsRoundTrip(t[1..], rest);
      assert BlurText(t) == [Blur(t[0])] + BlurText(t[1..]);
    }
  }

  /** An opening character, a quoted body, and the rest. */
  lemma Opened(c: string, body: string, rest: string, s: string)
    requires |c| == 1 && s == c + ("\"" + body + "\"") + rest
    ensures |s| > 2 && s[0] == c[0] && s[1] == '\"' && s[2..] == body + "\"" + rest
    ensures |rest| < |s|
  {}

  lemma {:induction false} MoreRoundTrip(ts: seq<Text>)
    ensures ReadMore(PrintMore(ts)) == Some(BlurAll(ts))
  {
    hide ReadUnits;
    hide PrintUnits;
    hide BlurText;
    if ts == [] {
      assert BlurAll(ts) == [];
    } else {
      var rest := PrintMore(ts[1..]);
      Opened(",", PrintUnits(ts[0]), rest, PrintMore(ts));
      UnitsRoundTrip(ts[0], rest);
      MoreRoundTrip(ts[1..]);
      assert BlurAll(ts) == [BlurText(ts[0])] + BlurAll(ts[1..]);
    }
  }

  /** Reading a printed array gives its fields back, up to which stray bytes they held. */
  lemma ArrayRoundTrip(ts: seq<Text>)
    ensures ReadArray(PrintArray(ts)) == Some(BlurAll(ts))
  {
    hide ReadUnits;
    hide PrintUnits;
    hide ReadMore;
    hide PrintMore;
    hide BlurText;
    if ts == [] {
      assert BlurAll(ts) == [];
    } else {
      var rest := PrintMore(ts[1..]);
      Opened("[", PrintUnits(ts[0]), rest, PrintArray(ts));
      UnitsRoundTrip(ts[0], rest);
      MoreRoundTrip(ts[1..]);
      assert BlurAll(ts) == [BlurText(ts[0])] + BlurAll(ts[1..]);
    }
  }

  lemma {:induction false} UnitsBlur(a: Text, b: Text)
    requires BlurText(a) == BlurText(b)
    ensures PrintUnits(a) == PrintUnits(b)
  {
    assert |a| == |BlurText(a)| == |b|;
    if a != [] {
      assert BlurText(a)[0] == Blur(a[0]) && BlurText(b)[0] == Blur(b[0]);
      assert BlurText(a[1..]) == BlurText(a)[1..] == BlurText(b[1..]);
      UnitsBlur(a[1..], b[1..]);
    }
  }

  lemma {:induction false} MoreBlur(a: seq<Text>, b: seq<Text>)
    requires BlurAll(a) == BlurAll(b)
    ensures PrintMore(a) == PrintMore(b) && PrintArray(a) == PrintArray(b)
  {
    assert |a| == |BlurAll(a)| == |b|;
    if a != [] {
      assert BlurAll(a)[0] == BlurText(a[0]) && BlurAll(b)[0] == BlurText(b[0]);
      UnitsBlur(a[0], b[0]);
      assert BlurAll(a[1..]) == BlurAll(a)[1..] == BlurAll(b[1..]);
      MoreBlur(a[1..], b[1..]);
    }
  }

  /** Two requests a shared key may confuse: they differ in nothing but which stray bytes their texts hold. */
  ghost predicate SameAccess(a: Request, b: Request) {
    && a.endpoint == b.endpoint && a.public == b.public
    && BlurText(a.page) == BlurText(b.page)
    && BlurText(EffectiveToken(a)) == BlurText(EffectiveToken(b))
    && BlurAll(a.parts) == BlurAll(b.parts)
  }

  lemma WordsDiffer()
    ensures Ascii("render") != Ascii("history") && Ascii("public") != Ascii("authed")
  {
    assert |Ascii("render")| != |Ascii("history")|;
    assert Ascii("public")[0] != Ascii("authed")[0];
  }

  lemma AsciiBlur(s: string)
    ensures BlurText(Ascii(s)) == Ascii(s)
  {}

  lemma FieldsBlur(a: Request, b: Request)
    ensures BlurAll(Fields(a)) == BlurAll(Fields(b)) <==> SameAccess(a, b)
  {
    var fa, fb := Fields(a), Fields(b);
    AsciiBlur("render");
    AsciiBlur("history");
    AsciiBlur("public");
    AsciiBlur("authed");
    WordsDiffer();
    forall r: Request
      ensures BlurAll(Fields(r)) == [BlurText(Fields(r)[0]), BlurText(r.page), BlurText(Fields(r)[2]), BlurText(EffectiveToken(r))] + BlurAll(r.parts)
    {}
    if BlurAll(fa) == BlurAll(fb) {
      assert BlurAll(fa)[0] == BlurAll(fb)[0] && BlurAll(fa)[1] == BlurAll(fb)[1];
      assert BlurAll(fa)[2] == BlurAll(fb)[2] && BlurAll(fa)[3] == BlurAll(fb)[3];
      assert BlurAll(fa)[4..] == BlurAll(a.parts) && BlurAll(fb)[4..] == BlurAll(b.parts);
    }
  }

  /** Equal keys name the same endpoint, page, access shape, effective token and parts, and only those. */
  lemma KeyInjective(a: Request, b: Request)
    ensures StatusPageCacheKey(a) == StatusPageCacheKey(b) <==> SameAccess(a, b)
  {
    FieldsBlur(a, b);
    ArrayRoundTrip(Fields(a));
    ArrayRoundTrip(Fields(b));
    if SameAccess(a, b) {
      MoreBlur(Fields(a), Fields(b));
    }
  }

  ghost predicate Clean(t: Text) {
    forall i :: 0 <= i < |t| ==> t[i].Scalar?
  }

  lemma CleanBlur(a: Text, b: Text)
    requires Clean(a) && Clean(b)
    ensures BlurText(a) == BlurText(b) <==> a == b
  {
    if BlurText(a) == BlurText(b) {
      assert |a| == |BlurText(a)| == |b|;
      forall i | 0 <= i < |a|
        ensures a[i] == b[i]
      {
        assert BlurText(a)[i] == a[i] && BlurText(b)[i] == b[i];
      }
    }
  }

  ghost predicate CleanAll(ts: seq<Text>) {
    forall i :: 0 <= i < |ts| ==> Clean(ts[i])
  }

  lemma CleanBlurAll(a: seq<Text>, b: seq<Text>)
    requires CleanAll(a) && CleanAll(b)
    ensures BlurAll(a) == BlurAll(b) <==> a == b
  {
    if BlurAll(a) == BlurAll(b) {
      assert |a| == |BlurAll(a)| == |b|;
      forall i | 0 <= i < |a|
        ensures a[i] == b[i]
      {
        assert BlurAll(a)[i] == BlurText(a[i]) && BlurAll(b)[i] == BlurText(b[i]);
        CleanBlur(a[i], b[i]);
      }
    }
  }

  /** On valid text the key is injective: equal exactly for the same endpoint, page, access shape, effective token and parts. */
  lemma KeyInjectiveOnText(a: Request, b: Request)
    requires Clean(a.page) && Clean(a.token) && CleanAll(a.parts)
    requires Clean(b.page) && Clean(b.token) && CleanAll(b.parts)
    ensures StatusPageCacheKey(a) == StatusPageCacheKey(b) <==>
      a.endpoint == b.endpoint && a.page == b.page && a.public == b.public && EffectiveToken(a) == EffectiveToken(b)
      && a.parts == b.parts
  {
    hide StatusPageCacheKey;
    hide BlurText;
    hide BlurAll;
    hide Clean;
    hide CleanAll;
    KeyInjective(a, b);
    CleanBlur(a.page, b.page);
    assert Clean([]) by { CleanNone(); }
    CleanBlur(EffectiveToken(a), EffectiveToken(b));
    CleanBlurAll(a.parts, b.parts);
  }

  lemma CleanNone()
    ensures Clean([])
  {}

  /** On valid UTF-8 an unlisted page's bytes are keyed by exactly the token presented. */
  lemma UnlistedTokenSeparates(r: Request, token: Text)
    requires r.unlisted && Clean(r.token) && Clean(token)
    ensures StatusPageCacheKey(r) == StatusPageCacheKey(r.(token := token)) <==> r.token == token
  {
    KeyInjective(r, r.(token := token));
    CleanBlur(r.token, token);
  }

  /** A property of the encoder alone: two tokens that are not UTF-8 share a key, since every stray byte prints as one
      escape. The gate below lets neither through. */
  lemma StrayTokensCollide()
    ensures var r := Request(Render, [], true, true, [Stray(0x80)], []);
      r.token != [Stray(0x81)] && StatusPageCacheKey(r) == StatusPageCacheKey(r.(token := [Stray(0x81)]))
  {
    var r := Request(Render, [], true, true, [Stray(0x80)], []);
    KeyInjective(r, r.(token := [Stray(0x81)]));
  }

  // ---------------------------------------------------------------- behind the visibility gate

  datatype Visibility = Listed | Unlisted | Hidden

  datatype Page = Page(id: Text, visibility: Visibility, token: Text)

  /** The gate both public routes pass first (internal/api/handlers_statuspage.go:330-350). */
  predicate Admitted(p: Page, presented: Text) {
    p.visibility == Listed || (p.visibility == Unlisted && presented != [] && presented == p.token)
  }

  function PublicKey(endpoint: Endpoint, p: Page, presented: Text, parts: seq<Text>): string {
    StatusPageCacheKey(Request(endpoint, p.id, p.visibility == Unlisted, true, presented, parts))
  }

  /** Of the requests for one page that pass the gate, whatever tokens they carry, two share a key exactly when they ask for
      the same endpoint and parts; the parts are validated text. */
  lemma GatedKeys(p: Page, e: Endpoint, t: Text, parts: seq<Text>, e': Endpoint, t': Text, parts': seq<Text>)
    requires Admitted(p, t) && Admitted(p, t') && CleanAll(parts) && CleanAll(parts')
    ensures PublicKey(e, p, t, parts) == PublicKey(e', p, t', parts') <==> e == e' && parts == parts'
  {
    hide StatusPageCacheKey;
    hide BlurText;
    hide BlurAll;
    hide CleanAll;
    KeyInjective(Request(e, p.id, p.visibility == Unlisted, true, t, parts),
                 Request(e', p.id, p.visibility == Unlisted, true, t', parts'));
    CleanBlurAll(parts, parts');
  }

  /** Pages with different ids, or an unlisted page before and after its token changed, never share one. */
  lemma GatedPagesApart(p: Page, q: Page, e: Endpoint, t: Text, parts: seq<Text>, t': Text, parts': seq<Text>)
    requires Admitted(p, t) && Admitted(q, t') && CleanAll(parts) && CleanAll(parts')
    requires Clean(p.id) && Clean(q.id) && Clean(p.token) && Clean(q.token)
    requires PublicKey(e, p, t, parts) == PublicKey(e, q, t', parts')
    ensures p.id == q.id && (p.visibility == q.visibility == Unlisted ==> p.token == q.token)
  {
    hide StatusPageCacheKey;
    hide BlurText;
    hide BlurAll;
    hide Clean;
    hide CleanAll;
    KeyInjective(Request(e, p.id, p.visibility == Unlisted, true, t, parts),
                 Request(e, q.id, q.visibility == Unlisted, true, t', parts'));
    CleanBlur(p.id, q.id);
    CleanBlur(p.token, q.token);
  }

  // ---------------------------------------------------------------- the packed response

  type Byte = b: int | 0 <= b < 256

  const OK: int := 200

  function BytesWithStatus(status: int, body: seq<Byte>): seq<Byte> {
    [status / 256 % 256, status % 256] + body
  }

  function Unpack(packed: seq<Byte>): (int, seq<Byte>) {
    if |packed| < 2 then (OK, packed) else
    var status: int := packed[0] as int * 256 + packed[1] as int;
    (status, packed[2..])
  }

  /** A waiter or a later hit writes the owner's response exactly when the status fits two bytes. */
  lemma PackedRoundTrip(status: int, body: seq<Byte>)
    ensures Unpack(BytesWithStatus(status, body)) == (status, body) <==> 0 <= status < 65536
  {
    var packed := BytesWithStatus(status, body);
    assert packed[2..] == body;
    var (s, _) := Unpack(packed);
    assert 0 <= s < 65536;
    if 0 <= status < 65536 {
      assert status / 256 % 256 == status / 256;
    }
  }
}
