/** The workflow kinds a pull agent declares on each claim (internal/agent/agent.go) and how the core reads them
    (internal/api/handlers_agent.go): a comma-separated header, at most eight entries of one grammar. */
module WorkflowKinds {
  import opened ClientAddress
  import opened Options

  const MAX_KINDS: nat := 8

  /** What a binary built with the canary executor announces (internal/domain/canarycapability.go). */
  const CANARY: string := "async_transaction_v1@1"

  function Announced(canary: bool): seq<string> {
    if canary then [CANARY] else []
  }

  function Header(kinds: seq<string>): string {
    if kinds == [] then "" else
    if |kinds| == 1 then kinds[0] else kinds[0] + "," + Header(kinds[1..])
  }

  predicate Letter(c: char) { 'a' <= c <= 'z' }

  predicate Digit(c: char) { '0' <= c <= '9' }

  /** A name of up to 64 characters, an at sign, and a version of up to three digits. */
  predicate WellFormed(k: string) {
    exists n :: 1 <= n <= 64 && NameAndVersion(k, n)
  }

  predicate NameAndVersion(k: string, n: nat) {
    && 1 <= n && n + 2 <= |k| <= n + 4 && k[n] == '@' && Letter(k[0])
    && (forall i :: 0 < i < n ==> Letter(k[i]) || Digit(k[i]) || k[i] == '_')
    && (forall i :: n < i < |k| ==> Digit(k[i]))
  }

  predicate AllWellFormed(kinds: seq<string>) {
    forall i :: 0 <= i < |kinds| ==> WellFormed(kinds[i])
  }

  function TrimAll(parts: seq<string>): seq<string> {
    seq(|parts|, i requires 0 <= i < |parts| => TrimSpace(parts[i]))
  }

  /** The core's reading of the header: none for a refusal. */
  function Declared(header: string): Option<seq<string>> {
    var raw := TrimSpace(header);
    if raw == "" then Some([]) else
    var kinds := TrimAll(Split(raw));
    if |kinds| > MAX_KINDS || !AllWellFormed(kinds) then None else Some(kinds)
  }

  // ----- the round trip

  lemma WellFormedPlain(k: string)
    requires WellFormed(k)
    ensures Tight(k) && ',' !in k
  {
    var n :| 1 <= n <= 64 && NameAndVersion(k, n);
    forall i | 0 <= i < |k|
      ensures k[i] != ','
    {
      if i == 0 || i == n { } else if i < n { } else { assert Digit(k[i]); }
    }
    assert Digit(k[|k| - 1]);
  }

  lemma {:induction false} HeaderSplits(kinds: seq<string>)
    requires kinds != [] && AllWellFormed(kinds)
    ensures Split(Header(kinds)) == kinds && Tight(Header(kinds))
  {
    WellFormedPlain(kinds[0]);
    if |kinds| == 1 {
      SplitPlain(kinds[0]);
    } else {
      HeaderSplits(kinds[1..]);
      SplitComma(kinds[0], Header(kinds[1..]));
    }
  }

  /** The core reads exactly the kinds that were declared, for any list within its bound and grammar. */
  lemma HeaderRoundTrip(kinds: seq<string>)
    requires AllWellFormed(kinds) && |kinds| <= MAX_KINDS
    ensures Declared(Header(kinds)) == Some(kinds)
  {
    if kinds != [] {
      HeaderSplits(kinds);
      TightTrims(Header(kinds));
      forall i | 0 <= i < |kinds|
        ensures TrimSpace(kinds[i]) == kinds[i]
      {
        WellFormedPlain(kinds[i]);
        TightTrims(kinds[i]);
      }
      assert TrimAll(kinds) == kinds;
    }
  }

  lemma CanaryWellFormed()
    ensures WellFormed(CANARY)
  {
    assert NameAndVersion(CANARY, 20);
  }

  lemma AnnouncedAccepted(canary: bool)
    ensures Declared(Header(Announced(canary))) == Some(Announced(canary))
  {
    hide Declared;
    hide Header;
    hide WellFormed;
    CanaryWellFormed();
    HeaderRoundTrip(Announced(canary));
  }
}
