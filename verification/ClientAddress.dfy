/** Resolving the caller's address for rate limiting (internal/auth/ratelimit.go). Whether an address parses
    and lies in a trusted network is the parameter `trusted`; the peer is the host part of the connection. */
module ClientAddress {

  /** White space as Go's unicode.IsSpace has it. */
  predicate IsSpace(c: char) {
    || '\t' <= c <= '\r' || c == ' ' || c == '\U{85}' || c == '\U{A0}' || c == '\U{1680}'
    || '\U{2000}' <= c <= '\U{200A}' || c == '\U{2028}' || c == '\U{2029}' || c == '\U{202F}'
    || c == '\U{205F}' || c == '\U{3000}'
  }

  function TrimLeft(s: string): string {
    if s != [] && IsSpace(s[0]) then TrimLeft(s[1..]) else s
  }

  function TrimRight(s: string): string {
    if s != [] && IsSpace(s[|s| - 1]) then TrimRight(s[..|s| - 1]) else s
  }

  function TrimSpace(s: string): string {
    TrimRight(TrimLeft(s))
  }

  function Push(c: char, parts: seq<string>): (r: seq<string>)
    requires |parts| >= 1
    ensures |r| >= 1
  {
    if c == ',' then [[]] + parts else [[c] + parts[0]] + parts[1..]
  }

  /** The comma-separated parts of a header value. */
  function Split(s: string): (parts: seq<string>)
    ensures |parts| >= 1
  {
    if s == [] then [[]] else Push(s[0], Split(s[1..]))
  }

  function NonEmpty(parts: seq<string>): seq<string> {
    if parts == [] then [] else
    NonEmpty(parts[..|parts| - 1]) +
      (var p := TrimSpace(parts[|parts| - 1]); if p != "" then [p] else [])
  }

  /** The addresses a forwarding header names, left to right. */
  function Entries(xff: string): seq<string> {
    NonEmpty(Split(xff))
  }

  function Chain(xff: string, peer: string): seq<string> {
    Entries(xff) + [peer]
  }

  /** The last address of a chain that is not trusted infrastructure, or the first of all. */
  function LastUntrusted(chain: seq<string>, trusted: string -> bool): string
    requires chain != []
  {
    if !trusted(chain[|chain| - 1]) || |chain| == 1 then chain[|chain| - 1]
    else LastUntrusted(chain[..|chain| - 1], trusted)
  }

  function ByNetwork(xff: string, peer: string, trusted: string -> bool): string {
    if !trusted(peer) then peer else LastUntrusted(Chain(xff, peer), trusted)
  }

  function ByHops(xff: string, peer: string, hops: int): string {
    if hops <= 0 then peer else
    var chain := Chain(xff, peer);
    chain[if |chain| - 1 - hops < 0 then 0 else |chain| - 1 - hops]
  }

  // ---------------------------------------------------------------- the code

  method ForwardChain(xff: string, peer: string) returns (chain: seq<string>)
    ensures chain == Chain(xff, peer)
  {
    chain := [];
    if xff != "" {
      var parts := Split(xff);
      for i := 0 to |parts|
        invariant chain == NonEmpty(parts[..i])
      {
        assert parts[..i + 1][..i] == parts[..i];
        var p := TrimSpace(parts[i]);
        if p != "" { chain := chain + [p]; }
      }
      assert parts[..|parts|] == parts;
    }
    chain := chain + [peer];
  }

  method ClientIPByCIDR(xff: string, peer: string, trusted: string -> bool) returns (ip: string)
    ensures ip == ByNetwork(xff, peer, trusted)
  {
    if !trusted(peer) { return peer; }
    var chain := ForwardChain(xff, peer);
    var i := |chain| - 1;
    assert chain[..i + 1] == chain;
    while i >= 0
      invariant -1 <= i < |chain|
      invariant i >= 0 ==> LastUntrusted(chain, trusted) == LastUntrusted(chain[..i + 1], trusted)
      invariant i < 0 ==> LastUntrusted(chain, trusted) == chain[0]
    {
      assert i > 0 ==> chain[..i + 1][..i] == chain[..i];
      if !trusted(chain[i]) { return chain[i]; }
      i := i - 1;
    }
    ip := chain[0];
  }

  /** `networks` says whether trusted networks are configured; they supersede the hop count. */
  method ClientIP(xff: string, peer: string, hops: int, networks: bool, trusted: string -> bool) returns (ip: string)
    ensures ip == if networks then ByNetwork(xff, peer, trusted) else ByHops(xff, peer, hops)
  {
    if networks {
      ip := ClientIPByCIDR(xff, peer, trusted);
      return;
    }
    if hops <= 0 { return peer; }
    var chain := ForwardChain(xff, peer);
    var idx := |chain| - 1 - hops;
    if idx < 0 { idx := 0; }
    ip := chain[idx];
  }

  // ---------------------------------------------------------------- forging

  /** What a client sends arrives in front of what the proxies append. */
  ghost function Forwarded(forged: string, xff: string): string {
    forged + "," + xff
  }

  lemma PushJoins(c: char, left: seq<string>, right: seq<string>)
    requires |left| >= 1
    ensures Push(c, left + right) == Push(c, left) + right
  {}

  lemma {:induction false} SplitJoins(a: string, b: string)
    ensures Split(a + "," + b) == Split(a) + Split(b)
  {
    if a == [] {
      assert a + "," + b == "," + b;
      assert ("," + b)[1..] == b;
    } else {
      hide Push;
      SplitJoins(a[1..], b);
      PushJoins(a[0], Split(a[1..]), Split(b));
      assert (a + "," + b)[1..] == a[1..] + "," + b;
    }
  }

  lemma {:induction false} NonEmptyJoins(a: seq<string>, b: seq<string>)
    ensures NonEmpty(a + b) == NonEmpty(a) + NonEmpty(b)
  {
    if b == [] {
      assert a + b == a;
    } else {
      NonEmptyJoins(a, b[..|b| - 1]);
      assert (a + b)[..|a + b| - 1] == a + b[..|b| - 1];
    }
  }

  lemma EntriesJoin(a: string, b: string)
    ensures Entries(a + "," + b) == Entries(a) + Entries(b)
  {
    SplitJoins(a, b);
    NonEmptyJoins(Split(a), Split(b));
  }

  lemma ForgedInFront(forged: string, xff: string, peer: string)
    ensures Chain(Forwarded(forged, xff), peer) == Entries(forged) + Chain(xff, peer)
  {
    hide Entries;
    EntriesJoin(forged, xff);
  }

  ghost predicate SomeUntrusted(chain: seq<string>, trusted: string -> bool) {
    exists a <- chain :: !trusted(a)
  }

  lemma {:induction false} PrefixIgnored(forged: seq<string>, chain: seq<string>, trusted: string -> bool)
    requires chain != [] && SomeUntrusted(chain, trusted)
    ensures LastUntrusted(forged + chain, trusted) == LastUntrusted(chain, trusted)
    decreases |chain|
  {
    var n := |chain| - 1;
    if trusted(chain[n]) {
      assert chain == chain[..n] + [chain[n]];
      PrefixIgnored(forged, chain[..n], trusted);
      assert (forged + chain)[..|forged + chain| - 1] == forged + chain[..n];
    }
  }

  lemma {:induction false} AllTrustedGivesFirst(chain: seq<string>, trusted: string -> bool)
    requires chain != [] && forall i :: 0 < i < |chain| ==> trusted(chain[i])
    ensures LastUntrusted(chain, trusted) == chain[0]
    decreases |chain|
  {
    if |chain| > 1 { AllTrustedGivesFirst(chain[..|chain| - 1], trusted); }
  }

  lemma OneEntry(c: char)
    requires c != ',' && !IsSpace(c)
    ensures Entries([c]) == [[c]]
  {
    var none: string := [];
    assert [c][1..] == none && Split(none) == [none] && [c] + none == [c];
    assert Split([c]) == [[c]];
    assert [[c]][..0] == [];
    assert NonEmpty([[c]]) == NonEmpty([]) + [[c]];
  }

  /** Under the network model no forged header changes the answer exactly when some address the proxies
      vouch for, the peer included, is not itself one of ours. */
  lemma NetworkForgery(xff: string, peer: string, trusted: string -> bool)
    ensures (forall forged :: ByNetwork(Forwarded(forged, xff), peer, trusted) == ByNetwork(xff, peer, trusted))
              <==> SomeUntrusted(Chain(xff, peer), trusted)
  {
    var chain := Chain(xff, peer);
    assert chain[|chain| - 1] == peer;
    if SomeUntrusted(chain, trusted) {
      forall forged
        ensures ByNetwork(Forwarded(forged, xff), peer, trusted) == ByNetwork(xff, peer, trusted)
      {
        ForgedInFront(forged, xff, peer);
        PrefixIgnored(Entries(forged), chain, trusted);
      }
    } else {
      assert trusted(peer);
      AllTrustedGivesFirst(chain, trusted);
      var c := if chain[0] == "a" then 'b' else 'a';
      OneEntry(c);
      ForgedInFront([c], xff, peer);
      AllTrustedGivesFirst([[c]] + chain, trusted);
      assert ByNetwork(Forwarded([c], xff), peer, trusted) != ByNetwork(xff, peer, trusted);
    }
  }

  /** Under the hop-count model, exactly when every configured hop is really there or none is configured. */
  lemma HopForgery(xff: string, peer: string, hops: int)
    ensures (forall forged :: ByHops(Forwarded(forged, xff), peer, hops) == ByHops(xff, peer, hops))
              <==> hops < |Chain(xff, peer)|
  {
    var chain := Chain(xff, peer);
    if hops < |chain| {
      forall forged
        ensures ByHops(Forwarded(forged, xff), peer, hops) == ByHops(xff, peer, hops)
      {
        ForgedInFront(forged, xff, peer);
      }
    } else {
      var c := if chain[0] == "a" then 'b' else 'a';
      var forged := SeveralOf(c, hops);
      SeveralEntries(c, hops);
      ForgedInFront(forged, xff, peer);
      var longer := Entries(forged) + chain;
      assert longer[|longer| - 1 - hops] == Entries(forged)[|chain|] == [c];
      assert ByHops(Forwarded(forged, xff), peer, hops) != ByHops(xff, peer, hops);
    }
  }

  /** "c,c,...,c", at least `n` times. */
  ghost function SeveralOf(c: char, n: nat): string {
    if n == 0 then [c] else [c] + "," + SeveralOf(c, n - 1)
  }

  lemma {:induction false} SeveralEntries(c: char, n: nat)
    requires c != ',' && !IsSpace(c)
    ensures |Entries(SeveralOf(c, n))| == n + 1
    ensures forall i :: 0 <= i < |Entries(SeveralOf(c, n))| ==> Entries(SeveralOf(c, n))[i] == [c]
  {
    hide Entries;
    OneEntry(c);
    if n > 0 {
      SeveralEntries(c, n - 1);
      EntriesJoin([c], SeveralOf(c, n - 1));
    }
  }

  // ---------------------------------------------------------------- lists in a header

  /** Not empty, and no white space at either end. */
  predicate Tight(s: string) {
    |s| > 0 && !IsSpace(s[0]) && !IsSpace(s[|s| - 1])
  }

  lemma TightTrims(s: string)
    requires Tight(s)
    ensures TrimSpace(s) == s
  {}

  lemma {:induction false} SplitPlain(a: string)
    requires ',' !in a
    ensures Split(a) == [a]
  {
    if a != [] {
      SplitPlain(a[1..]);
      assert a == [a[0]] + a[1..];
    }
  }

  lemma {:induction false} SplitComma(a: string, rest: string)
    requires ',' !in a
    ensures Split(a + "," + rest) == [a] + Split(rest)
  {
    var s := a + "," + rest;
    if a == [] {
      assert s[1..] == rest;
    } else {
      SplitComma(a[1..], rest);
      assert s[1..] == a[1..] + "," + rest;
      assert a == [a[0]] + a[1..];
    }
  }

  /** Addresses as proxies write them, one after the other. */
  ghost function Listed(addresses: seq<string>): string {
    if addresses == [] then "" else
    if |addresses| == 1 then addresses[0] else addresses[0] + ", " + Listed(addresses[1..])
  }

  ghost predicate Plain(addresses: seq<string>) {
    forall i :: 0 <= i < |addresses| ==> Tight(addresses[i]) && ',' !in addresses[i]
  }

  lemma NonEmptyFirst(part: string, parts: seq<string>)
    ensures NonEmpty([part] + parts) == (if TrimSpace(part) != "" then [TrimSpace(part)] else []) + NonEmpty(parts)
  {
    NonEmptyJoins([part], parts);
    assert [part][..0] == [];
  }

  lemma {:induction false} SpaceInFront(s: string)
    ensures Split(" " + s) == [" " + Split(s)[0]] + Split(s)[1..]
  {
    assert (" " + s)[1..] == s;
  }

  lemma TrimsSpace(s: string)
    ensures TrimSpace(" " + s) == TrimSpace(s)
  {
    assert (" " + s)[1..] == s;
  }

  /** What was listed is what is read: the entries of a header are the addresses in it, in order, without the white space. */
  lemma {:induction false} EntriesOfListed(addresses: seq<string>)
    requires Plain(addresses)
    ensures Entries(Listed(addresses)) == addresses
  {
    if addresses == [] {
      NonEmptyFirst("", []);
    } else {
      var first := addresses[0];
      assert Tight(first) && ',' !in first;
      TightTrims(first);
      if |addresses| == 1 {
        SplitPlain(first);
        NonEmptyFirst(first, []);
      } else {
        var rest := Listed(addresses[1..]);
        EntriesOfListed(addresses[1..]);
        assert first + ", " + rest == first + "," + (" " + rest);
        SplitComma(first, " " + rest);
        NonEmptyFirst(first, Split(" " + rest));
        EntriesIgnoreSpace(rest);
        assert addresses == [first] + addresses[1..];
      }
    }
  }

  lemma EntriesIgnoreSpace(s: string)
    ensures Entries(" " + s) == Entries(s)
  {
    SpaceInFront(s);
    var parts := Split(s);
    NonEmptyFirst(" " + parts[0], parts[1..]);
    NonEmptyFirst(parts[0], parts[1..]);
    TrimsSpace(parts[0]);
    assert parts == [parts[0]] + parts[1..];
  }

  // ---------------------------------------------------------------- whose address it is

  lemma ChainOfListed(addresses: seq<string>, peer: string)
    requires Plain(addresses)
    ensures Chain(Listed(addresses), peer) == addresses + [peer]
  {
    EntriesOfListed(addresses);
  }

  /** Addresses as a chain of proxies writes them: what the client forged, the client, and the proxies before the peer. */
  ghost predicate Route(addresses: seq<string>, forged: seq<string>, client: string, proxies: seq<string>) {
    addresses == forged + [client] + proxies && Plain(addresses)
  }

  /** With as many proxies as hops, the last of them the peer, the address is the one the first proxy saw, whatever the client put
      in front of it. */
  lemma HopsFindClient(addresses: seq<string>, forged: seq<string>, client: string, proxies: seq<string>, peer: string)
    requires Route(addresses, forged, client, proxies)
    ensures ByHops(Listed(addresses), peer, |proxies| + 1) == client
  {
    hide Listed;
    hide Chain;
    hide Plain;
    ChainOfListed(addresses, peer);
  }

  /** With trusted proxies in front of an untrusted client, likewise, however many there are; and with an untrusted peer it is the
      peer. */
  lemma NetworksFindClient(addresses: seq<string>, forged: seq<string>, client: string, proxies: seq<string>, peer: string,
      trusted: string -> bool)
    requires Route(addresses, forged, client, proxies) && forall i :: 0 <= i < |proxies| ==> trusted(proxies[i])
    ensures trusted(peer) && !trusted(client) ==> ByNetwork(Listed(addresses), peer, trusted) == client
    ensures !trusted(peer) ==> ByNetwork(Listed(addresses), peer, trusted) == peer
  {
    hide Listed;
    hide Chain;
    hide Plain;
    hide LastUntrusted;
    ChainOfListed(addresses, peer);
    if trusted(peer) && !trusted(client) {
      LastBeforeProxies(addresses + [peer], forged, client, proxies + [peer], trusted);
    }
  }

  lemma LastBeforeProxies(chain: seq<string>, forged: seq<string>, client: string, proxies: seq<string>, trusted: string -> bool)
    requires chain == forged + [client] + proxies && !trusted(client) && forall i :: 0 <= i < |proxies| ==> trusted(proxies[i])
    ensures LastUntrusted(chain, trusted) == client
  {
    hide LastUntrusted;
    assert chain[|forged|] == client;
    forall j | |forged| < j < |chain|
      ensures trusted(chain[j])
    {
      assert chain[j] == proxies[j - |forged| - 1];
    }
    LastUntrustedAt(chain, |forged|, trusted);
  }

  lemma {:induction false} LastUntrustedAt(chain: seq<string>, i: nat, trusted: string -> bool)
    requires i < |chain| && !trusted(chain[i]) && forall j :: i < j < |chain| ==> trusted(chain[j])
    ensures LastUntrusted(chain, trusted) == chain[i]
    decreases |chain|
  {
    if i < |chain| - 1 {
      LastUntrustedAt(chain[..|chain| - 1], i, trusted);
    }
  }
}
