/** The sliding-window login limiter of internal/auth/ratelimit.go against the full history of attempts.
    Times are nanoseconds; 0 is the zero time. */
module LoginWindow {

  const WINDOW: int := 60_000_000_000
  const SWEEP_INTERVAL: int := 300_000_000_000

  /** What attempts are counted by: the client address. */
  datatype Key = Key(address: string)

  datatype State = State(limit: int, hits: map<Key, seq<int>>, lastSweep: int)

  function Init(perMinute: int): State {
    State(perMinute, map[], 0)
  }

  /** The times after `cutoff`, in order. */
  function After(ts: seq<int>, cutoff: int): seq<int> {
    if ts == [] then [] else
    After(ts[..|ts| - 1], cutoff) + (if ts[|ts| - 1] > cutoff then [ts[|ts| - 1]] else [])
  }

  predicate Stale(ts: seq<int>, cutoff: int) {
    ts == [] || ts[|ts| - 1] <= cutoff
  }

  function Sweep(s: State, now: int): (s': State)
    ensures s'.limit == s.limit
  {
    if s.lastSweep != 0 && now - s.lastSweep < SWEEP_INTERVAL then s else
    s.(lastSweep := now, hits := map k | k in s.hits && !Stale(s.hits[k], now - WINDOW) :: s.hits[k])
  }

  function Hits(s: State, key: Key): seq<int> {
    if key in s.hits then s.hits[key] else []
  }

  /** One attempt: the new state and whether it is allowed. */
  function Allow(s: State, key: Key, now: int): (State, bool) {
    if s.limit <= 0 then (s, true) else
    var s1 := Sweep(s, now);
    var kept := After(Hits(s1, key), now - WINDOW);
    if |kept| >= s1.limit then (s1.(hits := s1.hits[key := kept]), false)
    else (s1.(hits := s1.hits[key := kept + [now]]), true)
  }

  // ---------------------------------------------------------------- the full history

  datatype Attempt = Attempt(key: Key, at: int)

  /** An attempt together with how it was answered. */
  datatype Event = Event(key: Key, at: int, allowed: bool)

  function Run(s: State, attempts: seq<Attempt>): (State, seq<Event>)
    decreases |attempts|
  {
    if attempts == [] then (s, []) else
    var n := |attempts| - 1;
    var (s1, events) := Run(s, attempts[..n]);
    var (s2, ok) := Allow(s1, attempts[n].key, attempts[n].at);
    (s2, events + [Event(attempts[n].key, attempts[n].at, ok)])
  }

  ghost predicate Monotone(attempts: seq<Attempt>) {
    forall i, j :: 0 <= i <= j < |attempts| ==> attempts[i].at <= attempts[j].at
  }

  /** Allowed attempts of `key` in `(from, to]`. */
  ghost function AllowedIn(h: seq<Event>, key: Key, from: int, to: int): nat {
    if h == [] then 0 else
    var e := h[|h| - 1];
    AllowedIn(h[..|h| - 1], key, from, to) + (if e.allowed && e.key == key && from < e.at <= to then 1 else 0)
  }

  /** The times at which `key` was allowed, in order. */
  ghost function AllowedTimes(h: seq<Event>, key: Key): seq<int> {
    if h == [] then [] else
    var e := h[|h| - 1];
    AllowedTimes(h[..|h| - 1], key) + (if e.allowed && e.key == key then [e.at] else [])
  }

  ghost predicate AtMost(ts: seq<int>, t: int) {
    forall i :: 0 <= i < |ts| ==> ts[i] <= t
  }

  ghost predicate Sorted(ts: seq<int>, clock: int) {
    (forall i, j :: 0 <= i <= j < |ts| ==> ts[i] <= ts[j]) && AtMost(ts, clock)
  }

  ghost predicate Past(h: seq<Event>, clock: int) {
    forall i :: 0 <= i < |h| ==> h[i].at <= clock
  }

  /** The limiter kept exactly the newest allowed times, having dropped only what no window reaches. */
  ghost predicate KeptSuffix(kept: seq<int>, all: seq<int>, clock: int) {
    && |kept| <= |all|
    && kept == all[|all| - |kept|..]
    && AtMost(all[..|all| - |kept|], clock - WINDOW)
  }

  ghost predicate Tracks(s: State, h: seq<Event>, clock: int) {
    forall k :: Sorted(AllowedTimes(h, k), clock) && KeptSuffix(Hits(s, k), AllowedTimes(h, k), clock)
  }

  // ---------------------------------------------------------------- refinement

  /** On a sorted sequence, keeping what is after the cutoff is cutting a prefix off. */
  lemma {:induction false} AfterIsSuffix(ts: seq<int>, clock: int, cutoff: int)
    requires Sorted(ts, clock)
    ensures var kept := After(ts, cutoff);
      |kept| <= |ts| && kept == ts[|ts| - |kept|..] && AtMost(ts[..|ts| - |kept|], cutoff)
  {
    if ts != [] {
      var init, last := ts[..|ts| - 1], ts[|ts| - 1];
      if last <= cutoff {
        AfterNone(ts, cutoff);
      } else {
        AfterIsSuffix(init, clock, cutoff);
        var k := |init| - |After(init, cutoff)|;
        assert After(ts, cutoff) == After(init, cutoff) + [last];
        assert ts[k..] == init[k..] + [last];
        assert ts[..k] == init[..k];
        assert AtMost(ts[..k], cutoff);
      }
    }
  }

  lemma {:induction false} AfterNone(ts: seq<int>, cutoff: int)
    requires AtMost(ts, cutoff)
    ensures After(ts, cutoff) == []
  {
    if ts != [] { AfterNone(ts[..|ts| - 1], cutoff); }
  }

  /** Times dropped earlier than the cutoff do not change what is after it. */
  lemma {:induction false} AfterIgnoresOld(dropped: seq<int>, ts: seq<int>, cutoff: int)
    requires AtMost(dropped, cutoff)
    ensures After(dropped + ts, cutoff) == After(ts, cutoff)
  {
    if ts == [] {
      assert dropped + ts == dropped;
      AfterNone(dropped, cutoff);
    } else {
      AfterIgnoresOld(dropped, ts[..|ts| - 1], cutoff);
      assert (dropped + ts)[..|dropped + ts| - 1] == dropped + ts[..|ts| - 1];
    }
  }

  lemma {:induction false} CountIsAfter(h: seq<Event>, key: Key, from: int, to: int)
    requires Past(h, to)
    ensures AllowedIn(h, key, from, to) == |After(AllowedTimes(h, key), from)|
  {
    if h != [] {
      CountIsAfter(h[..|h| - 1], key, from, to);
      var e, before := h[|h| - 1], AllowedTimes(h[..|h| - 1], key);
      if e.allowed && e.key == key {
        assert (before + [e.at])[..|before|] == before;
      } else {
        assert before + [] == before;
      }
    }
  }

  lemma SweepTracks(s: State, h: seq<Event>, clock: int, now: int)
    requires Tracks(s, h, clock) && clock <= now
    ensures Tracks(Sweep(s, now), h, now)
  {
    var s' := Sweep(s, now);
    forall k
      ensures Sorted(AllowedTimes(h, k), now) && KeptSuffix(Hits(s', k), AllowedTimes(h, k), now)
    {
      var all, kept := AllowedTimes(h, k), Hits(s, k);
      assert KeptSuffix(kept, all, clock);
      if k in s.hits && k !in s'.hits && kept != [] {
        assert all[|all| - 1] == kept[|kept| - 1];
      }
    }
  }

  /** What the attempt keeps of its own key, before and after the new time is recorded. */
  lemma KeptAfter(had: seq<int>, all: seq<int>, now: int)
    requires Sorted(all, now) && KeptSuffix(had, all, now)
    ensures var kept := After(had, now - WINDOW);
      && kept == After(all, now - WINDOW)
      && KeptSuffix(kept, all, now)
      && Sorted(all + [now], now) && KeptSuffix(kept + [now], all + [now], now)
  {
    hide After;
    var kept := After(had, now - WINDOW);
    var dropped := all[..|all| - |had|];
    assert all == dropped + had;
    AfterIgnoresOld(dropped, had, now - WINDOW);
    AfterIsSuffix(all, now, now - WINDOW);
    hide Sorted;
    hide AtMost;
    KeptAppend(kept, all, now);
  }

  lemma KeptAppend(kept: seq<int>, all: seq<int>, now: int)
    requires Sorted(all, now) && KeptSuffix(kept, all, now)
    ensures Sorted(all + [now], now) && KeptSuffix(kept + [now], all + [now], now)
  {
    var k := |all| - |kept|;
    assert (all + [now])[k..] == all[k..] + [now];
    assert (all + [now])[..k] == all[..k];
  }

  lemma {:induction false} AllowedTimesStep(h: seq<Event>, e: Event, key: Key)
    ensures AllowedTimes(h + [e], key)
         == if e.allowed && e.key == key then AllowedTimes(h, key) + [e.at] else AllowedTimes(h, key)
  {
    assert (h + [e])[..|h|] == h;
    assert AllowedTimes(h, key) + [] == AllowedTimes(h, key);
  }

  lemma AllowTracks(s: State, h: seq<Event>, clock: int, key: Key, now: int)
    requires s.limit > 0 && Tracks(s, h, clock) && clock <= now && Past(h, clock)
    ensures var (s', ok) := Allow(s, key, now);
      ok == (AllowedIn(h, key, now - WINDOW, now) < s.limit) && Tracks(s', h + [Event(key, now, ok)], now)
  {
    hide After;
    hide AllowedTimes;
    hide KeptSuffix;
    hide Sorted;
    hide Sweep;
    var (s', ok) := Allow(s, key, now);
    var e := Event(key, now, ok);
    var s1 := Sweep(s, now);
    SweepTracks(s, h, clock, now);
    CountIsAfter(h, key, now - WINDOW, now);
    var all, had := AllowedTimes(h, key), Hits(s1, key);
    assert Sorted(all, now) && KeptSuffix(had, all, now);
    KeptAfter(had, all, now);
    forall k
      ensures Sorted(AllowedTimes(h + [e], k), now) && KeptSuffix(Hits(s', k), AllowedTimes(h + [e], k), now)
    {
      AllowedTimesStep(h, e, k);
      if k != key {
        assert Hits(s', k) == Hits(s1, k);
        assert Sorted(AllowedTimes(h, k), now) && KeptSuffix(Hits(s1, k), AllowedTimes(h, k), now);
      }
    }
  }

  ghost function Clock(attempts: seq<Attempt>): int {
    if attempts == [] then 0 else attempts[|attempts| - 1].at
  }

  lemma {:induction false} RunTracks(limit: int, attempts: seq<Attempt>)
    requires limit > 0 && Monotone(attempts)
    ensures var (s, h) := Run(Init(limit), attempts);
      && |h| == |attempts| && s.limit == limit
      && Past(h, Clock(attempts))
      && (attempts == [] ==> s == Init(limit))
      && (attempts != [] ==> Tracks(s, h, Clock(attempts)))
    decreases |attempts|
  {
    if attempts != [] {
      var n := |attempts| - 1;
      RunTracks(limit, attempts[..n]);
      var (s1, h1) := Run(Init(limit), attempts[..n]);
      var now := attempts[n].at;
      if n == 0 {
        assert Tracks(s1, h1, now);
        AllowTracks(s1, h1, now, attempts[n].key, now);
      } else {
        AllowTracks(s1, h1, Clock(attempts[..n]), attempts[n].key, now);
      }
    }
  }

  /** Before an attempt at `now` the state stands for the history so far. */
  lemma BeforeAttempt(limit: int, attempts: seq<Attempt>, now: int) returns (clock: int)
    requires limit > 0 && Monotone(attempts) && forall i :: 0 <= i < |attempts| ==> attempts[i].at <= now
    ensures var (s, h) := Run(Init(limit), attempts);
      s.limit == limit && Tracks(s, h, clock) && Past(h, clock) && clock <= now
  {
    hide Allow;
    RunTracks(limit, attempts);
    clock := if attempts == [] then now else Clock(attempts);
  }

  /** What the full history says of an attempt. */
  ghost predicate Verdict(limit: int, h: seq<Event>, a: Attempt) {
    limit <= 0 || AllowedIn(h, a.key, a.at - WINDOW, a.at) < limit
  }

  /** The newest attempt of a run, against everything before it. */
  lemma NewestFollowsHistory(limit: int, attempts: seq<Attempt>, n: nat)
    requires Monotone(attempts) && n == |attempts| - 1
    ensures Run(Init(limit), attempts).1 == Run(Init(limit), attempts[..n]).1
      + [Event(attempts[n].key, attempts[n].at, Verdict(limit, Run(Init(limit), attempts[..n]).1, attempts[n]))]
  {
    if limit <= 0 {
      RunLength(limit, attempts[..n]);
    } else {
      Limited(limit, attempts, n);
    }
  }

  lemma Limited(limit: int, attempts: seq<Attempt>, n: nat)
    requires Monotone(attempts) && n == |attempts| - 1 && limit > 0
    ensures Run(Init(limit), attempts).1 == Run(Init(limit), attempts[..n]).1
      + [Event(attempts[n].key, attempts[n].at, Verdict(limit, Run(Init(limit), attempts[..n]).1, attempts[n]))]
  {
    hide Tracks;
    hide Past;
    hide AllowedIn;
    var a := attempts[n];
    var (s1, h1) := Run(Init(limit), attempts[..n]);
    var clock := BeforeAttempt(limit, attempts[..n], a.at);
    AllowTracks(s1, h1, clock, a.key, a.at);
  }

  /** Every attempt is allowed exactly when fewer than `limit` earlier allowed ones of its key lie in the
      last minute of the full history; a limit of zero or less allows everything. */
  lemma {:induction false} AnswersFollowHistory(limit: int, attempts: seq<Attempt>, i: nat)
    requires Monotone(attempts) && i < |attempts|
    ensures var h := Run(Init(limit), attempts).1;
      && |h| == |attempts|
      && h[i] == Event(attempts[i].key, attempts[i].at,
                       limit <= 0 || AllowedIn(h[..i], attempts[i].key, attempts[i].at - 60_000_000_000, attempts[i].at) < limit)
    decreases |attempts|
  {
    hide Run;
    var n := |attempts| - 1;
    RunLength(limit, attempts[..n]);
    NewestFollowsHistory(limit, attempts, n);
    var h, h1 := Run(Init(limit), attempts).1, Run(Init(limit), attempts[..n]).1;
    if i < n {
      AnswersFollowHistory(limit, attempts[..n], i);
      assert h[..i] == h1[..i];
    } else {
      assert h[..n] == h1;
    }
  }

  lemma {:induction false} RunLength(limit: int, attempts: seq<Attempt>)
    ensures |Run(Init(limit), attempts).1| == |attempts|
    ensures Run(Init(limit), attempts).0.limit == limit
    decreases |attempts|
  {
    if attempts != [] { RunLength(limit, attempts[..|attempts| - 1]); }
  }

  /** The sweep does forget: at the first attempt and then at most every five minutes, exactly the keys with no time within the
      last minute leave the map, and no other key changes. */
  lemma SweepForgets(s: State, now: int, key: Key)
    ensures var s' := Sweep(s, now); var due := s.lastSweep == 0 || now - s.lastSweep >= 300_000_000_000;
      && (key in s'.hits <==> key in s.hits && !(due && (s.hits[key] == [] || s.hits[key][|s.hits[key]| - 1] <= now - 60_000_000_000)))
      && (key in s'.hits ==> s'.hits[key] == s.hits[key])
  {}

  // ---------------------------------------------------------------- the bound

  lemma {:induction false} CountMonotone(h: seq<Event>, key: Key, from: int, to: int, from': int, to': int)
    requires forall i :: 0 <= i < |h| && from < h[i].at <= to ==> from' < h[i].at <= to'
    ensures AllowedIn(h, key, from, to) <= AllowedIn(h, key, from', to')
  {
    if h != [] { CountMonotone(h[..|h| - 1], key, from, to, from', to'); }
  }

  lemma {:induction false} PrefixBound(limit: int, attempts: seq<Attempt>, key: Key, from: int, n: nat)
    requires limit > 0 && Monotone(attempts) && n <= |attempts|
    ensures |Run(Init(limit), attempts).1| == |attempts|
    ensures AllowedIn(Run(Init(limit), attempts).1[..n], key, from, from + WINDOW) <= limit
    decreases n
  {
    RunLength(limit, attempts);
    var h := Run(Init(limit), attempts).1;
    if n > 0 {
      PrefixBound(limit, attempts, key, from, n - 1);
      AnswersFollowHistory(limit, attempts, n - 1);
      var e := h[n - 1];
      assert h[..n][..n - 1] == h[..n - 1];
      if e.allowed && e.key == key && from < e.at <= from + WINDOW {
        forall j | 0 <= j < n - 1
          ensures h[j].at <= e.at
        {
          AnswersFollowHistory(limit, attempts, j);
        }
        CountMonotone(h[..n - 1], key, from, from + WINDOW, e.at - WINDOW, e.at);
      }
    }
  }

  /** No window of one minute, anywhere in any run, holds more than `limit` allowed attempts of one key. */
  lemma WindowBound(limit: int, attempts: seq<Attempt>, key: Key, from: int)
    requires limit > 0 && Monotone(attempts)
    ensures AllowedIn(Run(Init(limit), attempts).1, key, from, from + 60_000_000_000) <= limit
  {
    PrefixBound(limit, attempts, key, from, |attempts|);
    var h := Run(Init(limit), attempts).1;
    assert h[..|attempts|] == h;
  }
}
