/** The request limiter of internal/api/gatelimiter.go as a pure state machine.

    A principal is reached through a pointer, both from the table and from the release closures,
    so the model keeps the pointed-to records in `cells` and lets the table and the closures hold
    indices into it: a record the sweep drops from the table stays reachable from a closure. */
module GateLimiter {
  import opened GateBucket

  const SWEEP_EVERY: real := 60.0
  const IDLE: real := 60.0

  datatype Limits = Limits(inflightProcess: int, inflightPrincipal: int, ratePrincipal: nat, rateProcess: nat)

  /** The ranges the configuration loader enforces (internal/config/config.go:767-770). */
  predicate ValidLimits(l: Limits) {
    1 <= l.inflightProcess && 1 <= l.inflightPrincipal && 1 <= l.ratePrincipal && 1 <= l.rateProcess
  }

  datatype Principal = Principal(inflight: int, bucket: Bucket, lastSeen: real)

  /** A release closure: the principal it points at and whether its `once` has fired. */
  datatype Handle = Handle(key: string, cell: nat, done: bool)

  datatype State = State(
    limits: Limits,
    processInflight: int,
    process: Bucket,
    table: map<string, nat>,
    cells: seq<Principal>,
    handles: seq<Handle>,
    lastSweep: real)

  datatype Reason = ProcessInflight | PrincipalInflight | PrincipalRate | ProcessRate

  datatype Answer = Admitted(handle: nat) | Refused(reason: Reason, retryAfter: int) | Released

  datatype Op = Acquire(key: string, rate: bool, at: real) | Release(handle: nat, at: real)

  // ---------------------------------------------------------------- the code

  function Init(limits: Limits, now: real): State {
    State(limits, 0, NewBucket(limits.rateProcess, now), map[], [], [], now)
  }

  ghost predicate Pointers(s: State) {
    && (forall k <- s.table :: s.table[k] < |s.cells|)
    && (forall h <- s.handles :: h.cell < |s.cells|)
    && 1 <= s.limits.ratePrincipal
    && s.process.perMinute > 0.0
    && (forall p <- s.cells :: p.bucket.perMinute > 0.0)
  }

  predicate Idle(p: Principal, now: real) {
    p.inflight == 0 && now - p.lastSeen >= IDLE
  }

  function Sweep(s: State, now: real): (s': State)
    requires Pointers(s)
    ensures Pointers(s')
  {
    if now - s.lastSweep < SWEEP_EVERY then s else
    s.(lastSweep := now, table := map k | k in s.table && !Idle(s.cells[s.table[k]], now) :: s.table[k])
  }

  function Locate(s: State, key: string, now: real): (s': State)
    requires Pointers(s)
    ensures Pointers(s') && key in s'.table
  {
    if key in s.table then
      var c := s.table[key];
      s.(cells := s.cells[c := s.cells[c].(lastSeen := now)])
    else
      s.(table := s.table[key := |s.cells|],
         cells := s.cells + [Principal(0, NewBucket(s.limits.ratePrincipal, now), now)])
  }

  function Max(a: int, b: int): int { if a >= b then a else b }

  /** The refusal for two freshly refilled buckets, when one of them is short of a token. */
  function RateRefusal(principal: Bucket, process: Bucket): Answer
    requires principal.perMinute > 0.0 && process.perMinute > 0.0
  {
    if principal.tokens < 1.0 then
      Refused(PrincipalRate,
        if process.tokens < 1.0 then Max(RetryAfter(principal), RetryAfter(process)) else RetryAfter(principal))
    else
      Refused(ProcessRate, Max(0, RetryAfter(process)))
  }

  function DoAcquire(s: State, key: string, rate: bool, now: real, sweeping: bool): (r: (State, Answer))
    requires Pointers(s)
    ensures Pointers(r.0)
  {
    var s1 := if sweeping then Sweep(s, now) else s;
    if s1.processInflight >= s1.limits.inflightProcess then (s1, Refused(ProcessInflight, 1)) else
    var s2 := Locate(s1, key, now);
    var c := s2.table[key];
    var p := s2.cells[c];
    if p.inflight >= s2.limits.inflightPrincipal then (s2, Refused(PrincipalInflight, 1)) else
    if !rate then (Grant(s2, key, c), Admitted(|s2.handles|)) else
    var pb, gb := Refill(p.bucket, now), Refill(s2.process, now);
    if pb.tokens < 1.0 || gb.tokens < 1.0 then
      (Spent(s2, key, now, 0.0), RateRefusal(pb, gb))
    else
      (Grant(Spent(s2, key, now, 1.0), key, c), Admitted(|s2.handles|))
  }

  function Grant(s: State, key: string, c: nat): (s': State)
    requires Pointers(s) && c < |s.cells|
    ensures Pointers(s')
  {
    s.(processInflight := s.processInflight + 1,
       cells := s.cells[c := s.cells[c].(inflight := s.cells[c].inflight + 1)],
       handles := s.handles + [Handle(key, c, false)])
  }

  /** Calling a release closure. A caller can only hold closures it was given; any other handle is a no-op. */
  function DoRelease(s: State, h: nat, now: real): (s': State)
    requires Pointers(s)
    ensures Pointers(s')
  {
    if h >= |s.handles| || s.handles[h].done then s else
    var c := s.handles[h].cell;
    var p := s.cells[c];
    s.(processInflight := s.processInflight - 1,
       cells := s.cells[c := p.(inflight := if p.inflight > 0 then p.inflight - 1 else p.inflight, lastSeen := now)],
       handles := s.handles[h := s.handles[h].(done := true)])
  }

  function Step(s: State, op: Op, sweeping: bool): (r: (State, Answer))
    requires Pointers(s)
    ensures Pointers(r.0)
  {
    match op
    case Acquire(key, rate, at) => DoAcquire(s, key, rate, at, sweeping)
    case Release(h, at) => (DoRelease(s, h, at), Released)
  }

  // ---------------------------------------------------------------- what every step keeps

  /** Closures handed out to `key` and not yet called. */
  ghost function Outstanding(hs: seq<Handle>, key: string): nat {
    if hs == [] then 0 else
    (if hs[|hs| - 1].key == key && !hs[|hs| - 1].done then 1 else 0) + Outstanding(hs[..|hs| - 1], key)
  }

  ghost function OutstandingAll(hs: seq<Handle>): nat {
    if hs == [] then 0 else
    (if !hs[|hs| - 1].done then 1 else 0) + OutstandingAll(hs[..|hs| - 1])
  }

  lemma {:induction false} MarkDone(hs: seq<Handle>, h: nat, key: string)
    requires h < |hs| && !hs[h].done
    ensures var hs' := hs[h := hs[h].(done := true)];
      && OutstandingAll(hs') == OutstandingAll(hs) - 1
      && Outstanding(hs', key) == Outstanding(hs, key) - (if hs[h].key == key then 1 else 0)
  {
    var hs' := hs[h := hs[h].(done := true)];
    if h == |hs| - 1 {
      assert hs'[..|hs| - 1] == hs[..|hs| - 1];
    } else {
      MarkDone(hs[..|hs| - 1], h, key);
      assert hs'[..|hs| - 1] == hs[..|hs| - 1][h := hs[h].(done := true)];
    }
  }

  lemma {:induction false} OutstandingOpen(hs: seq<Handle>, h: nat)
    requires h < |hs| && !hs[h].done
    ensures Outstanding(hs, hs[h].key) >= 1
  {
    if h < |hs| - 1 { OutstandingOpen(hs[..|hs| - 1], h); }
  }

  lemma {:induction false} OutstandingNone(hs: seq<Handle>, key: string)
    requires forall h <- hs :: h.key == key ==> h.done
    ensures Outstanding(hs, key) == 0
  {
    if hs != [] { OutstandingNone(hs[..|hs| - 1], key); }
  }

  lemma {:induction false} OutstandingBelowAll(hs: seq<Handle>, key: string)
    ensures Outstanding(hs, key) <= OutstandingAll(hs)
  {
    if hs != [] { OutstandingBelowAll(hs[..|hs| - 1], key); }
  }

  ghost predicate ValidPrincipal(s: State, key: string, p: Principal, clock: real) {
    && p.inflight == Outstanding(s.handles, key)
    && p.inflight <= s.limits.inflightPrincipal
    && ValidBucket(p.bucket, s.limits.ratePrincipal, p.lastSeen)
    && p.lastSeen <= clock
  }

  /** No two table entries share a record, and an uncalled closure points where the table points. */
  ghost predicate Separate(s: State)
    requires Pointers(s)
  {
    && (forall j <- s.table, k <- s.table :: s.table[j] == s.table[k] ==> j == k)
    && (forall h <- s.handles :: !h.done ==> h.key in s.table && s.table[h.key] == h.cell)
  }

  /** The limiter's invariant at a clock reading no acquire or release has passed. */
  ghost predicate Valid(s: State, clock: real) {
    && ValidLimits(s.limits)
    && Pointers(s)
    && Separate(s)
    && (forall k <- s.table :: ValidPrincipal(s, k, s.cells[s.table[k]], clock))
    && ValidBucket(s.process, s.limits.rateProcess, clock)
    && s.processInflight == OutstandingAll(s.handles) <= s.limits.inflightProcess
  }

  /** What `key` could spend at `t`. A principal the table does not hold has a full bucket. */
  ghost function PrincipalLevel(s: State, key: string, t: real): real {
    if key in s.table && s.table[key] < |s.cells| then Level(s.cells[s.table[key]].bucket, t) else s.limits.ratePrincipal as real
  }

  ghost function ProcessLevel(s: State, t: real): real {
    Level(s.process, t)
  }

  /** The decision an eagerly refilled limiter that never forgets anybody would take. */
  function Decide(l: Limits, inflight: int, principalInflight: int, principalLevel: real, processLevel: real,
                  rate: bool, handle: nat): Answer
    requires ValidLimits(l)
  {
    if inflight >= l.inflightProcess then Refused(ProcessInflight, 1) else
    if principalInflight >= l.inflightPrincipal then Refused(PrincipalInflight, 1) else
    var header := LastToRefill(Bucket(principalLevel, l.ratePrincipal as real, 0.0), Bucket(processLevel, l.rateProcess as real, 0.0));
    if rate && principalLevel < 1.0 then Refused(PrincipalRate, header) else
    if rate && processLevel < 1.0 then Refused(ProcessRate, header) else Admitted(handle)
  }

  /** Seconds until the last of two buckets has a token, a bucket that has one counting for none. */
  function LastToRefill(principal: Bucket, process: Bucket): int
    requires principal.perMinute > 0.0 && process.perMinute > 0.0
  {
    var p := if principal.tokens < 1.0 then RetryAfter(principal) else 0;
    var g := if process.tokens < 1.0 then RetryAfter(process) else 0;
    if p < g then g else p
  }

  /** Tokens the answer takes from the bucket of `key` and from the process bucket. */
  function Debit(rate: bool, a: Answer): real {
    if rate && a.Admitted? then 1.0 else 0.0
  }

  lemma InitValid(limits: Limits, now: real)
    requires ValidLimits(limits)
    ensures Valid(Init(limits, now), now)
  {}

  lemma SweepKeeps(s: State, clock: real, now: real)
    requires Valid(s, clock) && clock <= now
    ensures Valid(Sweep(s, now), now)
    ensures Sweep(s, now).handles == s.handles && Sweep(s, now).process == s.process
    ensures forall k :: PrincipalLevel(Sweep(s, now), k, now) == PrincipalLevel(s, k, now)
  {
    var s' := Sweep(s, now);
    forall h | h in s.handles && !h.done
      ensures h.key in s'.table
    {
      var i :| 0 <= i < |s.handles| && s.handles[i] == h;
      OutstandingOpen(s.handles, i);
    }
    forall k
      ensures PrincipalLevel(s', k, now) == PrincipalLevel(s, k, now)
    {
      if k in s.table && k !in s'.table {
        var p := s.cells[s.table[k]];
        IdleMinuteFills(p.bucket, s.limits.ratePrincipal, p.lastSeen, now);
      }
    }
  }

  /** The sweep does forget: a minute after the last one, exactly the principals with no permit out that have not been seen for
      a minute leave the table. */
  lemma SweepForgets(s: State, now: real, key: string)
    requires Pointers(s)
    ensures now - s.lastSweep < 60.0 ==> Sweep(s, now) == s
    ensures var s' := Sweep(s, now); now - s.lastSweep >= 60.0 ==>
      && s'.lastSweep == now
      && (key in s'.table <==> key in s.table && !(s.cells[s.table[key]].inflight == 0 && now - s.cells[s.table[key]].lastSeen >= 60.0))
  {}

  /** A principal counts as seen when it is looked up and when it gives a permit back. */
  lemma SeenNow(s: State, key: string, h: nat, now: real)
    requires Pointers(s)
    ensures var s' := Locate(s, key, now); s'.cells[s'.table[key]].lastSeen == now
    ensures h < |s.handles| && !s.handles[h].done ==> DoRelease(s, h, now).cells[s.handles[h].cell].lastSeen == now
  {}

  /** Rewriting the record of `key`, pointed to by nobody else, touches nothing else. */
  lemma ReplaceKeeps(s: State, clock: real, now: real, key: string, p: Principal)
    requires Valid(s, clock) && clock <= now && key in s.table && ValidPrincipal(s, key, p, now)
    ensures var s' := s.(cells := s.cells[s.table[key] := p]);
      && Valid(s', now)
      && (forall k, t :: PrincipalLevel(s', k, t) == if k == key then Level(p.bucket, t) else PrincipalLevel(s, k, t))
  {
    hide Level;
    var s' := s.(cells := s.cells[s.table[key] := p]);
    forall q | q in s'.cells
      ensures q.bucket.perMinute > 0.0
    {
      assert q == p || q in s.cells;
    }
  }

  lemma CreateKeeps(s: State, clock: real, key: string, now: real)
    requires Valid(s, clock) && clock <= now && key !in s.table
    ensures Valid(Locate(s, key, now), now)
    ensures forall k :: PrincipalLevel(Locate(s, key, now), k, now) == PrincipalLevel(s, k, now)
  {
    hide Level;
    hide NewBucket;
    hide OutstandingAll;
    NewBucketFull(s.limits.ratePrincipal, now);
    var s' := Locate(s, key, now);
    OutstandingNone(s.handles, key);
    var created := Principal(0, NewBucket(s.limits.ratePrincipal, now), now);
    assert s'.cells == s.cells + [created];
    assert forall k <- s.table :: s'.table[k] == s.table[k] && s'.cells[s'.table[k]] == s.cells[s.table[k]];
  }

  lemma LocateKeeps(s: State, clock: real, key: string, now: real)
    requires Valid(s, clock) && clock <= now
    ensures Valid(Locate(s, key, now), now)
    ensures Locate(s, key, now).handles == s.handles && Locate(s, key, now).process == s.process
    ensures forall k :: PrincipalLevel(Locate(s, key, now), k, now) == PrincipalLevel(s, k, now)
    ensures var s' := Locate(s, key, now);
      s'.cells[s'.table[key]].inflight == Outstanding(s.handles, key) && s'.cells[s'.table[key]].lastSeen == now
  {
    hide Level;
    if key in s.table {
      var p := s.cells[s.table[key]];
      ReplaceKeeps(s, clock, now, key, p.(lastSeen := now));
    } else {
      CreateKeeps(s, clock, key, now);
    }
  }

  lemma GrantKeeps(s: State, now: real, key: string)
    requires Valid(s, now) && key in s.table
    requires s.processInflight < s.limits.inflightProcess
    requires s.cells[s.table[key]].inflight < s.limits.inflightPrincipal
    ensures var s' := Grant(s, key, s.table[key]);
      && Valid(s', now) && s'.process == s.process
      && (forall k :: PrincipalLevel(s', k, now) == PrincipalLevel(s, k, now))
  {
    hide Level;
    var s' := Grant(s, key, s.table[key]);
    assert s'.handles[..|s.handles|] == s.handles;
    forall k | k in s'.table
      ensures ValidPrincipal(s', k, s'.cells[s'.table[k]], now)
    {}
  }

  function Debited(b: Bucket, now: real, d: real): Bucket
    requires b.perMinute > 0.0
  {
    var r := Refill(b, now);
    r.(tokens := r.tokens - d)
  }

  /** The bucket of `key` refilled at `now` and then debited by `d`. */
  function SpentPrincipal(s: State, key: string, now: real, d: real): State
    requires Pointers(s) && key in s.table
  {
    var c := s.table[key];
    s.(cells := s.cells[c := s.cells[c].(bucket := Debited(s.cells[c].bucket, now, d))])
  }

  /** Both buckets refilled at `now` and then debited by `d`. */
  function Spent(s: State, key: string, now: real, d: real): State
    requires Pointers(s) && key in s.table
  {
    SpentPrincipal(s, key, now, d).(process := Debited(s.process, now, d))
  }

  lemma SetProcessKeeps(s: State, now: real, b: Bucket)
    requires Valid(s, now) && ValidBucket(b, s.limits.rateProcess, now)
    ensures Valid(s.(process := b), now)
    ensures forall k, t :: PrincipalLevel(s.(process := b), k, t) == PrincipalLevel(s, k, t)
  {
    hide Level;
    hide Outstanding;
    hide OutstandingAll;
  }

  lemma SpendPrincipalKeeps(s: State, now: real, key: string, d: real)
    requires Valid(s, now) && key in s.table && s.cells[s.table[key]].lastSeen == now
    requires 0.0 <= d <= PrincipalLevel(s, key, now)
    ensures var s' := SpentPrincipal(s, key, now, d);
      && Valid(s', now)
      && (forall k :: PrincipalLevel(s', k, now) == PrincipalLevel(s, k, now) - (if k == key then d else 0.0))
  {
    hide Level;
    hide Refill;
    hide Outstanding;
    hide OutstandingAll;
    hide Separate;
    var c := s.table[key];
    assert ValidPrincipal(s, key, s.cells[c], now);
    SpendFromRefilled(s.cells[c].bucket, s.limits.ratePrincipal, now, d);
    ReplaceKeeps(s, now, now, key, s.cells[c].(bucket := Debited(s.cells[c].bucket, now, d)));
  }

  /** Spending keeps everything but those two levels. */
  lemma SpendKeeps(s: State, now: real, key: string, d: real)
    requires Valid(s, now) && key in s.table && s.cells[s.table[key]].lastSeen == now
    requires 0.0 <= d <= PrincipalLevel(s, key, now) && d <= ProcessLevel(s, now)
    ensures var s' := Spent(s, key, now, d);
      && Valid(s', now)
      && ProcessLevel(s', now) == ProcessLevel(s, now) - d
      && (forall k :: PrincipalLevel(s', k, now) == PrincipalLevel(s, k, now) - (if k == key then d else 0.0))
  {
    hide Level;
    hide Refill;
    hide OutstandingAll;
    hide Separate;
    hide ValidPrincipal;
    hide PrincipalLevel;
    SpendPrincipalKeeps(s, now, key, d);
    SpendFromRefilled(s.process, s.limits.rateProcess, now, d);
    SetProcessKeeps(SpentPrincipal(s, key, now, d), now, Debited(s.process, now, d));
  }
}
