/** Bounds the request limiter keeps over every run: permits, rates, and the Retry-After header. */
module GateBounds {
  import opened GateBucket
  import opened GateLimiter
  import opened GateRuns

  // ---------------------------------------------------------------- permits

  /** The permits of the listed principals, added up. */
  ghost function SumInflight(s: State, keys: seq<string>): int
    requires Pointers(s) && forall k <- keys :: k in s.table
  {
    if keys == [] then 0 else s.cells[s.table[keys[0]]].inflight + SumInflight(s, keys[1..])
  }

  ghost function SumOutstanding(hs: seq<Handle>, keys: seq<string>): nat {
    if keys == [] then 0 else Outstanding(hs, keys[0]) + SumOutstanding(hs, keys[1..])
  }

  ghost predicate Distinct(keys: seq<string>) {
    forall i, j :: 0 <= i < j < |keys| ==> keys[i] != keys[j]
  }

  lemma {:induction false} SumsAgree(s: State, clock: real, keys: seq<string>)
    requires Valid(s, clock) && forall k <- keys :: k in s.table
    ensures SumInflight(s, keys) == SumOutstanding(s.handles, keys)
  {
    if keys != [] { SumsAgree(s, clock, keys[1..]); }
  }

  lemma {:induction false} SumEmpty(hs: seq<Handle>, keys: seq<string>)
    requires hs == []
    ensures SumOutstanding(hs, keys) == 0
  {
    if keys != [] { SumEmpty(hs, keys[1..]); }
  }

  lemma {:induction false} SumLast(hs: seq<Handle>, keys: seq<string>)
    requires hs != [] && Distinct(keys)
    ensures var last := hs[|hs| - 1];
      SumOutstanding(hs, keys) == SumOutstanding(hs[..|hs| - 1], keys) + (if last.key in keys && !last.done then 1 else 0)
  {
    if keys != [] { SumLast(hs, keys[1..]); }
  }

  lemma {:induction false} SumIsAll(hs: seq<Handle>, keys: seq<string>)
    requires Distinct(keys) && forall h <- hs :: !h.done ==> h.key in keys
    ensures SumOutstanding(hs, keys) == OutstandingAll(hs)
  {
    if hs == [] {
      SumEmpty(hs, keys);
    } else {
      SumIsAll(hs[..|hs| - 1], keys);
      SumLast(hs, keys);
    }
  }

  lemma {:induction false} RunKeeps(s: State, clock: real, ops: seq<Op>, sweeping: bool)
    requires Valid(s, clock) && Monotone(ops, clock)
    ensures Valid(Run(s, ops, sweeping).0, if ops == [] then clock else ops[|ops| - 1].at)
    decreases |ops|
  {
    hide Step;
    if ops != [] {
      StepKeeps(s, clock, ops[0], sweeping);
      RunKeeps(Step(s, ops[0], sweeping).0, ops[0].at, ops[1..], sweeping);
    }
  }

  /** After every run: permits held = permits of the principals in the table = closures not yet called,
      within both caps; every bucket between empty and full; an uncalled closure still points into the table. */
  lemma PermitsConserved(limits: Limits, start: real, ops: seq<Op>, sweeping: bool, keys: seq<string>)
    requires ValidLimits(limits) && Monotone(ops, start)
    requires Distinct(keys) && (set k <- keys) == Run(Init(limits, start), ops, sweeping).0.table.Keys
    ensures var s := Run(Init(limits, start), ops, sweeping).0;
      && s.processInflight == OutstandingAll(s.handles) == SumInflight(s, keys)
      && s.processInflight <= s.limits.inflightProcess
      && 0.0 <= s.process.tokens <= s.limits.rateProcess as real
      && (forall k <- s.table ::
            && s.cells[s.table[k]].inflight == Outstanding(s.handles, k) <= s.limits.inflightPrincipal
            && 0.0 <= s.cells[s.table[k]].bucket.tokens <= s.limits.ratePrincipal as real)
      && (forall h <- s.handles :: !h.done ==> h.key in s.table && s.table[h.key] == h.cell)
  {
    InitValid(limits, start);
    RunKeeps(Init(limits, start), start, ops, sweeping);
    var s := Run(Init(limits, start), ops, sweeping).0;
    assert forall k <- keys :: k in s.table;
    assert forall k <- s.table :: k in keys;
    SumsAgree(s, if ops == [] then start else ops[|ops| - 1].at, keys);
    SumIsAll(s.handles, keys);
  }

  // ---------------------------------------------------------------- rates

  /** Whose admissions are counted: one principal's or everybody's. */
  datatype Who = Anyone | Only(key: string)

  ghost function Cap(l: Limits, who: Who): nat {
    match who case Anyone => l.rateProcess case Only(_) => l.ratePrincipal
  }

  ghost function LevelOf(s: State, who: Who, t: real): real {
    match who case Anyone => ProcessLevel(s, t) case Only(k) => PrincipalLevel(s, k, t)
  }

  predicate Counts(op: Op, a: Answer, who: Who, from: real, to: real) {
    op.Acquire? && op.rate && a.Admitted? && from <= op.at <= to && (who.Anyone? || op.key == who.key)
  }

  /** Rate-checked acquires admitted in `[from, to]` over the run. */
  ghost function RateAdmitted(s: State, ops: seq<Op>, sweeping: bool, who: Who, from: real, to: real): nat
    requires Pointers(s)
    decreases |ops|
  {
    if ops == [] then 0 else
    var (s', a) := Step(s, ops[0], sweeping);
    (if Counts(ops[0], a, who, from, to) then 1 else 0) + RateAdmitted(s', ops[1..], sweeping, who, from, to)
  }

  lemma LevelOfGrows(s: State, who: Who, clock: real, now: real)
    requires Valid(s, clock) && clock <= now
    ensures LevelOf(s, who, now) == Grown(Cap(s.limits, who), LevelOf(s, who, clock), now - clock)
    ensures 0.0 <= LevelOf(s, who, clock) <= Cap(s.limits, who) as real
  {
    match who
    case Anyone =>
      ProcessLevelGrows(s, clock, now);
      LevelBounds(s.process, s.limits.rateProcess, clock, clock);
    case Only(k) =>
      PrincipalLevelGrows(s, k, clock, now);
      if k in s.table {
        var p := s.cells[s.table[k]];
        LevelBounds(p.bucket, s.limits.ratePrincipal, clock, clock);
      }
  }

  /** Tokens earned in `dt` seconds at `cap` per minute. */
  ghost function Earned(cap: nat, dt: real): real {
    dt * (cap as real / 60.0)
  }

  lemma EarnedAdds(cap: nat, dt: real, du: real)
    requires 0.0 <= dt && 0.0 <= du
    ensures Earned(cap, dt + du) == Earned(cap, dt) + Earned(cap, du)
    ensures 0.0 <= Earned(cap, dt) && 0.0 <= Earned(cap, du)
  {}

  /** A step pays for an admission it counts out of the level, which only time replenishes. */
  lemma StepSpends(s: State, clock: real, op: Op, sweeping: bool, who: Who, from: real, to: real)
    requires Valid(s, clock) && clock <= op.at
    ensures var (s', a) := Step(s, op, sweeping);
      && Valid(s', op.at) && s'.limits == s.limits
      && LevelOf(s', who, op.at) + (if Counts(op, a, who, from, to) then 1.0 else 0.0)
           <= LevelOf(s, who, clock) + Earned(Cap(s.limits, who), op.at - clock)
  {
    hide Level;
    hide Step;
    hide Valid;
    hide LevelOf;
    hide Earned;
    hide Grown;
    hide Counts;
    LevelOfGrows(s, who, clock, op.at);
    GrownWithinEarned(Cap(s.limits, who), LevelOf(s, who, clock), op.at - clock);
    StepSpendsNow(s, clock, op, sweeping, who, from, to);
  }

  lemma GrownWithinEarned(cap: nat, level: real, dt: real)
    requires 0.0 <= dt
    ensures Grown(cap, level, dt) <= level + Earned(cap, dt)
  {}

  lemma StepSpendsNow(s: State, clock: real, op: Op, sweeping: bool, who: Who, from: real, to: real)
    requires Valid(s, clock) && clock <= op.at
    ensures var (s', a) := Step(s, op, sweeping);
      && Valid(s', op.at) && s'.limits == s.limits
      && LevelOf(s', who, op.at) + (if Counts(op, a, who, from, to) then 1.0 else 0.0) <= LevelOf(s, who, op.at)
  {
    hide Level;
    hide DoAcquire;
    hide DoRelease;
    match op
    case Acquire(key, rate, at) => AcquireRefines(s, clock, key, rate, at, sweeping);
    case Release(h, at) => ReleaseKeeps(s, clock, h, at);
  }

  lemma {:induction false} NothingAfter(s: State, clock: real, ops: seq<Op>, sweeping: bool, who: Who, from: real, to: real)
    requires Valid(s, clock) && Monotone(ops, clock) && to < clock
    ensures RateAdmitted(s, ops, sweeping, who, from, to) == 0
    decreases |ops|
  {
    if ops != [] {
      StepKeeps(s, clock, ops[0], sweeping);
      NothingAfter(Step(s, ops[0], sweeping).0, ops[0].at, ops[1..], sweeping, who, from, to);
    }
  }

  lemma {:induction false} AdmittedWithinLevel(s: State, clock: real, ops: seq<Op>, sweeping: bool, who: Who, from: real, to: real)
    requires Valid(s, clock) && Monotone(ops, clock) && clock <= to
    ensures RateAdmitted(s, ops, sweeping, who, from, to) as real
              <= LevelOf(s, who, clock) + Earned(Cap(s.limits, who), to - clock)
    decreases |ops|
  {
    hide Level;
    hide Earned;
    hide Step;
    hide PrincipalLevel;
    if ops == [] || to < ops[0].at {
      NoneLeft(s, clock, ops, sweeping, who, from, to);
    } else {
      var at, cap := ops[0].at, Cap(s.limits, who);
      var s' := Step(s, ops[0], sweeping).0;
      StepSpends(s, clock, ops[0], sweeping, who, from, to);
      AdmittedWithinLevel(s', at, ops[1..], sweeping, who, from, to);
      EarnedAdds(cap, at - clock, to - at);
      assert (at - clock) + (to - at) == to - clock;
    }
  }

  lemma NoneLeft(s: State, clock: real, ops: seq<Op>, sweeping: bool, who: Who, from: real, to: real)
    requires Valid(s, clock) && Monotone(ops, clock) && clock <= to && (ops == [] || to < ops[0].at)
    ensures RateAdmitted(s, ops, sweeping, who, from, to) as real
              <= LevelOf(s, who, clock) + Earned(Cap(s.limits, who), to - clock)
  {
    LevelOfGrows(s, who, clock, clock);
    EarnedAdds(Cap(s.limits, who), to - clock, 0.0);
    if ops != [] {
      ValidLater(s, clock, ops[0].at);
      NothingAfter(s, ops[0].at, ops, sweeping, who, from, to);
    }
    hide *;
  }

  lemma {:induction false} AdmittedInInterval(s: State, clock: real, ops: seq<Op>, sweeping: bool, who: Who, from: real, to: real)
    requires Valid(s, clock) && Monotone(ops, clock) && from <= to
    ensures RateAdmitted(s, ops, sweeping, who, from, to) as real
              <= Cap(s.limits, who) as real + Earned(Cap(s.limits, who), to - from)
    decreases |ops|
  {
    EarnedAdds(Cap(s.limits, who), to - from, 0.0);
    hide Level;
    hide Step;
    if ops != [] {
      var at := ops[0].at;
      if at < from {
        StepSpends(s, clock, ops[0], sweeping, who, from, to);
        AdmittedInInterval(Step(s, ops[0], sweeping).0, at, ops[1..], sweeping, who, from, to);
      } else {
        ValidLater(s, clock, at);
        if at <= to {
          AdmittedWithinLevel(s, at, ops, sweeping, who, from, to);
          LevelOfGrows(s, who, at, at);
          EarnedAdds(Cap(s.limits, who), at - from, to - at);
        } else {
          NothingAfter(s, at, ops, sweeping, who, from, to);
        }
      }
    }
  }

  /** In any interval, of any run, a principal (forgotten and re-created or not) and the process are
      admitted at most one full bucket plus what the interval earned. */
  lemma RateBound(limits: Limits, start: real, ops: seq<Op>, sweeping: bool, who: Who, from: real, to: real)
    requires ValidLimits(limits) && Monotone(ops, start) && from <= to
    ensures RateAdmitted(Init(limits, start), ops, sweeping, who, from, to) as real
              <= Cap(limits, who) as real + Earned(Cap(limits, who), to - from)
  {
    InitValid(limits, start);
    AdmittedInInterval(Init(limits, start), start, ops, sweeping, who, from, to);
  }

  // ---------------------------------------------------------------- Retry-After

  /** The header of a rate refusal covers both buckets, and no smaller whole number of seconds would. */
  lemma HeaderTight(s: State, clock: real, key: string, now: real, sweeping: bool)
    requires Valid(s, clock) && clock <= now
    requires var a := DoAcquire(s, key, true, now, sweeping).1;
      a.Refused? && (a.reason == PrincipalRate || a.reason == ProcessRate)
    ensures var (s', a) := DoAcquire(s, key, true, now, sweeping);
      && 1 <= a.retryAfter
      && PrincipalLevel(s', key, now + a.retryAfter as real) >= 1.0 - TOLERANCE * (s.limits.ratePrincipal as real / 60.0)
      && ProcessLevel(s', now + a.retryAfter as real) >= 1.0 - TOLERANCE * (s.limits.rateProcess as real / 60.0)
      && forall m: int :: 1 <= m < a.retryAfter ==> StillShort(s', key, now, m)
  {
    hide Level;
    AcquireRefines(s, clock, key, true, now, sweeping);
    var (s', a) := DoAcquire(s, key, true, now, sweeping);
    assert PrincipalLevel(s', key, now) == PrincipalLevel(s, key, now);
    HeaderOfSettled(s', key, now, a);
  }

  lemma HeaderOfSettled(s: State, key: string, now: real, a: Answer)
    requires Valid(s, now)
    requires var pb := Bucket(PrincipalLevel(s, key, now), s.limits.ratePrincipal as real, 0.0);
      var gb := Bucket(ProcessLevel(s, now), s.limits.rateProcess as real, 0.0);
      (pb.tokens < 1.0 || gb.tokens < 1.0) && a.Refused? && a.retryAfter == LastToRefill(pb, gb)
    ensures 1 <= a.retryAfter
    ensures PrincipalLevel(s, key, now + a.retryAfter as real) >= 1.0 - TOLERANCE * (s.limits.ratePrincipal as real / 60.0)
    ensures ProcessLevel(s, now + a.retryAfter as real) >= 1.0 - TOLERANCE * (s.limits.rateProcess as real / 60.0)
    ensures forall m: int :: 1 <= m < a.retryAfter ==> StillShort(s, key, now, m)
  {
    var pb := Bucket(PrincipalLevel(s, key, now), s.limits.ratePrincipal as real, 0.0);
    var gb := Bucket(ProcessLevel(s, now), s.limits.rateProcess as real, 0.0);
    LevelOfGrows(s, Anyone, now, now);
    LevelOfGrows(s, Only(key), now, now);
    HeaderCovers(pb, gb, s.limits);
    LevelsAfter(s, key, now, a.retryAfter, pb, gb);
    forall m: int | 1 <= m < a.retryAfter
      ensures StillShort(s, key, now, m)
    {
      LevelsAfter(s, key, now, m, pb, gb);
      assert LevelAfter(pb, m) < 1.0 || LevelAfter(gb, m) < 1.0;
    }
  }

  lemma LevelsAfter(s: State, key: string, now: real, m: int, pb: Bucket, gb: Bucket)
    requires Valid(s, now) && 0 <= m
    requires pb == Bucket(PrincipalLevel(s, key, now), s.limits.ratePrincipal as real, 0.0)
    requires gb == Bucket(ProcessLevel(s, now), s.limits.rateProcess as real, 0.0)
    ensures PrincipalLevel(s, key, now + m as real) == LevelAfter(pb, m)
    ensures ProcessLevel(s, now + m as real) == LevelAfter(gb, m)
  {
    PrincipalLevelGrows(s, key, now, now + m as real);
    ProcessLevelGrows(s, now, now + m as real);
    GrownIsLevelAfter(pb, s.limits.ratePrincipal, m);
    GrownIsLevelAfter(gb, s.limits.rateProcess, m);
    hide *;
  }

  lemma GrownIsLevelAfter(b: Bucket, cap: nat, m: int)
    requires b.perMinute == cap as real && b.last == 0.0
    ensures Grown(cap, b.tokens, m as real) == LevelAfter(b, m)
  {}

  /** After `m` untouched seconds one of the two buckets is still short of a token. */
  ghost predicate StillShort(s: State, key: string, now: real, m: int) {
    PrincipalLevel(s, key, now + m as real) < 1.0 || ProcessLevel(s, now + m as real) < 1.0
  }

  lemma HeaderCovers(pb: Bucket, gb: Bucket, l: Limits)
    requires ValidBucket(pb, l.ratePrincipal, pb.last) && ValidBucket(gb, l.rateProcess, gb.last)
    requires pb.tokens < 1.0 || gb.tokens < 1.0
    ensures var n := LastToRefill(pb, gb);
      && 1 <= n
      && LevelAfter(pb, n) >= 1.0 - TOLERANCE * Rate(pb)
      && LevelAfter(gb, n) >= 1.0 - TOLERANCE * Rate(gb)
      && forall m: int :: 1 <= m < n ==> LevelAfter(pb, m) < 1.0 || LevelAfter(gb, m) < 1.0
  {
    var n := LastToRefill(pb, gb);
    if pb.tokens < 1.0 { RetryAfterTight(pb, l.ratePrincipal); }
    if gb.tokens < 1.0 { RetryAfterTight(gb, l.rateProcess); }
    WaitedLonger(pb, l.ratePrincipal, n);
    WaitedLonger(gb, l.rateProcess, n);
  }

  lemma WaitedLonger(b: Bucket, perMinute: nat, n: int)
    requires ValidBucket(b, perMinute, b.last)
    requires 0 <= n && (b.tokens < 1.0 ==> RetryAfter(b) <= n)
    ensures LevelAfter(b, n) >= 1.0 - TOLERANCE * Rate(b)
  {
    MulNonneg(TOLERANCE, Rate(b));
    if b.tokens < 1.0 {
      RetryAfterTight(b, perMinute);
      MulNonneg(n as real - RetryAfter(b) as real, Rate(b));
    } else {
      MulNonneg(n as real, Rate(b));
    }
  }

  // ---------------------------------------------------------------- who waits out the header

  /** A bucket that is short, sets the header, and whose wait the tolerance rounded down. */
  ghost predicate Deceives(b: Bucket, n: int) {
    b.perMinute > 0.0 && b.tokens < 1.0 && RetryAfter(b) == n && JustOverASecond(b)
  }

  /** The two buckets an acquire of `key` looks at, refilled. */
  ghost function PrincipalBucket(s: State, key: string, now: real): Bucket {
    Bucket(PrincipalLevel(s, key, now), s.limits.ratePrincipal as real, 0.0)
  }

  ghost function ProcessBucket(s: State, now: real): Bucket {
    Bucket(ProcessLevel(s, now), s.limits.rateProcess as real, 0.0)
  }

  lemma WaitCeiling(b: Bucket, perMinute: nat, n: int)
    requires ValidBucket(b, perMinute, b.last) && 1 <= n && (b.tokens < 1.0 ==> RetryAfter(b) <= n)
    ensures LevelAfter(b, n) < 1.0 <==> Deceives(b, n)
  {
    hide LevelAfter;
    TokenThere(b, perMinute, n);
    if b.tokens < 1.0 {
      TokenThere(b, perMinute, RetryAfter(b));
      RetryAfterSuffices(b, perMinute);
      if RetryAfter(b) < n { HeaderWithinSecond(b, perMinute); }
    } else {
      WaitNotPositive(b);
    }
  }

  lemma WaitNotPositive(b: Bucket)
    requires b.perMinute > 0.0 && b.tokens >= 1.0
    ensures Wait(b) <= 0.0
  {}

  lemma HeaderWithinSecond(b: Bucket, perMinute: nat)
    requires ValidBucket(b, perMinute, b.last) && b.tokens < 1.0
    ensures Wait(b) <= (RetryAfter(b) + 1) as real
  {
    CeilBounds(Wait(b) - TOLERANCE);
  }

  /** Exactly when a caller that waits out the header of a rate refusal, with the buckets otherwise untouched, still finds one
      of them short: when one of them was short at the refusal, set the header, and had a wait just over whole seconds. */
  lemma HeaderSuffices(s: State, clock: real, key: string, now: real, sweeping: bool)
    requires Valid(s, clock) && clock <= now
    requires var a := DoAcquire(s, key, true, now, sweeping).1;
      a.Refused? && (a.reason == PrincipalRate || a.reason == ProcessRate)
    ensures var (s', a) := DoAcquire(s, key, true, now, sweeping);
      StillShort(s', key, now, a.retryAfter) <==>
        Deceives(PrincipalBucket(s, key, now), a.retryAfter) || Deceives(ProcessBucket(s, now), a.retryAfter)
  {
    hide Level;
    hide Deceives;
    AcquireRefines(s, clock, key, true, now, sweeping);
    var (s', a) := DoAcquire(s, key, true, now, sweeping);
    assert PrincipalLevel(s', key, now) == PrincipalLevel(s, key, now);
    ShortAfterHeader(s', key, now, a);
  }

  lemma ShortAfterHeader(s: State, key: string, now: real, a: Answer)
    requires Valid(s, now)
    requires var pb, gb := PrincipalBucket(s, key, now), ProcessBucket(s, now);
      (pb.tokens < 1.0 || gb.tokens < 1.0) && a.Refused? && a.retryAfter == LastToRefill(pb, gb)
    ensures StillShort(s, key, now, a.retryAfter) <==>
      Deceives(PrincipalBucket(s, key, now), a.retryAfter) || Deceives(ProcessBucket(s, now), a.retryAfter)
  {
    var pb, gb := PrincipalBucket(s, key, now), ProcessBucket(s, now);
    LevelOfGrows(s, Anyone, now, now);
    LevelOfGrows(s, Only(key), now, now);
    HeaderCovers(pb, gb, s.limits);
    LevelsAfter(s, key, now, a.retryAfter, pb, gb);
    WaitCeiling(pb, s.limits.ratePrincipal, a.retryAfter);
    WaitCeiling(gb, s.limits.rateProcess, a.retryAfter);
    hide *;
  }

  // ---------------------------------------------------------------- a run whose header is too short

  ghost function Burst(key: string, at: real, n: nat): seq<Op> {
    if n == 0 then [] else [Acquire(key, true, at)] + Burst(key, at, n - 1)
  }

  /** One acquire with tokens and permits to spare takes a token of each bucket and a permit. */
  lemma TakesToken(s: State, at: real, key: string)
    requires Valid(s, at) && PrincipalLevel(s, key, at) >= 1.0 && ProcessLevel(s, at) >= 1.0
    requires OutstandingAll(s.handles) < s.limits.inflightProcess && OutstandingAll(s.handles) < s.limits.inflightPrincipal
    ensures var (s', a) := DoAcquire(s, key, true, at, true);
      && Valid(s', at) && s'.limits == s.limits && OutstandingAll(s'.handles) == OutstandingAll(s.handles) + 1
      && PrincipalLevel(s', key, at) == PrincipalLevel(s, key, at) - 1.0 && ProcessLevel(s', at) == ProcessLevel(s, at) - 1.0
  {
    hide Level;
    hide DoAcquire;
    AcquireRefines(s, at, key, true, at, true);
    OutstandingBelowAll(s.handles, key);
    var s' := DoAcquire(s, key, true, at, true).0;
    assert s'.handles[..|s.handles|] == s.handles;
  }

  lemma {:induction false} Drains(s: State, at: real, key: string, n: nat)
    requires Valid(s, at) && PrincipalLevel(s, key, at) >= n as real && ProcessLevel(s, at) >= n as real
    requires OutstandingAll(s.handles) + n <= s.limits.inflightProcess && OutstandingAll(s.handles) + n <= s.limits.inflightPrincipal
    ensures var end := Run(s, Burst(key, at, n), true).0;
      && Valid(end, at) && end.limits == s.limits && OutstandingAll(end.handles) == OutstandingAll(s.handles) + n
      && PrincipalLevel(end, key, at) == PrincipalLevel(s, key, at) - n as real
      && ProcessLevel(end, at) == ProcessLevel(s, at) - n as real
    decreases n
  {
    hide DoAcquire;
    hide ValidPrincipal;
    hide Separate;
    hide PrincipalLevel;
    hide ProcessLevel;
    hide OutstandingAll;
    if n > 0 {
      TakesToken(s, at, key);
      var ops := Burst(key, at, n);
      assert ops[1..] == Burst(key, at, n - 1);
      Drains(Step(s, ops[0], true).0, at, key, n - 1);
    }
  }

  lemma {:induction false} RunAppends(s: State, ops: seq<Op>, more: seq<Op>, sweeping: bool)
    requires Pointers(s)
    ensures var (mid, first) := Run(s, ops, sweeping); var (end, rest) := Run(mid, more, sweeping);
      Run(s, ops + more, sweeping) == (end, first + rest)
    decreases |ops|
  {
    hide Step;
    if ops == [] {
      assert ops + more == more;
      assert [] + Run(s, more, sweeping).1 == Run(s, more, sweeping).1;
    } else {
      assert (ops + more)[1..] == ops[1..] + more;
      var (s', a) := Step(s, ops[0], sweeping);
      RunAppends(s', ops[1..], more, sweeping);
      var (mid, first) := Run(s', ops[1..], sweeping);
      var rest := Run(mid, more, sweeping).1;
      assert [a] + (first + rest) == ([a] + first) + rest;
    }
  }

  const SEVEN: Limits := Limits(9, 9, 7, 100)
  const LATER: real := 0.571428571
  const WAITED: real := 8.571428571

  /** A drained limiter: the next acquire is refused for eight seconds and changes no level. */
  lemma EighthRefused(s: State)
    requires Valid(s, 0.0) && s.limits == SEVEN && OutstandingAll(s.handles) == 7
    requires PrincipalLevel(s, "p", 0.0) == 0.0 && ProcessLevel(s, 0.0) == 93.0
    ensures var (s', a) := DoAcquire(s, "p", true, LATER, true);
      a == Refused(PrincipalRate, 8) && Valid(s', LATER) && s'.limits == SEVEN
      && PrincipalLevel(s', "p", LATER) == Grown(7, 0.0, LATER)
  {
    hide DoAcquire;
    hide Level;
    hide OutstandingAll;
    hide PrincipalLevel;
    hide ProcessLevel;
    hide Grown;
    hide ValidPrincipal;
    hide Separate;
    AcquireRefines(s, 0.0, "p", true, LATER, true);
    PrincipalLevelGrows(s, "p", 0.0, LATER);
    ProcessLevelGrows(s, 0.0, LATER);
    OutstandingBelowAll(s.handles, "p");
    EightSeconds();
  }

  lemma NinthRefused(s: State)
    requires Valid(s, LATER) && s.limits == SEVEN && PrincipalLevel(s, "p", LATER) == Grown(7, 0.0, LATER)
    ensures DoAcquire(s, "p", true, WAITED, true).1.Refused?
  {
    hide DoAcquire;
    hide Level;
    hide OutstandingAll;
    hide PrincipalLevel;
    hide ProcessLevel;
    hide Grown;
    hide ValidPrincipal;
    hide Separate;
    AcquireRefines(s, LATER, "p", true, WAITED, true);
    PrincipalLevelGrows(s, "p", LATER, WAITED);
    EightSeconds();
  }

  /** Seven acquires drain a 7-per-minute principal at 0 s. The eighth, at 0.571428571 s, is refused for 8 seconds; the ninth,
      exactly 8 seconds later, is refused again. */
  lemma RetryAfterFallsShort()
    ensures var ops := Burst("p", 0.0, 7) + [Acquire("p", true, LATER), Acquire("p", true, WAITED)];
      var answers := Run(Init(SEVEN, 0.0), ops, true).1;
      && |answers| == 9 && WAITED == LATER + 8.0
      && answers[7] == Refused(PrincipalRate, 8) && answers[8].Refused?
  {
    hide DoAcquire;
    hide Level;
    hide OutstandingAll;
    hide PrincipalLevel;
    hide ProcessLevel;
    hide Grown;
    hide ValidPrincipal;
    hide Separate;
    var s := Init(SEVEN, 0.0);
    InitValid(SEVEN, 0.0);
    FreshLevels(SEVEN, "p");
    Drains(s, 0.0, "p", 7);
    BurstLength("p", 0.0, 7);
    var (drained, taken) := Run(s, Burst("p", 0.0, 7), true);
    EighthRefused(drained);
    var two := [Acquire("p", true, LATER), Acquire("p", true, WAITED)];
    var (eighth, a) := Step(drained, two[0], true);
    NinthRefused(eighth);
    assert two[1..] == [two[1]];
    RunAppends(s, Burst("p", 0.0, 7), two, true);
    var answers := Run(drained, two, true).1;
    assert answers[0] == a && answers[1] == Step(eighth, two[1], true).1;
  }

  lemma {:induction false} BurstLength(key: string, at: real, n: nat)
    ensures |Burst(key, at, n)| == n
  {
    if n > 0 { BurstLength(key, at, n - 1); }
  }

  lemma FreshLevels(l: Limits, key: string)
    requires ValidLimits(l)
    ensures PrincipalLevel(Init(l, 0.0), key, 0.0) == l.ratePrincipal as real && ProcessLevel(Init(l, 0.0), 0.0) == l.rateProcess as real
    ensures OutstandingAll(Init(l, 0.0).handles) == 0
  {
    NewBucketFull(l.rateProcess, 0.0);
  }

  lemma EightSeconds()
    ensures var b := Bucket(Grown(7, 0.0, LATER), 7.0, 0.0);
      b.tokens < 1.0 && RetryAfter(b) == 8 && Grown(7, b.tokens, WAITED - LATER) < 1.0
    ensures Grown(100, 93.0, LATER) >= 1.0
  {
    var b := Bucket(Grown(7, 0.0, LATER), 7.0, 0.0);
    assert b.tokens == 0.571428571 * 7.0 / 60.0;
    assert Rate(b) == 7.0 / 60.0;
    var x := (1.0 - b.tokens) / Rate(b) - TOLERANCE;
    assert 7.0 < x <= 8.0;
    CeilBounds(x);
  }
}
