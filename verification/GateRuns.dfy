/** Whole runs of the request limiter against one that never forgets: what sweeping and refusing can be seen to do, which
    is nothing. */
module GateRuns {
  import opened GateBucket
  import opened GateLimiter

  ghost predicate SameHolders(a: seq<Handle>, b: seq<Handle>) {
    |a| == |b| && forall i :: 0 <= i < |a| ==> a[i].key == b[i].key && a[i].done == b[i].done
  }

  lemma {:induction false} SameHoldersSameCounts(a: seq<Handle>, b: seq<Handle>, key: string)
    requires SameHolders(a, b)
    ensures Outstanding(a, key) == Outstanding(b, key) && OutstandingAll(a) == OutstandingAll(b)
  {
    if a != [] { SameHoldersSameCounts(a[..|a| - 1], b[..|b| - 1], key); }
  }

  // ---------------------------------------------------------------- one step against the eager limiter

  /** Same permits, same levels: only bookkeeping moved. */
  ghost predicate Same(s: State, s': State, now: real) {
    && Valid(s, now) && Valid(s', now)
    && s'.limits == s.limits && s'.handles == s.handles
    && ProcessLevel(s', now) == ProcessLevel(s, now)
    && forall k :: PrincipalLevel(s', k, now) == PrincipalLevel(s, k, now)
  }

  /** One permit and `d` tokens from each of the two buckets went to `key`. */
  ghost predicate Took(s: State, s': State, now: real, key: string, d: real) {
    && Valid(s, now) && Valid(s', now)
    && s'.limits == s.limits
    && (exists c: nat :: s'.handles == s.handles + [Handle(key, c, false)])
    && ProcessLevel(s', now) == ProcessLevel(s, now) - d
    && forall k :: PrincipalLevel(s', k, now) == PrincipalLevel(s, k, now) - (if k == key then d else 0.0)
  }

  ghost predicate Outcome(s: State, s': State, now: real, key: string, rate: bool, a: Answer) {
    if a.Admitted? then Took(s, s', now, key, Debit(rate, a)) else Same(s, s', now)
  }

  ghost function EagerAnswer(s: State, key: string, rate: bool, now: real): Answer
    requires ValidLimits(s.limits)
  {
    Decide(s.limits, OutstandingAll(s.handles), Outstanding(s.handles, key),
           PrincipalLevel(s, key, now), ProcessLevel(s, now), rate, |s.handles|)
  }

  lemma SameThen(s: State, m: State, s': State, now: real, key: string, rate: bool, a: Answer)
    requires Same(s, m, now) && Outcome(m, s', now, key, rate, a) && ValidLimits(s.limits)
    ensures Outcome(s, s', now, key, rate, a)
    ensures EagerAnswer(s, key, rate, now) == EagerAnswer(m, key, rate, now)
  {
    hide Valid;
    hide PrincipalLevel;
    hide Level;
    assert PrincipalLevel(m, key, now) == PrincipalLevel(s, key, now);
    if !a.Admitted? {
      forall k ensures PrincipalLevel(s', k, now) == PrincipalLevel(s, k, now) {
        assert PrincipalLevel(m, k, now) == PrincipalLevel(s, k, now);
      }
    } else {
      var d := Debit(rate, a);
      forall k ensures PrincipalLevel(s', k, now) == PrincipalLevel(s, k, now) - (if k == key then d else 0.0) {
        assert PrincipalLevel(m, k, now) == PrincipalLevel(s, k, now);
      }
    }
  }

  lemma PreparedSame(s: State, clock: real, key: string, now: real, sweeping: bool)
    requires Valid(s, clock) && clock <= now
    ensures Valid(s, now)
    ensures var s1 := if sweeping then Sweep(s, now) else s; Same(s, s1, now) && Same(s1, Locate(s1, key, now), now)
  {
    SweepKeeps(s, clock, now);
    var s1 := if sweeping then Sweep(s, now) else s;
    LocateKeeps(s1, now, key, now);
  }

  /** An acquire answers what an eagerly refilled limiter that forgets nobody answers, and takes what it takes. */
  lemma AcquireRefines(s: State, clock: real, key: string, rate: bool, now: real, sweeping: bool)
    requires Valid(s, clock) && clock <= now
    ensures Valid(s, now)
    ensures var (s', a) := DoAcquire(s, key, rate, now, sweeping);
      Outcome(s, s', now, key, rate, a) && a == EagerAnswer(s, key, rate, now)
  {
    hide Level;
    var (s', a) := DoAcquire(s, key, rate, now, sweeping);
    var s1 := if sweeping then Sweep(s, now) else s;
    PreparedSame(s, clock, key, now, sweeping);
    if s1.processInflight < s1.limits.inflightProcess {
      var s2 := Locate(s1, key, now);
      LocateKeeps(s1, now, key, now);
      LocatedAcquire(s2, key, rate, now, s', a);
      SameThen(s1, s2, s', now, key, rate, a);
      SameThen(s, s1, s', now, key, rate, a);
    }
  }

  /** What an acquire answers, by the permits out and the levels at that moment: the process cap before the principal's, permits
      before rates, the principal's bucket named before the process bucket, and admission exactly when nothing is short. */
  lemma AcquireAnswers(s: State, clock: real, key: string, rate: bool, now: real, sweeping: bool)
    requires Valid(s, clock) && clock <= now
    ensures var a := DoAcquire(s, key, rate, now, sweeping).1;
      var full := OutstandingAll(s.handles) >= s.limits.inflightProcess;
      var own := Outstanding(s.handles, key) >= s.limits.inflightPrincipal;
      var empty := rate && PrincipalLevel(s, key, now) < 1.0;
      var dry := rate && ProcessLevel(s, now) < 1.0;
      && (full ==> a == Refused(ProcessInflight, 1))
      && (!full && own ==> a == Refused(PrincipalInflight, 1))
      && (!full && !own && empty ==> a.Refused? && a.reason == PrincipalRate)
      && (!full && !own && !empty && dry ==> a.Refused? && a.reason == ProcessRate)
      && (!full && !own && !empty && !dry ==> a == Admitted(|s.handles|))
  {
    hide DoAcquire;
    hide Level;
    AcquireRefines(s, clock, key, rate, now, sweeping);
  }

  /** The second half of the acquire, from the point where the principal has been located. */
  lemma LocatedAcquire(s: State, key: string, rate: bool, now: real, s': State, a: Answer)
    requires Valid(s, now) && key in s.table && s.cells[s.table[key]].lastSeen == now
    requires s.processInflight < s.limits.inflightProcess
    requires var c := s.table[key]; var p := s.cells[c];
      var pb, gb := Refill(p.bucket, now), Refill(s.process, now);
      (s', a) ==
        if p.inflight >= s.limits.inflightPrincipal then (s, Refused(PrincipalInflight, 1))
        else if !rate then (Grant(s, key, c), Admitted(|s.handles|))
        else if pb.tokens < 1.0 || gb.tokens < 1.0 then (Spent(s, key, now, 0.0), RateRefusal(pb, gb))
        else (Grant(Spent(s, key, now, 1.0), key, c), Admitted(|s.handles|))
    ensures Outcome(s, s', now, key, rate, a) && a == EagerAnswer(s, key, rate, now)
  {
    hide Level;
    hide Refill;
    hide Spent;
    hide Outstanding;
    hide OutstandingAll;
    hide RateRefusal;
    var p := s.cells[s.table[key]];
    assert ValidPrincipal(s, key, p, now);
    if p.inflight < s.limits.inflightPrincipal {
      if !rate {
        GrantKeeps(s, now, key);
      } else {
        RateRefines(s, now, key, s', a);
      }
    }
  }

  lemma RateRefines(s: State, now: real, key: string, s': State, a: Answer)
    requires Valid(s, now) && key in s.table && s.cells[s.table[key]].lastSeen == now
    requires s.processInflight < s.limits.inflightProcess
    requires s.cells[s.table[key]].inflight < s.limits.inflightPrincipal
    requires var c := s.table[key]; var pb, gb := Refill(s.cells[c].bucket, now), Refill(s.process, now);
      (s', a) == if pb.tokens < 1.0 || gb.tokens < 1.0 then (Spent(s, key, now, 0.0), RateRefusal(pb, gb))
                 else (Grant(Spent(s, key, now, 1.0), key, c), Admitted(|s.handles|))
    ensures Outcome(s, s', now, key, true, a) && a == EagerAnswer(s, key, true, now)
  {
    hide Level;
    hide Refill;
    hide OutstandingAll;
    hide Outstanding;
    hide Separate;
    hide ValidPrincipal;
    hide PrincipalLevel;
    hide ProcessLevel;
    RefilledLevels(s, now, key);
    var c := s.table[key];
    var pb, gb := Refill(s.cells[c].bucket, now), Refill(s.process, now);
    if pb.tokens < 1.0 || gb.tokens < 1.0 {
      SpendKeeps(s, now, key, 0.0);
    } else {
      SpendKeeps(s, now, key, 1.0);
      GrantKeeps(Spent(s, key, now, 1.0), now, key);
      ProcessOnly(Spent(s, key, now, 1.0), s', now);
    }
  }

  /** The refilled buckets an acquire looks at hold the eager levels. */
  lemma RefilledLevels(s: State, now: real, key: string)
    requires Valid(s, now) && key in s.table
    ensures var pb, gb := Refill(s.cells[s.table[key]].bucket, now), Refill(s.process, now);
      && pb.tokens == PrincipalLevel(s, key, now) >= 0.0 && pb.perMinute == s.limits.ratePrincipal as real
      && gb.tokens == ProcessLevel(s, now) >= 0.0 && gb.perMinute == s.limits.rateProcess as real
      && s.cells[s.table[key]].inflight == Outstanding(s.handles, key)
  {
    hide Level;
    hide Refill;
    hide OutstandingAll;
    hide Outstanding;
    hide Separate;
    var p := s.cells[s.table[key]];
    assert ValidPrincipal(s, key, p, now);
    LevelBounds(p.bucket, s.limits.ratePrincipal, now, now);
    LevelBounds(s.process, s.limits.rateProcess, now, now);
    SpendFromRefilled(p.bucket, s.limits.ratePrincipal, now, 0.0);
    SpendFromRefilled(s.process, s.limits.rateProcess, now, 0.0);
  }

  lemma ProcessOnly(s: State, s': State, now: real)
    requires s'.process == s.process
    ensures ProcessLevel(s', now) == ProcessLevel(s, now)
  {}

  /** Closure `h` is spent, its permit is back with the principal still in the table, no bucket moved. */
  ghost predicate Returned(s: State, s': State, h: nat, now: real) {
    && Valid(s, now) && Valid(s', now)
    && s'.limits == s.limits && s'.process == s.process
    && (forall k :: PrincipalLevel(s', k, now) == PrincipalLevel(s, k, now))
    && |s'.handles| == |s.handles|
    && forall i :: 0 <= i < |s.handles| ==>
         s'.handles[i] == if i == h then s.handles[i].(done := true) else s.handles[i]
  }

  lemma ReleaseCounts(hs: seq<Handle>, h: nat)
    requires h < |hs| && !hs[h].done
    ensures var hs' := hs[h := hs[h].(done := true)];
      && OutstandingAll(hs') == OutstandingAll(hs) - 1
      && Outstanding(hs, hs[h].key) >= 1
      && forall k :: Outstanding(hs', k) == Outstanding(hs, k) - (if k == hs[h].key then 1 else 0)
  {
    var hs' := hs[h := hs[h].(done := true)];
    OutstandingOpen(hs, h);
    forall k
      ensures OutstandingAll(hs') == OutstandingAll(hs) - 1
      ensures Outstanding(hs', k) == Outstanding(hs, k) - (if k == hs[h].key then 1 else 0)
    {
      MarkDone(hs, h, k);
    }
  }

  lemma ReleaseValid(s: State, clock: real, h: nat, now: real)
    requires Valid(s, clock) && clock <= now && h < |s.handles| && !s.handles[h].done
    ensures Valid(DoRelease(s, h, now), now)
  {
    ReleaseCounts(s.handles, h);
    hide Outstanding;
    hide OutstandingAll;
    var s' := DoRelease(s, h, now);
    assert Separate(s');
    forall k | k in s'.table
      ensures ValidPrincipal(s', k, s'.cells[s'.table[k]], now)
    {
      assert ValidPrincipal(s, k, s.cells[s.table[k]], clock);
    }
  }

  lemma ReleaseKeeps(s: State, clock: real, h: nat, now: real)
    requires Valid(s, clock) && clock <= now
    ensures Returned(s, DoRelease(s, h, now), h, now)
  {
    ValidLater(s, clock, now);
    if h < |s.handles| && !s.handles[h].done {
      ReleaseValid(s, clock, h, now);
    }
    hide Valid;
    hide Level;
  }

  /** The `once` of a release closure: calling it a second time changes nothing at all. */
  lemma ReleaseTwice(s: State, clock: real, h: nat, t: real, u: real)
    requires Valid(s, clock) && clock <= t <= u
    ensures Valid(DoRelease(s, h, t), t) && DoRelease(DoRelease(s, h, t), h, u) == DoRelease(s, h, t)
  {
    ReleaseKeeps(s, clock, h, t);
  }

  // ---------------------------------------------------------------- runs

  function Run(s: State, ops: seq<Op>, sweeping: bool): (r: (State, seq<Answer>))
    requires Pointers(s)
    ensures Pointers(r.0) && |r.1| == |ops|
    decreases |ops|
  {
    if ops == [] then (s, []) else
    var (s', a) := Step(s, ops[0], sweeping);
    var (end, rest) := Run(s', ops[1..], sweeping);
    (end, [a] + rest)
  }

  /** The clock never steps back over the run, starting from `clock`. */
  ghost predicate Monotone(ops: seq<Op>, clock: real)
    decreases |ops|
  {
    ops == [] || (clock <= ops[0].at && Monotone(ops[1..], ops[0].at))
  }

  lemma StepKeeps(s: State, clock: real, op: Op, sweeping: bool)
    requires Valid(s, clock) && clock <= op.at
    ensures Valid(Step(s, op, sweeping).0, op.at)
  {
    match op
    case Acquire(key, rate, at) => AcquireRefines(s, clock, key, rate, at, sweeping);
    case Release(h, at) => ReleaseKeeps(s, clock, h, at);
  }

  /** Two limiters no later request can tell apart. */
  ghost predicate Equivalent(a: State, b: State, clock: real) {
    && Valid(a, clock) && Valid(b, clock)
    && a.limits == b.limits
    && SameHolders(a.handles, b.handles)
    && ProcessLevel(a, clock) == ProcessLevel(b, clock)
    && forall k :: PrincipalLevel(a, k, clock) == PrincipalLevel(b, k, clock)
  }

  /** What a level grows to in `dt` seconds. */
  ghost function Grown(cap: nat, level: real, dt: real): real {
    Min(cap as real, level + dt * (cap as real / 60.0))
  }

  lemma BucketGrows(b: Bucket, cap: nat, clock: real, now: real)
    requires ValidBucket(b, cap, clock) && clock <= now
    ensures Level(b, now) == Grown(cap, Level(b, clock), now - clock)
  {
    hide Level;
    LevelAdvances(b, cap, clock, clock, now);
  }

  lemma FullStaysFull(cap: nat, dt: real)
    requires 0.0 <= dt
    ensures Grown(cap, cap as real, dt) == cap as real
  {
    MulNonneg(dt, cap as real / 60.0);
  }

  lemma PrincipalLevelGrows(s: State, key: string, clock: real, now: real)
    requires Valid(s, clock) && clock <= now
    ensures PrincipalLevel(s, key, now) == Grown(s.limits.ratePrincipal, PrincipalLevel(s, key, clock), now - clock)
  {
    hide Level;
    hide Grown;
    hide Separate;
    hide Outstanding;
    hide OutstandingAll;
    if key in s.table {
      var p := s.cells[s.table[key]];
      assert ValidPrincipal(s, key, p, clock);
      BucketGrows(p.bucket, s.limits.ratePrincipal, clock, now);
    } else {
      FullStaysFull(s.limits.ratePrincipal, now - clock);
    }
  }

  lemma ProcessLevelGrows(s: State, clock: real, now: real)
    requires Valid(s, clock) && clock <= now
    ensures ProcessLevel(s, now) == Grown(s.limits.rateProcess, ProcessLevel(s, clock), now - clock)
  {
    LevelAdvances(s.process, s.limits.rateProcess, clock, clock, now);
  }

  lemma EquivalentPrincipalLater(a: State, b: State, key: string, clock: real, now: real)
    requires Valid(a, clock) && Valid(b, clock) && clock <= now && a.limits == b.limits
    requires PrincipalLevel(a, key, clock) == PrincipalLevel(b, key, clock)
    ensures PrincipalLevel(a, key, now) == PrincipalLevel(b, key, now)
  {
    hide Valid;
    hide PrincipalLevel;
    hide Level;
    PrincipalLevelGrows(a, key, clock, now);
    PrincipalLevelGrows(b, key, clock, now);
  }

  lemma EquivalentLater(a: State, b: State, clock: real, now: real)
    requires Equivalent(a, b, clock) && clock <= now
    ensures Equivalent(a, b, now)
  {
    ValidLater(a, clock, now);
    ValidLater(b, clock, now);
    ProcessLevelGrows(a, clock, now);
    ProcessLevelGrows(b, clock, now);
    hide Valid;
    hide PrincipalLevel;
    hide Grown;
    hide Level;
    forall k
      ensures PrincipalLevel(a, k, now) == PrincipalLevel(b, k, now)
    {
      EquivalentPrincipalLater(a, b, k, clock, now);
    }
  }

  lemma EquivalentAcquire(a: State, b: State, key: string, rate: bool, now: real, sa: bool, sb: bool)
    requires Equivalent(a, b, now)
    ensures DoAcquire(a, key, rate, now, sa).1 == DoAcquire(b, key, rate, now, sb).1
    ensures Equivalent(DoAcquire(a, key, rate, now, sa).0, DoAcquire(b, key, rate, now, sb).0, now)
  {
    hide Level;
    AcquireRefines(a, now, key, rate, now, sa);
    AcquireRefines(b, now, key, rate, now, sb);
    SameHoldersSameCounts(a.handles, b.handles, key);
    assert EagerAnswer(a, key, rate, now) == EagerAnswer(b, key, rate, now);
    var (a', answer) := DoAcquire(a, key, rate, now, sa);
    var b' := DoAcquire(b, key, rate, now, sb).0;
    OutcomesEquivalent(a, b, a', b', now, key, rate, answer);
  }

  lemma OutcomesEquivalent(a: State, b: State, a': State, b': State, now: real, key: string, rate: bool, answer: Answer)
    requires Equivalent(a, b, now)
    requires Outcome(a, a', now, key, rate, answer) && Outcome(b, b', now, key, rate, answer)
    ensures Equivalent(a', b', now)
  {
    hide Valid;
    hide PrincipalLevel;
    hide Level;
    forall k
      ensures PrincipalLevel(a', k, now) == PrincipalLevel(b', k, now)
    {
      assert PrincipalLevel(a, k, now) == PrincipalLevel(b, k, now);
    }
  }

  lemma EquivalentReturned(a: State, b: State, a': State, b': State, h: nat, now: real)
    requires Equivalent(a, b, now) && Returned(a, a', h, now) && Returned(b, b', h, now)
    ensures Equivalent(a', b', now)
  {
    hide Valid;
    hide PrincipalLevel;
    hide Level;
    forall k
      ensures PrincipalLevel(a', k, now) == PrincipalLevel(b', k, now)
    {
      assert PrincipalLevel(a, k, now) == PrincipalLevel(b, k, now);
    }
  }

  lemma EquivalentStep(a: State, b: State, clock: real, op: Op, sa: bool, sb: bool)
    requires Equivalent(a, b, clock) && clock <= op.at
    ensures Step(a, op, sa).1 == Step(b, op, sb).1
    ensures Equivalent(Step(a, op, sa).0, Step(b, op, sb).0, op.at)
  {
    hide Level;
    EquivalentLater(a, b, clock, op.at);
    match op
    case Acquire(key, rate, at) =>
      EquivalentAcquire(a, b, key, rate, at, sa, sb);
    case Release(h, at) =>
      ReleaseKeeps(a, at, h, at);
      ReleaseKeeps(b, at, h, at);
      EquivalentReturned(a, b, DoRelease(a, h, at), DoRelease(b, h, at), h, at);
  }

  lemma {:induction false} EquivalentRun(a: State, b: State, clock: real, ops: seq<Op>, sa: bool, sb: bool)
    requires Equivalent(a, b, clock) && Monotone(ops, clock)
    ensures Run(a, ops, sa).1 == Run(b, ops, sb).1
    decreases |ops|
  {
    if ops != [] {
      EquivalentStep(a, b, clock, ops[0], sa, sb);
      EquivalentRun(Step(a, ops[0], sa).0, Step(b, ops[0], sb).0, ops[0].at, ops[1..], sa, sb);
    }
  }

  /** Sweeping is invisible: every answer, reason and Retry-After is the one of a limiter that never forgets. */
  lemma SweepInvisible(limits: Limits, start: real, ops: seq<Op>)
    requires ValidLimits(limits) && Monotone(ops, start)
    ensures Run(Init(limits, start), ops, true).1 == Run(Init(limits, start), ops, false).1
  {
    InitValid(limits, start);
    EquivalentRun(Init(limits, start), Init(limits, start), start, ops, true, false);
  }

  /** A refused acquire holds nothing: everything after it is answered as if it had never been made. */
  lemma RefusalInvisible(s: State, clock: real, op: Op, later: seq<Op>, sweeping: bool)
    requires Valid(s, clock) && clock <= op.at && Monotone(later, op.at)
    requires Step(s, op, sweeping).1.Refused?
    ensures Valid(Step(s, op, sweeping).0, op.at)
    ensures Run(Step(s, op, sweeping).0, later, sweeping).1 == Run(s, later, sweeping).1
  {
    hide Level;
    AcquireRefines(s, clock, op.key, op.rate, op.at, sweeping);
    ValidLater(s, clock, op.at);
    EquivalentRun(Step(s, op, sweeping).0, s, op.at, later, sweeping, sweeping);
  }

  lemma ValidLater(s: State, clock: real, now: real)
    requires Valid(s, clock) && clock <= now
    ensures Valid(s, now)
  {}
}
