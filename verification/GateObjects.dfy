/** The limiter as the object the handlers share, and the two pools of change intelligence built from it
    (internal/api/gatelimiter.go, internal/api/changelimiter.go). The lock makes every method one step. */
module GateObjects {
  import opened GateBucket
  import opened GateLimiter
  import opened GateRuns

  class Limiter {
    const limits: Limits
    var processInflight: int
    var process: Bucket
    var table: map<string, nat>
    var cells: seq<Principal>
    var handles: seq<Handle>
    var lastSweep: real

    ghost function View(): State
      reads this
    {
      State(limits, processInflight, process, table, cells, handles, lastSweep)
    }

    constructor (limits: Limits, now: real)
      ensures View() == Init(limits, now)
    {
      this.limits := limits;
      processInflight := 0;
      process := NewBucket(limits.rateProcess, now);
      table, cells, handles, lastSweep := map[], [], [], now;
    }

    /** Walks the principal map, at most once a minute, and drops the idle entries. */
    method SweepLocked(now: real)
      requires Pointers(View())
      modifies this`table, this`lastSweep
      ensures View() == Sweep(old(View()), now)
    {
      ghost var before := View();
      if now - lastSweep < SWEEP_EVERY { return; }
      lastSweep := now;
      var todo := table.Keys;
      while todo != {}
        invariant lastSweep == now && todo <= table.Keys <= old(table).Keys
        invariant forall k <- table :: table[k] == old(table)[k]
        invariant forall k <- old(table) :: k !in todo ==> (k in table <==> !Idle(cells[old(table)[k]], now))
        decreases todo
      {
        var k :| k in todo;
        if Idle(cells[table[k]], now) { table := table - {k}; }
        todo := todo - {k};
      }
      assert table == Sweep(before, now).table;
      assert View() == Sweep(before, now);
    }

    method PrincipalLocked(key: string, now: real) returns (c: nat)
      requires Pointers(View())
      modifies this`table, this`cells
      ensures View() == Locate(old(View()), key, now) && key in table && c == table[key]
    {
      if key in table {
        c := table[key];
        cells := cells[c := cells[c].(lastSeen := now)];
      } else {
        c := |cells|;
        table := table[key := c];
        cells := cells + [Principal(0, NewBucket(limits.ratePrincipal, now), now)];
      }
    }

    /** Both buckets refilled and checked, and only then both debited. */
    method TakeTokens(key: string, now: real) returns (refused: bool, reason: Reason, retryAfter: int)
      requires Pointers(View()) && key in table
      modifies this`cells, this`process
      ensures Pointers(View())
      ensures var was := old(View());
        var pb, gb := Refill(was.cells[was.table[key]].bucket, now), Refill(was.process, now);
        && refused == (pb.tokens < 1.0 || gb.tokens < 1.0)
        && (refused ==> View() == Spent(was, key, now, 0.0) && Refused(reason, retryAfter) == RateRefusal(pb, gb))
        && (!refused ==> View() == Spent(was, key, now, 1.0))
    {
      hide RetryAfter;
      var c := table[key];
      ghost var was := View();
      cells := cells[c := cells[c].(bucket := Refill(cells[c].bucket, now))];
      process := Refill(process, now);
      assert View() == Spent(was, key, now, 0.0);
      refused, reason, retryAfter := false, PrincipalRate, 0;
      if cells[c].bucket.tokens < 1.0 {
        refused, retryAfter := true, RetryAfter(cells[c].bucket);
      }
      if process.tokens < 1.0 {
        if !refused { refused, reason := true, ProcessRate; }
        retryAfter := Max(retryAfter, RetryAfter(process));
      }
      if refused { return; }
      var p := cells[c];
      cells := cells[c := p.(bucket := p.bucket.(tokens := p.bucket.tokens - 1.0))];
      process := process.(tokens := process.tokens - 1.0);
      assert View() == Spent(was, key, now, 1.0);
    }

    method Acquire(key: string, rate: bool, now: real) returns (a: Answer)
      requires Pointers(View())
      modifies this
      ensures (View(), a) == DoAcquire(old(View()), key, rate, now, true)
      ensures Pointers(View())
    {
      hide Refill;
      hide RateRefusal;
      hide Spent;
      hide Sweep;
      SweepLocked(now);
      if processInflight >= limits.inflightProcess { return Refused(ProcessInflight, 1); }
      var c := PrincipalLocked(key, now);
      if cells[c].inflight >= limits.inflightPrincipal { return Refused(PrincipalInflight, 1); }
      if rate {
        var refused, reason, retryAfter := TakeTokens(key, now);
        if refused { return Refused(reason, retryAfter); }
      }
      a := Admitted(|handles|);
      processInflight := processInflight + 1;
      cells := cells[c := cells[c].(inflight := cells[c].inflight + 1)];
      handles := handles + [Handle(key, c, false)];
    }

    /** Calls release closure `h`, under its own `once`. */
    method Release(h: nat, now: real)
      requires Pointers(View()) && h < |handles|
      modifies this
      ensures View() == DoRelease(old(View()), h, now)
      ensures Pointers(View())
    {
      if handles[h].done { return; }
      handles := handles[h := handles[h].(done := true)];
      processInflight := processInflight - 1;
      var c := handles[h].cell;
      var p := cells[c];
      cells := cells[c := p.(inflight := if p.inflight > 0 then p.inflight - 1 else p.inflight, lastSeen := now)];
    }
  }

  datatype ChangeLimits = ChangeLimits(recordInflight: int, recordRatePrincipal: nat, recordRateProcess: nat, readInflight: int)

  function RecordPool(l: ChangeLimits): Limits {
    Limits(l.recordInflight, l.recordInflight, l.recordRatePrincipal, l.recordRateProcess)
  }

  /** Reads take no rate token; their buckets exist only because the shared limiter has them. */
  function ReadPool(l: ChangeLimits): Limits {
    Limits(l.readInflight, l.readInflight, 1, 1)
  }

  class ChangeLimiter {
    const record: Limiter
    const read: Limiter

    constructor (l: ChangeLimits, now: real)
      ensures record.View() == Init(RecordPool(l), now) && read.View() == Init(ReadPool(l), now)
      ensures record.limits.inflightProcess == record.limits.inflightPrincipal == l.recordInflight
      ensures record.limits.ratePrincipal == l.recordRatePrincipal && record.limits.rateProcess == l.recordRateProcess
      ensures read.limits.inflightProcess == read.limits.inflightPrincipal == l.readInflight
      ensures fresh(record) && fresh(read) && record != read
    {
      record := new Limiter(RecordPool(l), now);
      read := new Limiter(ReadPool(l), now);
    }

    method AcquireRecord(key: string, now: real) returns (a: Answer)
      requires record != read && Pointers(record.View())
      modifies record
      ensures (record.View(), a) == DoAcquire(old(record.View()), key, true, now, true)
      ensures read.View() == old(read.View())
    {
      a := record.Acquire(key, true, now);
    }

    method AcquireRead(key: string, now: real) returns (a: Answer)
      requires record != read && Pointers(read.View())
      modifies read
      ensures (read.View(), a) == DoAcquire(old(read.View()), key, false, now, true)
      ensures record.View() == old(record.View())
    {
      a := read.Acquire(key, false, now);
    }
  }

  // ---------------------------------------------------------------- principal_inflight in the two pools

  predicate Names(a: Answer, reason: Reason) {
    a.Refused? && a.reason == reason
  }

  lemma StepNeverNamesPrincipal(s: State, clock: real, op: Op, sweeping: bool)
    requires Valid(s, clock) && clock <= op.at && s.limits.inflightProcess <= s.limits.inflightPrincipal
    ensures var (s', a) := Step(s, op, sweeping);
      Valid(s', op.at) && s'.limits == s.limits && !Names(a, PrincipalInflight)
  {
    hide Level;
    hide DoAcquire;
    hide DoRelease;
    match op {
      case Acquire(key, rate, at) =>
        AcquireRefines(s, clock, key, rate, at, sweeping);
        OutstandingBelowAll(s.handles, key);
      case Release(h, at) =>
        ReleaseKeeps(s, clock, h, at);
    }
  }

  lemma {:induction false} NeverNamesPrincipal(s: State, clock: real, ops: seq<Op>, sweeping: bool)
    requires Valid(s, clock) && Monotone(ops, clock) && s.limits.inflightProcess <= s.limits.inflightPrincipal
    ensures forall a <- Run(s, ops, sweeping).1 :: !Names(a, PrincipalInflight)
    decreases |ops|
  {
    hide Step;
    hide ValidPrincipal;
    hide Separate;
    hide OutstandingAll;
    if ops != [] {
      StepNeverNamesPrincipal(s, clock, ops[0], sweeping);
      NeverNamesPrincipal(Step(s, ops[0], sweeping).0, ops[0].at, ops[1..], sweeping);
    }
  }

  ghost function Again(key: string, at: real, n: nat): seq<Op> {
    if n == 0 then [] else [Acquire(key, false, at)] + Again(key, at, n - 1)
  }

  lemma {:induction false} AgainMonotone(key: string, at: real, n: nat)
    ensures Monotone(Again(key, at, n), at)
  {
    if n != 0 {
      AgainMonotone(key, at, n - 1);
      assert Again(key, at, n)[1..] == Again(key, at, n - 1);
    }
  }

  lemma TakesOneMore(s: State, at: real, key: string)
    requires Valid(s, at) && s.limits.inflightPrincipal < s.limits.inflightProcess
    requires OutstandingAll(s.handles) == Outstanding(s.handles, key) <= s.limits.inflightPrincipal
    ensures var (s', a) := DoAcquire(s, key, false, at, true);
      if Outstanding(s.handles, key) == s.limits.inflightPrincipal then a == Refused(PrincipalInflight, 1)
      else Valid(s', at) && s'.limits == s.limits
           && OutstandingAll(s'.handles) == Outstanding(s'.handles, key) == Outstanding(s.handles, key) + 1
  {
    hide Level;
    hide DoAcquire;
    AcquireRefines(s, at, key, false, at, true);
    var s' := DoAcquire(s, key, false, at, true).0;
    if Outstanding(s.handles, key) < s.limits.inflightPrincipal {
      assert s'.handles[..|s.handles|] == s.handles;
    }
  }

  lemma {:induction false} FillsUp(s: State, at: real, key: string, n: nat)
    requires Valid(s, at) && s.limits.inflightPrincipal < s.limits.inflightProcess
    requires OutstandingAll(s.handles) == Outstanding(s.handles, key)
    requires OutstandingAll(s.handles) + n == s.limits.inflightPrincipal
    ensures Refused(PrincipalInflight, 1) in Run(s, Again(key, at, n + 1), true).1
    decreases n
  {
    hide DoAcquire;
    hide ValidPrincipal;
    hide Separate;
    var ops := Again(key, at, n + 1);
    TakesOneMore(s, at, key);
    var (s', a) := Step(s, ops[0], true);
    assert Run(s, ops, true).1[0] == a;
    if n != 0 {
      FillsUp(s', at, key, n - 1);
      assert ops[1..] == Again(key, at, n);
      assert Run(s, ops, true).1[1..] == Run(s', Again(key, at, n), true).1;
    }
  }

  /** `principal_inflight` can be answered exactly when the principal cap is below the process cap. */
  lemma PrincipalRefusalReachable(limits: Limits, start: real)
    requires ValidLimits(limits)
    ensures (exists ops :: Monotone(ops, start) && Refused(PrincipalInflight, 1) in Run(Init(limits, start), ops, true).1)
              <==> limits.inflightPrincipal < limits.inflightProcess
  {
    InitValid(limits, start);
    if limits.inflightPrincipal < limits.inflightProcess {
      AgainMonotone("p", start, limits.inflightPrincipal + 1);
      FillsUp(Init(limits, start), start, "p", limits.inflightPrincipal);
    } else {
      forall ops | Monotone(ops, start)
        ensures Refused(PrincipalInflight, 1) !in Run(Init(limits, start), ops, true).1
      {
        NeverNamesPrincipal(Init(limits, start), start, ops, true);
        assert Names(Refused(PrincipalInflight, 1), PrincipalInflight);
      }
    }
  }

  /** Neither change pool ever answers `principal_inflight`, whatever is asked of it. */
  lemma ChangePoolsNeverNamePrincipal(l: ChangeLimits, start: real, ops: seq<Op>)
    requires ValidLimits(RecordPool(l)) && ValidLimits(ReadPool(l)) && Monotone(ops, start)
    ensures forall a <- Run(Init(RecordPool(l), start), ops, true).1 :: !Names(a, PrincipalInflight)
    ensures forall a <- Run(Init(ReadPool(l), start), ops, true).1 :: !Names(a, PrincipalInflight)
  {
    InitValid(RecordPool(l), start);
    InitValid(ReadPool(l), start);
    NeverNamesPrincipal(Init(RecordPool(l), start), start, ops, true);
    NeverNamesPrincipal(Init(ReadPool(l), start), start, ops, true);
  }
}
