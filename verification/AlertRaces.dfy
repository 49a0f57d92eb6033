/** Alertmanager deliveries that overlap (internal/api/handlers_alertmanager.go). The read of the open incident and the
    write that follows are separate steps, any other delivery or operator may act between them, and a store call may
    fail with or without effect. A delivery is known by its index; operators are known as -1. */
module AlertRaces {
  import opened AlertReceiver
  import opened IncidentTable
  import opened Options

  const OPERATOR: int := -1

  datatype Phase = Ready | Creating | Closing(row: nat) | Done | Broken

  datatype Request = Request(project: string, alerts: seq<Alert>, next: nat, phase: Phase,
                             opens: nat, closes: nat, ignores: nat)

  datatype World = World(rows: seq<Row>, requests: seq<Request>)

  datatype Action =
    | Arrive(project: string, alerts: seq<Alert>)
    | Look(d: nat)
    | LookFails(d: nat)
    | Write(d: nat)
    | WriteFails(d: nat, applied: bool)
    | OperatorOpens(project: string, key: string)
    | OperatorCloses(row: nat)

  function Ignore(r: Request): Request {
    r.(phase := Ready, next := r.next + 1, ignores := r.ignores + 1)
  }

  /** The handler's loop up to its next write: skip, finish, or read the open incident. */
  function AfterLook(rows: seq<Row>, r: Request): Request {
    if !r.phase.Ready? then r else
    if r.next >= |r.alerts| then r.(phase := Done) else
    var a := r.alerts[r.next];
    if EffectOf(a).Skip? then Ignore(r) else
    var found := FindOpen(rows, r.project, Key(a));
    if found.Some? == EffectOf(a).Open? then Ignore(r) else
    if found.Some? then r.(phase := Closing(found.value)) else r.(phase := Creating)
  }

  /** The rows a pending write would leave: none when there is no such write or the store turns it down. */
  function Written(rows: seq<Row>, r: Request, d: int): Option<seq<Row>> {
    match r.phase
    case Creating => if r.next < |r.alerts| then Create(rows, r.project, Key(r.alerts[r.next]), d) else None
    case Closing(i) => if i < |rows| then Resolve(rows, i, d) else None
    case _ => None
  }

  function Counted(r: Request): Request {
    var done := r.(phase := Ready, next := r.next + 1);
    if r.phase.Creating? then done.(opens := r.opens + 1) else done.(closes := r.closes + 1)
  }

  predicate Writing(r: Request) {
    r.phase.Creating? || r.phase.Closing?
  }

  function Update(w: World, d: nat, rows: seq<Row>, r: Request): World
    requires d < |w.requests|
  {
    World(rows, w.requests[d := r])
  }

  function Apply(w: World, act: Action): World {
    match act
    case Arrive(project, alerts) => w.(requests := w.requests + [Request(project, alerts, 0, Ready, 0, 0, 0)])
    case Look(d) => if d < |w.requests| then Update(w, d, w.rows, AfterLook(w.rows, w.requests[d])) else w
    case LookFails(d) =>
      if d < |w.requests| && w.requests[d].phase.Ready? then Update(w, d, w.rows, w.requests[d].(phase := Broken)) else w
    case Write(d) =>
      if d >= |w.requests| || !Writing(w.requests[d]) then w else
      var r := w.requests[d];
      var rows := Written(w.rows, r, d);
      if rows.None? then Update(w, d, w.rows, Ignore(r)) else Update(w, d, rows.value, Counted(r))
    case WriteFails(d, applied) =>
      if d >= |w.requests| || !Writing(w.requests[d]) then w else
      var r := w.requests[d];
      var rows := Written(w.rows, r, d);
      Update(w, d, if applied && rows.Some? then rows.value else w.rows, r.(phase := Broken))
    case OperatorOpens(project, key) =>
      var rows := Create(w.rows, project, key, OPERATOR);
      if rows.None? then w else w.(rows := rows.value)
    case OperatorCloses(i) =>
      if i >= |w.rows| then w else
      var rows := Resolve(w.rows, i, OPERATOR);
      if rows.None? then w else w.(rows := rows.value)
  }

  function Run(w: World, acts: seq<Action>): World {
    if acts == [] then w else Apply(Run(w, acts[..|acts| - 1]), acts[|acts| - 1])
  }

  // ----- the invariant

  function One(b: bool): nat { if b then 1 else 0 }

  /** How many rows a request opened, and how many it closed. */
  function OpenedBy(rows: seq<Row>, d: int): nat {
    if rows == [] then 0 else OpenedBy(rows[..|rows| - 1], d) + One(rows[|rows| - 1].openedBy == d)
  }

  function ClosedBy(rows: seq<Row>, d: int): nat {
    if rows == [] then 0 else ClosedBy(rows[..|rows| - 1], d) + One(rows[|rows| - 1].closedBy == d && !rows[|rows| - 1].open)
  }

  /** A request's counters: each alert handled is counted once, and the counts are the rows it opened and closed. A
      broken one may have written one row it did not count. */
  predicate Sound(rows: seq<Row>, d: nat, r: Request) {
    && r.next <= |r.alerts| && r.opens + r.closes + r.ignores == r.next
    && (Writing(r) ==> r.next < |r.alerts| && Key(r.alerts[r.next]) != "")
    && (r.phase.Creating? ==> EffectOf(r.alerts[r.next]).Open?)
    && (r.phase.Closing? ==> EffectOf(r.alerts[r.next]).Close? && Target(rows, r, r.phase.row))
    && (r.phase.Done? ==> r.next == |r.alerts|)
    && Tally(OpenedBy(rows, d), ClosedBy(rows, d), r)
  }

  predicate Target(rows: seq<Row>, r: Request, i: nat) {
    i < |rows| && rows[i].project == r.project && r.next < |r.alerts| && rows[i].key == Key(r.alerts[r.next])
  }

  predicate Tally(opened1: nat, closed1: nat, r: Request) {
    if r.phase.Broken? then
      r.opens <= opened1 && r.closes <= closed1 && opened1 + closed1 <= r.opens + r.closes + 1
    else opened1 == r.opens && closed1 == r.closes
  }

  predicate AllSound(rows: seq<Row>, requests: seq<Request>) {
    forall d :: 0 <= d < |requests| ==> Sound(rows, d, requests[d])
  }

  /** Rows are opened and closed by operators or by requests that have arrived. */
  predicate Known(rows: seq<Row>, n: nat) {
    forall i :: 0 <= i < |rows| ==> rows[i].openedBy < n && (!rows[i].open ==> rows[i].closedBy < n)
  }

  predicate Inv(w: World) {
    OneOpen(w.rows) && Known(w.rows, |w.requests|) && AllSound(w.rows, w.requests)
  }

  // ----- what a write does to the counts

  lemma CountAppend(rows: seq<Row>, row: Row, d: int)
    ensures OpenedBy(rows + [row], d) == OpenedBy(rows, d) + One(row.openedBy == d)
    ensures ClosedBy(rows + [row], d) == ClosedBy(rows, d) + One(row.closedBy == d && !row.open)
  {
    assert (rows + [row])[..|rows|] == rows;
  }

  lemma {:induction false} CountClose(rows: seq<Row>, i: nat, who: int, d: int)
    requires i < |rows| && rows[i].open
    ensures var after := rows[i := rows[i].(open := false, closedBy := who)];
      OpenedBy(after, d) == OpenedBy(rows, d) && ClosedBy(after, d) == ClosedBy(rows, d) + One(who == d)
  {
    var n := |rows| - 1;
    var after := rows[i := rows[i].(open := false, closedBy := who)];
    if i == n {
      assert after[..n] == rows[..n];
    } else {
      CountClose(rows[..n], i, who, d);
      assert after[..n] == rows[..n][i := rows[..n][i].(open := false, closedBy := who)];
    }
  }

  lemma {:induction false} NoneUnknown(rows: seq<Row>, n: nat)
    requires Known(rows, n)
    ensures OpenedBy(rows, n) == 0 && ClosedBy(rows, n) == 0
  {
    if rows != [] {
      NoneUnknown(rows[..|rows| - 1], n);
    }
  }

  /** One write, by anyone: what it adds to anyone's counts, and that it moves no row. */
  ghost predicate OneWrite(rows: seq<Row>, after: seq<Row>, who: int, create: bool) {
    && OneOpen(after) && |rows| <= |after|
    && (forall i :: 0 <= i < |rows| ==> after[i].project == rows[i].project && after[i].key == rows[i].key)
    && (forall d {:trigger OpenedBy(after, d)} {:trigger ClosedBy(after, d)} ::
          && OpenedBy(after, d) == OpenedBy(rows, d) + One(create && who == d)
          && ClosedBy(after, d) == ClosedBy(rows, d) + One(!create && who == d))
    && (forall n: nat :: who < n && Known(rows, n) ==> Known(after, n))
  }

  lemma CreateWrites(rows: seq<Row>, project: string, key: string, who: int)
    requires OneOpen(rows) && Create(rows, project, key, who).Some?
    ensures OneWrite(rows, Create(rows, project, key, who).value, who, true)
  {
    hide FindOpen;
    hide OneOpen;
    hide OpenedBy;
    hide ClosedBy;
    CreateKeeps(rows, project, key, who);
    forall d: int
      ensures var after := Create(rows, project, key, who).value;
        OpenedBy(after, d) == OpenedBy(rows, d) + One(who == d) && ClosedBy(after, d) == ClosedBy(rows, d)
    {
      CountAppend(rows, Row(project, key, true, who, -1), d);
    }
  }

  lemma ResolveWrites(rows: seq<Row>, i: nat, who: int)
    requires OneOpen(rows) && i < |rows| && Resolve(rows, i, who).Some?
    ensures OneWrite(rows, Resolve(rows, i, who).value, who, false)
  {
    hide OneOpen;
    hide OpenedBy;
    hide ClosedBy;
    ResolveKeeps(rows, i, who);
    forall d: int
      ensures var after := Resolve(rows, i, who).value;
        OpenedBy(after, d) == OpenedBy(rows, d) && ClosedBy(after, d) == ClosedBy(rows, d) + One(who == d)
    {
      CountClose(rows, i, who, d);
    }
  }

  lemma PendingWrites(rows: seq<Row>, r: Request, d: nat)
    requires OneOpen(rows) && Writing(r) && Written(rows, r, d).Some?
    ensures OneWrite(rows, Written(rows, r, d).value, d, r.phase.Creating?)
  {
    hide OneWrite;
    if r.phase.Creating? {
      CreateWrites(rows, r.project, Key(r.alerts[r.next]), d);
    } else {
      ResolveWrites(rows, r.phase.row, d);
    }
  }

  /** Somebody else's write leaves a request sound. */
  lemma BystanderSound(rows: seq<Row>, after: seq<Row>, who: int, create: bool, d: nat, r: Request)
    requires OneWrite(rows, after, who, create) && who != d && Sound(rows, d, r)
    ensures Sound(after, d, r)
  {
    hide OpenedBy;
    hide ClosedBy;
    hide EffectOf;
    hide OneOpen;
    assert OpenedBy(after, d) == OpenedBy(rows, d) && ClosedBy(after, d) == ClosedBy(rows, d);
  }

  lemma OwnWriteSound(rows: seq<Row>, after: seq<Row>, d: nat, r: Request)
    requires Writing(r) && OneWrite(rows, after, d, r.phase.Creating?) && Sound(rows, d, r)
    ensures Sound(after, d, Counted(r)) && Sound(after, d, r.(phase := Broken))
  {
    hide OpenedBy;
    hide ClosedBy;
    hide EffectOf;
    hide OneOpen;
    assert OpenedBy(after, d) == OpenedBy(rows, d) + One(r.phase.Creating?);
    assert ClosedBy(after, d) == ClosedBy(rows, d) + One(!r.phase.Creating?);
  }

  lemma LookSound(rows: seq<Row>, d: nat, r: Request)
    requires Sound(rows, d, r)
    ensures Sound(rows, d, AfterLook(rows, r))
    ensures !Writing(r) && !r.phase.Done? ==> Sound(rows, d, r.(phase := Broken))
    ensures Writing(r) ==> Sound(rows, d, Ignore(r)) && Sound(rows, d, r.(phase := Broken))
  {
    hide OpenedBy;
    hide ClosedBy;
    hide FindOpen;
    hide Lower;
  }

  /** The invariant after one request took a step that wrote one row or none. */
  lemma StepKeeps(w: World, d: nat, after: seq<Row>, r: Request, create: bool)
    requires Inv(w) && d < |w.requests| && Sound(after, d, r)
    requires after == w.rows || OneWrite(w.rows, after, d, create)
    ensures Inv(Update(w, d, after, r))
  {
    hide Sound;
    hide OneOpen;
    hide OpenedBy;
    hide ClosedBy;
    var w' := Update(w, d, after, r);
    forall e | 0 <= e < |w'.requests|
      ensures Sound(after, e, w'.requests[e])
    {
      if e != d && after != w.rows {
        BystanderSound(w.rows, after, d, create, e, w.requests[e]);
      }
    }
  }

  lemma OutsiderKeeps(w: World, after: seq<Row>, create: bool)
    requires Inv(w) && OneWrite(w.rows, after, OPERATOR, create)
    ensures Inv(w.(rows := after))
  {
    hide Sound;
    hide OneOpen;
    hide OpenedBy;
    hide ClosedBy;
    forall e | 0 <= e < |w.requests|
      ensures Sound(after, e, w.requests[e])
    {
      BystanderSound(w.rows, after, OPERATOR, create, e, w.requests[e]);
    }
  }

  lemma ArriveKeeps(w: World, project: string, alerts: seq<Alert>)
    requires Inv(w)
    ensures Inv(Apply(w, Arrive(project, alerts)))
  {
    hide OneOpen;
    hide OpenedBy;
    hide ClosedBy;
    NoneUnknown(w.rows, |w.requests|);
    var w' := Apply(w, Arrive(project, alerts));
    assert Sound(w.rows, |w.requests|, w'.requests[|w.requests|]);
    forall e | 0 <= e < |w'.requests|
      ensures Sound(w.rows, e, w'.requests[e])
    {
      if e < |w.requests| { assert w'.requests[e] == w.requests[e]; }
    }
  }

  lemma ActionKeeps(w: World, act: Action)
    requires Inv(w)
    ensures Inv(Apply(w, act))
  {
    hide Sound;
    hide OneOpen;
    hide OneWrite;
    hide AfterLook;
    hide Written;
    hide Counted;
    hide Create;
    hide Resolve;
    hide Known;
    match act
    case Arrive(project, alerts) => ArriveKeeps(w, project, alerts);
    case Look(d) =>
      if d < |w.requests| {
        LookSound(w.rows, d, w.requests[d]);
        StepKeeps(w, d, w.rows, AfterLook(w.rows, w.requests[d]), true);
      }
    case LookFails(d) =>
      if d < |w.requests| && w.requests[d].phase.Ready? {
        LookSound(w.rows, d, w.requests[d]);
        StepKeeps(w, d, w.rows, w.requests[d].(phase := Broken), true);
      }
    case Write(d) =>
      if d < |w.requests| && Writing(w.requests[d]) {
        var r := w.requests[d];
        var rows := Written(w.rows, r, d);
        LookSound(w.rows, d, r);
        if rows.None? {
          StepKeeps(w, d, w.rows, Ignore(r), true);
        } else {
          PendingWrites(w.rows, r, d);
          OwnWriteSound(w.rows, rows.value, d, r);
          StepKeeps(w, d, rows.value, Counted(r), r.phase.Creating?);
        }
      }
    case WriteFails(d, applied) =>
      if d < |w.requests| && Writing(w.requests[d]) {
        var r := w.requests[d];
        var rows := Written(w.rows, r, d);
        LookSound(w.rows, d, r);
        if applied && rows.Some? {
          PendingWrites(w.rows, r, d);
          OwnWriteSound(w.rows, rows.value, d, r);
          StepKeeps(w, d, rows.value, r.(phase := Broken), r.phase.Creating?);
        } else {
          StepKeeps(w, d, w.rows, r.(phase := Broken), true);
        }
      }
    case OperatorOpens(project, key) =>
      if Create(w.rows, project, key, OPERATOR).Some? {
        CreateWrites(w.rows, project, key, OPERATOR);
        OutsiderKeeps(w, Create(w.rows, project, key, OPERATOR).value, true);
      }
    case OperatorCloses(i) =>
      if i < |w.rows| && Resolve(w.rows, i, OPERATOR).Some? {
        ResolveWrites(w.rows, i, OPERATOR);
        OutsiderKeeps(w, Resolve(w.rows, i, OPERATOR).value, false);
      }
  }

  lemma {:induction false} RunKeeps(w: World, acts: seq<Action>)
    requires Inv(w)
    ensures Inv(Run(w, acts))
  {
    hide Inv;
    hide Apply;
    if acts != [] {
      RunKeeps(w, acts[..|acts| - 1]);
      ActionKeeps(Run(w, acts[..|acts| - 1]), acts[|acts| - 1]);
    }
  }

  /** In every interleaving: a key never has two open incidents, and a delivery that answers 200 has counted every alert
      once and reports exactly the incidents it opened and the incidents it closed. */
  lemma RacesAreBenign(rows: seq<Row>, acts: seq<Action>, d: nat)
    requires OneOpen(rows) && Known(rows, 0)
    ensures var w := Run(World(rows, []), acts);
      && OneOpen(w.rows)
      && (d < |w.requests| && w.requests[d].phase.Done? ==>
        var r := w.requests[d];
        && r.opens + r.closes + r.ignores == |r.alerts|
        && r.opens == OpenedBy(w.rows, d) && r.closes == ClosedBy(w.rows, d))
  {
    hide Apply;
    hide OneOpen;
    hide Run;
    RunKeeps(World(rows, []), acts);
    var w := Run(World(rows, []), acts);
    if d < |w.requests| {
      assert Sound(w.rows, d, w.requests[d]);
    }
  }

  /** A write with nothing in between is the sequential handler's step. */
  lemma AloneIsSequential(rows: seq<Row>, r: Request, d: nat)
    requires r.phase.Ready? && r.next < |r.alerts|
    ensures var (after, v) := Handled(rows, r.project, r.alerts[r.next], Works, d);
      var w := World(rows, seq(d, i => r) + [r]);
      var seen := Apply(w, Look(d));
      var end := if Writing(seen.requests[d]) then Apply(seen, Write(d)) else seen;
      && end.rows == after
      && end.requests[d] == (match v
        case Opened => r.(next := r.next + 1, opens := r.opens + 1)
        case Resolved => r.(next := r.next + 1, closes := r.closes + 1)
        case Ignored => r.(next := r.next + 1, ignores := r.ignores + 1)
        case Failed => r)
  {
    hide FindOpen;
    hide Lower;
  }

  /** A delivery that has handled every alert answers at its next step, and one that has not does not. */
  lemma FinishesWhenHandled(w: World, d: nat)
    requires d < |w.requests| && w.requests[d].phase.Ready?
    ensures Apply(w, Look(d)).requests[d].phase.Done? <==> w.requests[d].next >= |w.requests[d].alerts|
  {
    hide FindOpen;
    hide EffectOf;
  }
}
