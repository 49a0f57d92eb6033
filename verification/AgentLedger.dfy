/** Which job endpoint a pull agent claims from, and what it announces (internal/agent/agent.go): generation 4 is tried
    until a 404, then left alone for five minutes; only a 200 proves it. The checks of the core that answers are those of
    internal/api/handlers_agent.go. Times are seconds. */
module AgentLedger {
  import opened Options
  import WorkflowKinds

  const REPROBE_AFTER: int := 300
  const ENVELOPE_V2: int := 2

  /** What an agent is made with: a credential keyring, and the canary executor. */
  datatype Build = Build(credentials: bool, canary: bool)

  /** `absentUntil` is the end of a downgrade. */
  datatype Ledger = Ledger(build: Build, proven: bool, absentUntil: Option<int>)

  function EnvelopeCapability(l: Ledger): int {
    if l.build.credentials then ENVELOPE_V2 else 0
  }

  function LedgerCapability(l: Ledger): int {
    if EnvelopeCapability(l) >= ENVELOPE_V2 && l.proven then 1 else 0
  }

  predicate MayTryLedgerEndpoint(l: Ledger, now: int) {
    EnvelopeCapability(l) >= ENVELOPE_V2 && (l.absentUntil.None? || now >= l.absentUntil.value)
  }

  function ClaimGeneration(l: Ledger): int {
    match EnvelopeCapability(l)
    case 2 => 3
    case 1 => 2
    case _ => 1
  }

  function JobClaimGeneration(l: Ledger, now: int): int {
    if MayTryLedgerEndpoint(l, now) then 4 else ClaimGeneration(l)
  }

  function Absent(l: Ledger, now: int): Ledger {
    l.(proven := false, absentUntil := Some(now + REPROBE_AFTER))
  }

  function Live(l: Ledger): Ledger {
    l.(proven := true, absentUntil := None)
  }

  // ----- claims

  /** A claim as the core sees it; an envelope of 0 and empty kinds stand for no header. */
  datatype Request = Request(generation: int, envelope: int, ledger: bool, kinds: string)

  datatype Answer = NetworkError | Status(code: int)

  /** One poll's claim: when its path was chosen, the answer, when that was noted, and the answer to the fallback. */
  datatype Poll = Poll(chosenAt: int, first: Answer, notedAt: int, second: Answer)

  function SendClaim(l: Ledger, generation: int): Request {
    Request(generation, EnvelopeCapability(l), generation == 4, WorkflowKinds.Header(WorkflowKinds.Announced(l.build.canary)))
  }

  predicate FallsBack(l: Ledger, p: Poll) {
    p.first == Status(404) && JobClaimGeneration(l, p.chosenAt) != ClaimGeneration(l)
  }

  function AfterClaim(l: Ledger, p: Poll): Ledger {
    if FallsBack(l, p) then Absent(l, p.notedAt) else
    if p.first == Status(200) && JobClaimGeneration(l, p.chosenAt) != ClaimGeneration(l) then Live(l) else l
  }

  /** The requests a poll sends, in order. */
  function Sent(l: Ledger, p: Poll): seq<Request> {
    [SendClaim(l, JobClaimGeneration(l, p.chosenAt))]
    + if FallsBack(l, p) then [SendClaim(l, ClaimGeneration(l))] else []
  }

  /** What the poll goes on to decode: the generation of the endpoint whose 200 it holds. */
  function Called(l: Ledger, p: Poll): Option<int> {
    if FallsBack(l, p) then
      if p.second == Status(200) then Some(ClaimGeneration(l)) else None
    else if p.first == Status(200) then Some(JobClaimGeneration(l, p.chosenAt)) else None
  }

  // The agent's own form of the same. Between the calls below other goroutines may read the fields, never write them.
  class Agent {
    const build: Build
    var ledgerProven: bool
    var ledgerAbsentUntil: Option<int>

    function View(): Ledger
      reads this
    {
      Ledger(build, ledgerProven, ledgerAbsentUntil)
    }

    constructor (build: Build)
      ensures View() == Ledger(build, false, None)
    {
      this.build := build;
      ledgerProven, ledgerAbsentUntil := false, None;
    }

    method NoteLedgerEndpointAbsent(now: int) returns (first: bool)
      modifies this
      ensures View() == Absent(old(View()), now) && first == old(ledgerAbsentUntil).None?
    {
      first := ledgerAbsentUntil.None?;
      ledgerProven := false;
      ledgerAbsentUntil := Some(now + REPROBE_AFTER);
    }

    method NoteLedgerEndpointLive()
      modifies this
      ensures View() == Live(old(View()))
    {
      ledgerProven := true;
      ledgerAbsentUntil := None;
    }

    /** One claim against a core that answers as `p` says: the requests sent and the endpoint to decode for. */
    method Claim(p: Poll) returns (sent: seq<Request>, called: Option<int>)
      modifies this
      ensures View() == AfterClaim(old(View()), p)
      ensures sent == Sent(old(View()), p) && called == Called(old(View()), p)
    {
      var generation := JobClaimGeneration(View(), p.chosenAt);
      var older := ClaimGeneration(View());
      sent := [SendClaim(View(), generation)];
      var answer := p.first;
      if answer.NetworkError? { return sent, None; }
      if answer.code == 404 && generation != older {
        var first := NoteLedgerEndpointAbsent(p.notedAt);
        generation := older;
        sent := sent + [SendClaim(View(), generation)];
        answer := p.second;
        if answer.NetworkError? { return sent, None; }
      } else if answer.code == 200 && generation != older {
        NoteLedgerEndpointLive();
      }
      called := if answer.code == 200 then Some(generation) else None;
    }
  }

  // ----- runs

  /** A claim sent to the generation-4 endpoint. */
  datatype Attempt = Attempt(sentAt: int, notedAt: int, answer: Answer)

  function Fresh(build: Build): Ledger { Ledger(build, false, None) }

  function Run(build: Build, polls: seq<Poll>): Ledger {
    if polls == [] then Fresh(build)
    else AfterClaim(Run(build, polls[..|polls| - 1]), polls[|polls| - 1])
  }

  function Attempts(build: Build, polls: seq<Poll>): seq<Attempt> {
    if polls == [] then [] else
    var before, p := polls[..|polls| - 1], polls[|polls| - 1];
    Attempts(build, before)
    + if JobClaimGeneration(Run(build, before), p.chosenAt) == 4 then [Attempt(p.chosenAt, p.notedAt, p.first)] else []
  }

  /** A clock that never goes back. */
  predicate Timely(polls: seq<Poll>) {
    && (forall i :: 0 <= i < |polls| ==> polls[i].chosenAt <= polls[i].notedAt)
    && (forall i, j :: 0 <= i < j < |polls| ==> polls[i].notedAt <= polls[j].chosenAt)
  }

  predicate Telling(a: Attempt) {
    a.answer == Status(200) || a.answer == Status(404)
  }

  /** The latest attempt that answered 200 or 404. */
  function Latest(attempts: seq<Attempt>): Option<Attempt> {
    if attempts == [] then None else
    var last := attempts[|attempts| - 1];
    if Telling(last) then Some(last) else Latest(attempts[..|attempts| - 1])
  }

  /** What the attempts so far say the state is. */
  predicate Follows(l: Ledger, latest: Option<Attempt>) {
    && (l.proven <==> latest.Some? && latest.value.answer == Status(200))
    && l.absentUntil == (if latest.Some? && latest.value.answer == Status(404)
                         then Some(latest.value.notedAt + REPROBE_AFTER) else None)
    && (latest.Some? ==> l.build.credentials && Telling(latest.value))
  }

  lemma LatestAppend(attempts: seq<Attempt>, a: Attempt)
    ensures Latest(attempts + [a]) == if Telling(a) then Some(a) else Latest(attempts)
  {
    assert (attempts + [a])[..|attempts|] == attempts;
  }

  lemma AnswerFollows(l: Ledger, latest: Option<Attempt>, p: Poll)
    requires Follows(l, latest)
    ensures var a := Attempt(p.chosenAt, p.notedAt, p.first);
      Follows(AfterClaim(l, p), if JobClaimGeneration(l, p.chosenAt) == 4 && Telling(a) then Some(a) else latest)
  {}

  /** The whole state is decided by the latest attempt that answered 200 or 404: the agent announces 1 exactly when that
      was a 200, is in a cooldown exactly when it was a 404, and never both. */
  lemma {:induction false} StateFollowsAnswers(build: Build, polls: seq<Poll>)
    ensures var l, latest := Run(build, polls), Latest(Attempts(build, polls));
      && Follows(l, latest) && l.build == build
      && (LedgerCapability(l) == 1 <==> latest.Some? && latest.value.answer == Status(200))
      && (l.proven ==> l.absentUntil.None?)
  {
    if polls != [] {
      var before, p := polls[..|polls| - 1], polls[|polls| - 1];
      StateFollowsAnswers(build, before);
      var l, attempts, a := Run(build, before), Attempts(build, before), Attempt(p.chosenAt, p.notedAt, p.first);
      LatestAppend(attempts, a);
      assert Attempts(build, polls) ==
        if JobClaimGeneration(l, p.chosenAt) == 4 then attempts + [a] else attempts;
      AnswerFollows(l, Latest(attempts), p);
    }
  }

  /** A downgrade is never permanent: generation 4 is tried again from five minutes after the latest 404 on, and at once
      when the latest answer was not a 404. */
  lemma DowngradeEnds(build: Build, polls: seq<Poll>, now: int)
    requires build.credentials
    ensures var latest := Latest(Attempts(build, polls));
      JobClaimGeneration(Run(build, polls), now) == 4 <==>
        (latest.Some? && latest.value.answer == Status(404) ==> now >= latest.value.notedAt + 300)
  {
    StateFollowsAnswers(build, polls);
  }

  /** After a 404, no attempt starts within five minutes. */
  predicate Spaced(attempts: seq<Attempt>) {
    forall i, j :: 0 <= i < j < |attempts| && attempts[i].answer == Status(404) ==>
      attempts[j].sentAt >= attempts[i].notedAt + 300
  }

  /** How long the attempts so far bar the next one. */
  predicate Clear(attempts: seq<Attempt>, now: int) {
    forall i :: 0 <= i < |attempts| && attempts[i].answer == Status(404) ==> now >= attempts[i].notedAt + REPROBE_AFTER
  }

  /** Every attempt before the latest telling one had its five minutes by then. */
  lemma {:induction false} SpacedClear(attempts: seq<Attempt>, now: int)
    requires Spaced(attempts)
    requires forall i :: 0 <= i < |attempts| ==> attempts[i].sentAt <= now
    requires Latest(attempts).Some? && Latest(attempts).value.answer == Status(404) ==>
      now >= Latest(attempts).value.notedAt + REPROBE_AFTER
    ensures Clear(attempts, now)
  {
    if attempts != [] {
      var n := |attempts| - 1;
      if !Telling(attempts[n]) {
        SpacedClear(attempts[..n], now);
      }
      forall i | 0 <= i < |attempts| && attempts[i].answer == Status(404)
        ensures now >= attempts[i].notedAt + REPROBE_AFTER
      {
        if i < n && !Telling(attempts[n]) { assert attempts[..n][i] == attempts[i]; }
      }
    }
  }

  lemma {:induction false} AttemptsSent(build: Build, polls: seq<Poll>, now: int)
    requires Timely(polls) && (forall i :: 0 <= i < |polls| ==> polls[i].notedAt <= now)
    ensures forall i :: 0 <= i < |Attempts(build, polls)| ==> Attempts(build, polls)[i].sentAt <= now
  {
    if polls != [] {
      AttemptsSent(build, polls[..|polls| - 1], now);
    }
  }

  /** Probes that answered 404 are at least five minutes apart, from the note of one to the start of any later attempt. */
  lemma {:induction false} ProbesSpaced(build: Build, polls: seq<Poll>)
    requires Timely(polls)
    ensures Spaced(Attempts(build, polls))
  {
    if polls != [] {
      var before, p := polls[..|polls| - 1], polls[|polls| - 1];
      ProbesSpaced(build, before);
      var attempts := Attempts(build, before);
      if JobClaimGeneration(Run(build, before), p.chosenAt) == 4 {
        StateFollowsAnswers(build, before);
        assert forall i :: 0 <= i < |before| ==> before[i].notedAt <= p.chosenAt;
        AttemptsSent(build, before, p.chosenAt);
        SpacedClear(attempts, p.chosenAt);
      }
    }
  }

  // ----- the core's header checks

  /** The ledger header goes to generation 4 alone, and the core reads exactly the kinds this build runs. */
  predicate Declares(r: Request, build: Build) {
    (r.ledger <==> r.generation == 4) && WorkflowKinds.Declared(r.kinds) == Some(WorkflowKinds.Announced(build.canary))
  }

  predicate CoreAccepts(r: Request) {
    WorkflowKinds.Declared(r.kinds).Some? &&
    match r.generation
    case 1 => true
    case 2 => r.envelope >= 1
    case 3 => r.envelope >= 2
    case 4 => r.ledger && r.envelope >= 2
    case _ => false
  }

  /** Every claim a poll sends, recovery probe and fallback included, declares what its endpoint demands and exactly the
      kinds this build runs; and a 404 from generation 4 costs no poll, the older endpoint is asked at once. */
  lemma ClaimsAccepted(build: Build, polls: seq<Poll>, p: Poll)
    ensures var l := Run(build, polls); var sent := Sent(l, p);
      && (forall i :: 0 <= i < |sent| ==> CoreAccepts(sent[i]) && Declares(sent[i], build))
      && (sent[0].generation == 4 && p.first == Status(404) <==> |sent| == 2 && sent[1].generation == 3)
  {
    hide WorkflowKinds.Declared;
    hide WorkflowKinds.Header;
    hide WorkflowKinds.Announced;
    StateFollowsAnswers(build, polls);
    WorkflowKinds.AnnouncedAccepted(build.canary);
  }

  // ----- the generations a response may stamp

  datatype Stamps = Missing | Null | Malformed | Versions(versions: seq<int>)

  datatype Response = Response(jobs: nat, tokens: nat, stamps: Stamps)

  /** A response whose arrays align, with every stamp in 1..ceiling. */
  predicate Aligned(r: Response, ceiling: int) {
    r.jobs == r.tokens &&
    match r.stamps
    case Missing => true
    case Versions(v) => |v| == r.jobs && forall i :: 0 <= i < |v| ==> 1 <= v[i] <= ceiling
    case _ => false
  }

  /** One generation per job, or none: exactly the aligned responses pass, with the stamps as they came or, for a core
      that does not stamp, the endpoint's own. */
  method ResolveStampedGenerationsAt(endpoint: int, r: Response) returns (out: Option<seq<int>>)
    ensures out.Some? <==> Aligned(r, endpoint)
    ensures out.Some? ==> |out.value| == r.jobs
    ensures out.Some? ==> forall i :: 0 <= i < r.jobs ==>
      out.value[i] == if r.stamps.Missing? then endpoint else r.stamps.versions[i]
  {
    if r.jobs != r.tokens { return None; }
    match r.stamps {
      case Missing =>
        var filled := [];
        for i := 0 to r.jobs
          invariant |filled| == i && forall k :: 0 <= k < i ==> filled[k] == endpoint
        {
          filled := filled + [endpoint];
        }
        return Some(filled);
      case Versions(v) =>
        if |v| != r.jobs { return None; }
        for i := 0 to |v|
          invariant forall k :: 0 <= k < i ==> 1 <= v[k] <= endpoint
        {
          if v[i] < 1 || v[i] > endpoint { return None; }
        }
        return Some(v);
      case _ => return None;
    }
  }

  /** The ceiling is read again when the response is decoded. It is the generation of the endpoint that answered exactly
      when that was generation 4, or the agent holds no credentials, or the cooldown has not ended in the meantime. */
  lemma CeilingOfEndpoint(build: Build, polls: seq<Poll>, p: Poll, decodedAt: int)
    requires Timely(polls + [p]) && p.notedAt <= decodedAt
    requires Called(Run(build, polls), p).Some?
    ensures var l := Run(build, polls); var after := AfterClaim(l, p); var called := Called(l, p).value;
      && called in {1, 3, 4}
      && (JobClaimGeneration(after, decodedAt) == called <==>
        called == 4 || !build.credentials || (after.absentUntil.Some? && decodedAt < after.absentUntil.value))
  {
    StateFollowsAnswers(build, polls);
  }

  /** So a response decoded before its cooldown ends is held to the endpoint's own generation. */
  lemma StampsWithinEndpoint(build: Build, polls: seq<Poll>, p: Poll, decodedAt: int, r: Response)
    requires Timely(polls + [p]) && p.notedAt <= decodedAt
    requires Called(Run(build, polls), p).Some?
    requires var after := AfterClaim(Run(build, polls), p);
      after.absentUntil.Some? ==> decodedAt < after.absentUntil.value
    ensures var l := Run(build, polls);
      Aligned(r, JobClaimGeneration(AfterClaim(l, p), decodedAt)) <==> Aligned(r, Called(l, p).value)
  {
    StateFollowsAnswers(build, polls);
    CeilingOfEndpoint(build, polls, p, decodedAt);
  }

  /** Why the hypothesis is needed: a cooldown that ends while generation 3 holds the request open lets a stamp of 4 in. */
  lemma CooldownEndsInFlight(build: Build)
    requires build.credentials
    ensures var polls := [Poll(0, Status(404), 0, Status(200))];
      var p := Poll(290, Status(200), 290, NetworkError);
      var l := Run(build, polls); var r := Response(1, 1, Versions([4]));
      && Timely(polls + [p]) && Called(l, p) == Some(3)
      && !Aligned(r, 3) && Aligned(r, JobClaimGeneration(AfterClaim(l, p), 305))
  {
    var polls := [Poll(0, Status(404), 0, Status(200))];
    assert polls[..0] == [];
    assert Run(build, polls[..0]) == Fresh(build);
    var p := Poll(290, Status(200), 290, NetworkError);
    var l := Run(build, polls);
    assert l.absentUntil == Some(300);
    assert JobClaimGeneration(l, 290) == 3;
    assert AfterClaim(l, p) == l;
    assert JobClaimGeneration(l, 305) == 4;
    assert Versions([4]).versions[0] == 4;
  }

  /** The ceiling read at decoding is never below the generation of the endpoint that answered. */
  lemma CeilingCoversEndpoint(build: Build, polls: seq<Poll>, p: Poll, decodedAt: int)
    requires Called(Run(build, polls), p).Some?
    ensures var l := Run(build, polls); Called(l, p).value <= JobClaimGeneration(AfterClaim(l, p), decodedAt)
  {
    StateFollowsAnswers(build, polls);
  }

  /** A poll decodes the answer to the last claim it sent, exactly when that was a 200, as coming from the endpoint it was sent to. */
  lemma DecodesLastClaim(l: Ledger, p: Poll)
    ensures var sent := Sent(l, p); var answer := if |sent| == 2 then p.second else p.first;
      && 1 <= |sent| <= 2
      && Called(l, p) == if answer == Status(200) then Some(sent[|sent| - 1].generation) else None
  {}

  /** The core reads the canary kind from a claim exactly when the build has the canary executor, and never another kind. */
  lemma CanaryDeclared(build: Build, polls: seq<Poll>, p: Poll, i: nat)
    requires i < |Sent(Run(build, polls), p)|
    ensures WorkflowKinds.Declared(Sent(Run(build, polls), p)[i].kinds) ==
      Some(if build.canary then ["async_transaction_v1@1"] else [])
  {
    hide WorkflowKinds.Declared;
    hide Sent;
    hide Run;
    ClaimsAccepted(build, polls, p);
  }

  /** No header is idle: without the ledger header, or with an older envelope, the core refuses the claim that carried it. */
  lemma HeadersNeeded(build: Build, polls: seq<Poll>, p: Poll, i: nat)
    requires i < |Sent(Run(build, polls), p)|
    ensures var r := Sent(Run(build, polls), p)[i];
      && (r.generation == 4 ==> !CoreAccepts(r.(ledger := false)) && !CoreAccepts(r.(envelope := 1)))
      && (r.generation == 3 ==> !CoreAccepts(r.(envelope := 1)))
      && (r.generation == 1 <==> !build.credentials) && (r.envelope == 0 <==> !build.credentials)
  {
    hide WorkflowKinds.Declared;
    StateFollowsAnswers(build, polls);
  }
}
