/** One poll of a pull agent (internal/agent/agent.go): gate the whole batch, post the claims, probe, post the results with
    the tokens that retire their jobs, and keep what could not be posted in a bounded edge buffer. Decoding, the executor
    gate and the probes are parameters. */
module AgentBatch {
  import opened Options

  type Token = nat

  /** A decoded job; `identified` says that it carries the fields a ledger claim needs. */
  datatype Job = Job(id: string, identified: bool)

  datatype Outcome = Measured(value: int) | ProbeError(reason: string)

  datatype Heartbeat = Started(job: Job) | Result(job: Job, outcome: Outcome)

  /** What the agent's surroundings make of a payload: `gate` gives the reason a job is refused. */
  datatype Env = Env(decode: string -> Option<Job>, gate: (Job, int) -> Option<string>, probe: Job -> Outcome)

  /** A claimed batch; the three arrays are parallel. */
  datatype Batch = Batch(jobs: seq<string>, tokens: seq<Token>, generations: seq<int>)

  predicate Parallel(b: Batch) {
    |b.jobs| == |b.tokens| == |b.generations|
  }

  predicate Decodable(env: Env, b: Batch, i: nat) {
    i < |b.jobs| && env.decode(b.jobs[i]).Some?
  }

  function JobAt(env: Env, b: Batch, i: nat): Job
    requires Decodable(env, b, i)
  {
    env.decode(b.jobs[i]).value
  }

  function Refusal(env: Env, b: Batch, i: nat): Option<string>
    requires Parallel(b) && Decodable(env, b, i)
  {
    env.gate(JobAt(env, b, i), b.generations[i])
  }

  /** The one answer to a decodable job. */
  function AnswerAt(env: Env, b: Batch, i: nat): Heartbeat
    requires Parallel(b) && Decodable(env, b, i)
  {
    var job, refusal := JobAt(env, b, i), Refusal(env, b, i);
    Result(job, if refusal.Some? then ProbeError(refusal.value) else env.probe(job))
  }

  predicate AllDecodable(env: Env, b: Batch, order: seq<nat>) {
    forall k :: 0 <= k < |order| ==> Decodable(env, b, order[k])
  }

  /** The decodable jobs among the first `n` that the gate refuses, or admits. */
  function Gated(env: Env, b: Batch, n: nat, admits: bool): (order: seq<nat>)
    requires Parallel(b) && n <= |b.jobs|
    ensures AllDecodable(env, b, order)
  {
    if n == 0 then [] else
    var before, i := Gated(env, b, n - 1, admits), n - 1;
    if Decodable(env, b, i) && Refusal(env, b, i).None? == admits then before + [i] else before
  }

  /** The order in which jobs are answered: the refused ones first. */
  function Order(env: Env, b: Batch): (order: seq<nat>)
    requires Parallel(b)
    ensures AllDecodable(env, b, order)
  {
    Gated(env, b, |b.jobs|, false) + Gated(env, b, |b.jobs|, true)
  }

  function Answers(env: Env, b: Batch, order: seq<nat>): (hbs: seq<Heartbeat>)
    requires Parallel(b) && AllDecodable(env, b, order)
    ensures |hbs| == |order| && forall k :: 0 <= k < |order| ==> hbs[k] == AnswerAt(env, b, order[k])
  {
    if order == [] then [] else
    Answers(env, b, order[..|order| - 1]) + [AnswerAt(env, b, order[|order| - 1])]
  }

  function Acks(env: Env, b: Batch, order: seq<nat>): (tokens: seq<Token>)
    requires Parallel(b) && AllDecodable(env, b, order)
    ensures |tokens| == |order| && forall k :: 0 <= k < |order| ==> tokens[k] == b.tokens[order[k]]
  {
    if order == [] then [] else Acks(env, b, order[..|order| - 1]) + [b.tokens[order[|order| - 1]]]
  }

  predicate Ledgered(env: Env, b: Batch, i: nat)
    requires Parallel(b) && Decodable(env, b, i)
  {
    b.generations[i] >= 4 && JobAt(env, b, i).identified
  }

  /** The claims of the jobs in `order` that came on the ledger carrier. */
  function ClaimsOf(env: Env, b: Batch, order: seq<nat>): (hbs: seq<Heartbeat>)
    requires Parallel(b) && AllDecodable(env, b, order)
  {
    if order == [] then [] else
    var before, i := ClaimsOf(env, b, order[..|order| - 1]), order[|order| - 1];
    if Ledgered(env, b, i) then before + [Started(JobAt(env, b, i))] else before
  }

  // ----- a poll, as what it does to the outside

  datatype Event =
    | PostResults(results: seq<Heartbeat>, ack: seq<Token>)
    | PostBackfill(results: seq<Heartbeat>)
    | Probe(job: Job)

  function Probes(env: Env, b: Batch, order: seq<nat>): (events: seq<Event>)
    requires Parallel(b) && AllDecodable(env, b, order)
    ensures |events| == |order| && forall k :: 0 <= k < |order| ==> events[k] == Probe(JobAt(env, b, order[k]))
  {
    if order == [] then [] else
    Probes(env, b, order[..|order| - 1]) + [Probe(JobAt(env, b, order[|order| - 1]))]
  }

  function ClaimPost(claims: seq<Heartbeat>): seq<Event> {
    if claims == [] then [] else [PostResults(claims, [])]
  }

  /** What a poll does, up to its results post. */
  function BatchEvents(env: Env, b: Batch): seq<Event>
    requires Parallel(b)
  {
    if b.jobs == [] then [] else
    var admitted := Gated(env, b, |b.jobs|, true);
    ClaimPost(ClaimsOf(env, b, admitted)) + Probes(env, b, admitted)
    + [PostResults(Answers(env, b, Order(env, b)), Acks(env, b, Order(env, b)))]
  }

  // ----- the agent

  const BUFFER_CAP: nat := 10000

  predicate Keepable(hb: Heartbeat) {
    !(hb.Result? && hb.outcome.ProbeError?)
  }

  function Kept(hbs: seq<Heartbeat>): seq<Heartbeat> {
    if hbs == [] then [] else
    Kept(hbs[..|hbs| - 1]) + if Keepable(hbs[|hbs| - 1]) then [hbs[|hbs| - 1]] else []
  }

  /** Nothing given to the buffer is forgotten: it was flushed, dropped, or is held; and what is held is the newest part, in
      order. */
  ghost predicate Conserved(ever: seq<Heartbeat>, flushed: seq<Heartbeat>, lost: seq<Heartbeat>, buf: seq<Heartbeat>) {
    && multiset(ever) == multiset(flushed) + multiset(lost) + multiset(buf)
    && |buf| <= |ever| && buf == ever[|ever| - |buf|..]
    && AllKeepable(buf)
  }

  predicate AllKeepable(hbs: seq<Heartbeat>) {
    forall i :: 0 <= i < |hbs| ==> Keepable(hbs[i])
  }

  /** What is counted in, out and held adds up. */
  lemma ConservedCounts(ever: seq<Heartbeat>, flushed: seq<Heartbeat>, lost: seq<Heartbeat>, buf: seq<Heartbeat>)
    requires Conserved(ever, flushed, lost, buf)
    ensures |flushed| + |lost| + |buf| == |ever|
  {
    assert |multiset(ever)| == |multiset(flushed) + multiset(lost) + multiset(buf)|;
  }

  lemma {:induction false} KeptKeepable(hbs: seq<Heartbeat>)
    ensures AllKeepable(Kept(hbs))
  {
    if hbs != [] {
      KeptKeepable(hbs[..|hbs| - 1]);
    }
  }

  lemma CountLast(hbs: seq<Heartbeat>, last: Heartbeat, hb: Heartbeat)
    ensures multiset(hbs + [last])[hb] == multiset(hbs)[hb] + if hb == last then 1 else 0
  {}

  /** Exactly the results that are no probe errors are kept, as often as they came. */
  lemma {:induction false} KeptExactly(hbs: seq<Heartbeat>, hb: Heartbeat)
    ensures multiset(Kept(hbs))[hb] == if hb.Result? && hb.outcome.ProbeError? then 0 else multiset(hbs)[hb]
  {
    if hbs != [] {
      var n := |hbs| - 1;
      var before, last := hbs[..n], hbs[n];
      KeptExactly(before, hb);
      CountLast(before, last, hb);
      assert hbs == before + [last];
      if Keepable(last) {
        CountLast(Kept(before), last, hb);
        assert Kept(hbs) == Kept(before) + [last];
      } else {
        assert Kept(hbs) == Kept(before);
      }
    }
  }

  lemma Grown(ever: seq<Heartbeat>, flushed: seq<Heartbeat>, lost: seq<Heartbeat>, buf: seq<Heartbeat>, more: seq<Heartbeat>)
    requires Conserved(ever, flushed, lost, buf) && AllKeepable(more)
    ensures Conserved(ever + more, flushed, lost, buf + more)
  {
    var all := ever + more;
    assert buf + more == all[|all| - |buf + more|..];
  }

  lemma Trimmed(ever: seq<Heartbeat>, flushed: seq<Heartbeat>, lost: seq<Heartbeat>, buf: seq<Heartbeat>, over: nat)
    requires Conserved(ever, flushed, lost, buf) && over <= |buf|
    ensures Conserved(ever, flushed, lost + buf[..over], buf[over..])
  {
    assert buf == buf[..over] + buf[over..];
    assert buf[over..] == ever[|ever| - |buf[over..]|..];
  }

  lemma Drained(ever: seq<Heartbeat>, flushed: seq<Heartbeat>, lost: seq<Heartbeat>, buf: seq<Heartbeat>)
    requires Conserved(ever, flushed, lost, buf)
    ensures Conserved(ever, flushed + buf, lost, [])
  {}

  /** `ever` is every result the buffer was given, in order; `flushed` and `lost` are what left it. */
  class Agent {
    var buf: seq<Heartbeat>
    var dropped: nat
    ghost var ever: seq<Heartbeat>
    ghost var flushed: seq<Heartbeat>
    ghost var lost: seq<Heartbeat>

    ghost predicate Valid()
      reads this
    {
      Conserved(ever, flushed, lost, buf) && dropped == |lost| && |buf| <= BUFFER_CAP
    }

    constructor ()
      ensures Valid() && buf == [] && dropped == 0 && ever == []
    {
      buf, dropped := [], 0;
      ever, flushed, lost := [], [], [];
    }

    method BufferResults(hbs: seq<Heartbeat>)
      requires Valid()
      modifies this
      ensures Valid() && ever == old(ever) + Kept(hbs) && flushed == old(flushed) && dropped >= old(dropped)
      ensures |buf| == if |old(buf)| + |Kept(hbs)| <= 10000 then |old(buf)| + |Kept(hbs)| else 10000
    {
      hide Conserved;
      hide AllKeepable;
      for i := 0 to |hbs|
        invariant buf == old(buf) + Kept(hbs[..i])
        invariant dropped == old(dropped) && ever == old(ever) && flushed == old(flushed) && lost == old(lost)
      {
        assert hbs[..i + 1][..i] == hbs[..i];
        if Keepable(hbs[i]) {
          buf := buf + [hbs[i]];
        }
      }
      assert hbs[..|hbs|] == hbs;
      KeptKeepable(hbs);
      Grown(ever, flushed, lost, old(buf), Kept(hbs));
      ever := ever + Kept(hbs);
      var over := |buf| - BUFFER_CAP;
      if over > 0 {
        Trimmed(ever, flushed, lost, buf, over);
        lost := lost + buf[..over];
        buf := buf[over..];
        dropped := dropped + over;
      }
    }

    /** Posts the buffer as history; on a failure it is all kept. */
    method FlushBuffer(ok: bool) returns (events: seq<Event>)
      requires Valid()
      modifies this
      ensures Valid() && ever == old(ever) && lost == old(lost) && dropped == old(dropped)
      ensures events == if old(buf) == [] then [] else [PostBackfill(old(buf))]
      ensures if ok then buf == [] && flushed == old(flushed) + old(buf) else buf == old(buf) && flushed == old(flushed)
    {
      if buf == [] { return []; }
      events := [PostBackfill(buf)];
      if !ok { return; }
      Drained(ever, flushed, lost, buf);
      flushed := flushed + buf;
      buf := [];
    }

    method PublishClaims(env: Env, b: Batch, admitted: seq<nat>) returns (events: seq<Event>)
      requires Parallel(b) && AllDecodable(env, b, admitted)
      ensures events == ClaimPost(ClaimsOf(env, b, admitted))
    {
      var claims := [];
      for k := 0 to |admitted|
        invariant claims == ClaimsOf(env, b, admitted[..k])
      {
        assert admitted[..k + 1][..k] == admitted[..k];
        var i := admitted[k];
        if Ledgered(env, b, i) {
          claims := claims + [Started(JobAt(env, b, i))];
        }
      }
      assert admitted[..|admitted|] == admitted;
      if claims == [] { return []; }
      return [PostResults(claims, [])];
    }

    /** A poll of a claimed batch. `posted` and `flushes` say whether the core accepts the results and the backfill. */
    method Poll(env: Env, b: Batch, posted: bool, flushes: bool) returns (events: seq<Event>)
      requires Valid() && Parallel(b)
      modifies this
      ensures Valid() && dropped >= old(dropped)
      ensures b.jobs == [] ==> events == [] && ever == old(ever) && buf == old(buf)
      ensures b.jobs != [] && !posted ==>
        events == BatchEvents(env, b) && ever == old(ever) + Kept(Answers(env, b, Order(env, b))) && flushed == old(flushed)
      ensures b.jobs != [] && posted ==>
        && events == BatchEvents(env, b) + (if old(buf) == [] then [] else [PostBackfill(old(buf))])
        && ever == old(ever) && lost == old(lost)
        && flushed == old(flushed) + if flushes then old(buf) else []
    {
      hide Conserved;
      hide Gated;
      hide Answers;
      hide Acks;
      events := [];
      if b.jobs == [] { return; }
      var results, acks, admitted := GatePass(env, b);
      events := PublishClaims(env, b, admitted);
      var probes;
      probes, results, acks := ProbePass(env, b, admitted, results, acks);
      events := events + probes + [PostResults(results, acks)];
      if !posted {
        BufferResults(results);
        return;
      }
      var flush := FlushBuffer(flushes);
      events := events + flush;
    }

    /** Every job crosses the gate before any is claimed or probed; an undecodable one is left alone. */
    method GatePass(env: Env, b: Batch) returns (results: seq<Heartbeat>, acks: seq<Token>, admitted: seq<nat>)
      requires Parallel(b)
      ensures admitted == Gated(env, b, |b.jobs|, true)
      ensures var refused := Gated(env, b, |b.jobs|, false);
        results == Answers(env, b, refused) && acks == Acks(env, b, refused)
    {
      results, acks, admitted := [], [], [];
      for i := 0 to |b.jobs|
        invariant admitted == Gated(env, b, i, true)
        invariant results == Answers(env, b, Gated(env, b, i, false))
        invariant acks == Acks(env, b, Gated(env, b, i, false))
      {
        ghost var refused := Gated(env, b, i, false);
        var job := env.decode(b.jobs[i]);
        if job.Some? {
          var refusal := env.gate(job.value, b.generations[i]);
          if refusal.Some? {
            AppendAnswer(env, b, refused, i);
            results := results + [Result(job.value, ProbeError(refusal.value))];
            if i < |b.tokens| {
              acks := acks + [b.tokens[i]];
            }
          } else {
            admitted := admitted + [i];
          }
        }
      }
    }

    method ProbePass(env: Env, b: Batch, admitted: seq<nat>, refusals: seq<Heartbeat>, refusalAcks: seq<Token>)
      returns (events: seq<Event>, results: seq<Heartbeat>, acks: seq<Token>)
      requires Parallel(b) && admitted == Gated(env, b, |b.jobs|, true)
      requires var refused := Gated(env, b, |b.jobs|, false);
        refusals == Answers(env, b, refused) && refusalAcks == Acks(env, b, refused)
      ensures events == Probes(env, b, admitted)
      ensures results == Answers(env, b, Order(env, b)) && acks == Acks(env, b, Order(env, b))
    {
      hide Gated;
      hide Answers;
      hide Acks;
      hide Probes;
      ghost var refused := Gated(env, b, |b.jobs|, false);
      events, results, acks := [], refusals, refusalAcks;
      assert refused + admitted[..0] == refused;
      for k := 0 to |admitted|
        invariant events == Probes(env, b, admitted[..k])
        invariant AllDecodable(env, b, refused + admitted[..k])
        invariant results == Answers(env, b, refused + admitted[..k]) && acks == Acks(env, b, refused + admitted[..k])
      {
        var i := admitted[k];
        AdmittedAt(env, b, |b.jobs|, k);
        assert admitted[..k + 1] == admitted[..k] + [i];
        assert admitted[..k + 1][..k] == admitted[..k];
        assert refused + admitted[..k + 1] == (refused + admitted[..k]) + [i];
        AppendAnswer(env, b, refused + admitted[..k], i);
        AppendProbe(env, b, admitted[..k], i);
        var job := JobAt(env, b, i);
        events := events + [Probe(job)];
        results := results + [Result(job, env.probe(job))];
        if i < |b.tokens| {
          acks := acks + [b.tokens[i]];
        }
      }
      assert admitted[..|admitted|] == admitted;
    }
  }

  lemma AppendAnswer(env: Env, b: Batch, order: seq<nat>, i: nat)
    requires Parallel(b) && AllDecodable(env, b, order) && Decodable(env, b, i)
    ensures AllDecodable(env, b, order + [i])
    ensures Answers(env, b, order + [i]) == Answers(env, b, order) + [AnswerAt(env, b, i)]
    ensures Acks(env, b, order + [i]) == Acks(env, b, order) + [b.tokens[i]]
  {
    assert (order + [i])[..|order|] == order;
  }

  lemma AppendProbe(env: Env, b: Batch, order: seq<nat>, i: nat)
    requires Parallel(b) && AllDecodable(env, b, order) && Decodable(env, b, i)
    ensures AllDecodable(env, b, order + [i])
    ensures Probes(env, b, order + [i]) == Probes(env, b, order) + [Probe(JobAt(env, b, i))]
  {
    assert (order + [i])[..|order|] == order;
  }

  lemma {:induction false} AdmittedAt(env: Env, b: Batch, n: nat, k: nat)
    requires Parallel(b) && n <= |b.jobs| && k < |Gated(env, b, n, true)|
    ensures Refusal(env, b, Gated(env, b, n, true)[k]).None?
  {
    if k < |Gated(env, b, n - 1, true)| {
      AdmittedAt(env, b, n - 1, k);
    }
  }

  // ----- one result for each decodable job

  lemma {:induction false} GatedMembers(env: Env, b: Batch, n: nat, admits: bool, i: nat)
    requires Parallel(b) && n <= |b.jobs|
    ensures i in Gated(env, b, n, admits) <==> i < n && Decodable(env, b, i) && Refusal(env, b, i).None? == admits
  {
    if n > 0 {
      GatedMembers(env, b, n - 1, admits, i);
    }
  }

  predicate Distinct(order: seq<nat>) {
    forall i, j :: 0 <= i < j < |order| ==> order[i] != order[j]
  }

  lemma {:induction false} GatedDistinct(env: Env, b: Batch, n: nat, admits: bool)
    requires Parallel(b) && n <= |b.jobs|
    ensures Distinct(Gated(env, b, n, admits))
  {
    if n > 0 {
      GatedDistinct(env, b, n - 1, admits);
      GatedMembers(env, b, n - 1, admits, n - 1);
    }
  }

  /** Every decodable job is answered once and retired by its own token, at the same place in both lists; an undecodable
      one is neither answered nor retired. */
  lemma OneResultPerJob(env: Env, b: Batch)
    requires Parallel(b)
    ensures var order := Order(env, b); var results, acks := Answers(env, b, order), Acks(env, b, order);
      && Distinct(order) && (forall i :: i in order <==> Decodable(env, b, i))
      && |results| == |acks| == |order|
      && forall k :: 0 <= k < |order| ==>
        && results[k].Result? && env.decode(b.jobs[order[k]]) == Some(results[k].job)
        && acks[k] == b.tokens[order[k]]
        && (match env.gate(results[k].job, b.generations[order[k]])
            case Some(reason) => results[k].outcome == ProbeError(reason)
            case None => results[k].outcome == env.probe(results[k].job))
  {
    hide Gated;
    var n := |b.jobs|;
    var refused, admitted := Gated(env, b, n, false), Gated(env, b, n, true);
    GatedDistinct(env, b, n, false);
    GatedDistinct(env, b, n, true);
    forall i: nat
      ensures i in Order(env, b) <==> Decodable(env, b, i)
      ensures !(i in refused && i in admitted)
    {
      GatedMembers(env, b, n, false, i);
      GatedMembers(env, b, n, true, i);
    }
    forall x, y | 0 <= x < |refused| && 0 <= y < |admitted|
      ensures refused[x] != admitted[y]
    {
      assert refused[x] in refused && admitted[y] in admitted;
    }
  }

  lemma {:induction false} ClaimsMembers(env: Env, b: Batch, order: seq<nat>, hb: Heartbeat)
    requires Parallel(b) && AllDecodable(env, b, order)
    ensures hb in ClaimsOf(env, b, order) <==>
      exists k :: 0 <= k < |order| && Ledgered(env, b, order[k]) && hb == Started(JobAt(env, b, order[k]))
  {
    if order != [] {
      var n := |order| - 1;
      var before := order[..n];
      ClaimsMembers(env, b, before, hb);
      if hb in ClaimsOf(env, b, before) {
        var k :| 0 <= k < |before| && Ledgered(env, b, before[k]) && hb == Started(JobAt(env, b, before[k]));
        assert order[k] == before[k];
      } else if hb in ClaimsOf(env, b, order) {
        assert order[n] == order[n];
      }
      if k :| 0 <= k < |order| && Ledgered(env, b, order[k]) && hb == Started(JobAt(env, b, order[k])) && k < n {
        assert before[k] == order[k];
      }
    }
  }

  /** A claim of an admitted job of the ledger carrier. */
  predicate ClaimOf(env: Env, b: Batch, i: nat, hb: Heartbeat)
    requires Parallel(b)
  {
    Decodable(env, b, i) && Refusal(env, b, i).None? && Ledgered(env, b, i) && hb == Started(JobAt(env, b, i))
  }

  predicate ProbeOf(env: Env, b: Batch, i: nat, job: Job)
    requires Parallel(b)
  {
    Decodable(env, b, i) && Refusal(env, b, i).None? && job == JobAt(env, b, i)
  }

  /** Claims go out for admitted jobs of the ledger carrier alone, in one post without tokens, before any probe; only
      admitted jobs are probed; the results post comes last, and nothing else is posted. */
  ghost predicate EventSound(env: Env, b: Batch, e: nat)
    requires Parallel(b) && e < |BatchEvents(env, b)|
  {
    var last := |BatchEvents(env, b)| - 1;
    match BatchEvents(env, b)[e]
    case PostResults(hbs, ack) =>
      e == last || (e == 0 && ack == [] && hbs != [] && forall hb :: hb in hbs ==> exists i :: ClaimOf(env, b, i, hb))
    case Probe(job) => e < last && exists i :: ProbeOf(env, b, i, job)
    case PostBackfill(_) => false
  }

  lemma ClaimsPrecedeProbes(env: Env, b: Batch, e: nat)
    requires Parallel(b) && e < |BatchEvents(env, b)|
    ensures EventSound(env, b, e)
  {
    var n := |b.jobs|;
    var admitted := Gated(env, b, n, true);
    var claims := ClaimsOf(env, b, admitted);
    var post, probes := ClaimPost(claims), Probes(env, b, admitted);
    var events := BatchEvents(env, b);
    if e < |post| {
      forall hb | hb in claims
        ensures exists i :: ClaimOf(env, b, i, hb)
      {
        ClaimsMembers(env, b, admitted, hb);
        var k :| 0 <= k < |admitted| && Ledgered(env, b, admitted[k]) && hb == Started(JobAt(env, b, admitted[k]));
        AdmittedAt(env, b, n, k);
        assert ClaimOf(env, b, admitted[k], hb);
      }
    } else if e < |post| + |probes| {
      var k := e - |post|;
      assert events[e] == probes[k];
      AdmittedAt(env, b, n, k);
      assert ProbeOf(env, b, admitted[k], JobAt(env, b, admitted[k]));
    }
  }

  // ----- what a poll posts and probes, told from the batch alone

  /** A heartbeat and a token that settle job `i`: its result, by the gate's reason or by its probe, and its own token. */
  predicate Settles(env: Env, b: Batch, i: nat, hb: Heartbeat, token: Token)
    requires Parallel(b)
  {
    && i < |b.jobs| && token == b.tokens[i] && hb.Result? && env.decode(b.jobs[i]) == Some(hb.job)
    && (match env.gate(hb.job, b.generations[i])
        case Some(reason) => hb.outcome == ProbeError(reason)
        case None => hb.outcome == env.probe(hb.job))
  }

  /** How many of the first `n` jobs decode. */
  function DecodableCount(env: Env, b: Batch, n: nat): nat
    requires n <= |b.jobs|
  {
    if n == 0 then 0 else DecodableCount(env, b, n - 1) + if env.decode(b.jobs[n - 1]).Some? then 1 else 0
  }

  lemma {:induction false} GatedCount(env: Env, b: Batch, n: nat)
    requires Parallel(b) && n <= |b.jobs|
    ensures |Gated(env, b, n, false)| + |Gated(env, b, n, true)| == DecodableCount(env, b, n)
  {
    if n > 0 { GatedCount(env, b, n - 1); }
  }

  /** As many results as tokens, one for each decodable job, each beside the token of the job it settles, and every decodable
      job settled. */
  ghost predicate SettlesBatch(env: Env, b: Batch, results: seq<Heartbeat>, ack: seq<Token>)
    requires Parallel(b)
  {
    && |results| == |ack| == DecodableCount(env, b, |b.jobs|)
    && (forall k :: 0 <= k < |ack| ==> SettlesSome(env, b, results[k], ack[k]))
    && (forall i :: Decodable(env, b, i) ==> SettledIn(env, b, i, results, ack))
  }

  ghost predicate SettlesSome(env: Env, b: Batch, hb: Heartbeat, token: Token)
    requires Parallel(b)
  {
    exists i :: Settles(env, b, i, hb, token)
  }

  ghost predicate SettledIn(env: Env, b: Batch, i: nat, results: seq<Heartbeat>, ack: seq<Token>)
    requires Parallel(b) && |results| == |ack|
  {
    exists k :: 0 <= k < |ack| && Settles(env, b, i, results[k], ack[k])
  }

  lemma AnswersSettle(env: Env, b: Batch)
    requires Parallel(b)
    ensures SettlesBatch(env, b, Answers(env, b, Order(env, b)), Acks(env, b, Order(env, b)))
  {
    hide SettlesBatch;
    hide Answers;
    hide Acks;
    hide Gated;
    OneResultPerJob(env, b);
    GatedCount(env, b, |b.jobs|);
    OrderSettles(env, b, Order(env, b));
  }

  lemma OrderSettles(env: Env, b: Batch, order: seq<nat>)
    requires Parallel(b) && AllDecodable(env, b, order) && |order| == DecodableCount(env, b, |b.jobs|)
    requires forall i :: Decodable(env, b, i) ==> i in order
    ensures SettlesBatch(env, b, Answers(env, b, order), Acks(env, b, order))
  {
    hide Settles;
    hide Answers;
    hide Acks;
    hide AllDecodable;
    hide DecodableCount;
    hide AnswerAt;
    var results, ack := Answers(env, b, order), Acks(env, b, order);
    forall k | 0 <= k < |ack|
      ensures SettlesSome(env, b, results[k], ack[k])
    {
      SettledAt(env, b, order, k);
    }
    forall i: nat | Decodable(env, b, i)
      ensures SettledIn(env, b, i, results, ack)
    {
      assert i in order;
      var k :| 0 <= k < |order| && order[k] == i;
      SettledAt(env, b, order, k);
    }
  }

  lemma SettledAt(env: Env, b: Batch, order: seq<nat>, k: nat)
    requires Parallel(b) && AllDecodable(env, b, order) && k < |order|
    ensures Settles(env, b, order[k], Answers(env, b, order)[k], Acks(env, b, order)[k])
  {
    hide Answers;
    hide Acks;
    assert Decodable(env, b, order[k]);
  }

  lemma LastEvent(env: Env, b: Batch)
    requires Parallel(b) && b.jobs != []
    ensures var events := BatchEvents(env, b);
      events != [] && events[|events| - 1] == PostResults(Answers(env, b, Order(env, b)), Acks(env, b, Order(env, b)))
  {
    hide Gated;
    hide Order;
    hide Answers;
    hide Acks;
    hide ClaimsOf;
    hide Probes;
  }

  /** The last event of a poll is the results post, and it settles the batch. */
  lemma ResultsPost(env: Env, b: Batch)
    requires Parallel(b) && b.jobs != []
    ensures var events := BatchEvents(env, b);
      && events != [] && events[|events| - 1].PostResults?
      && SettlesBatch(env, b, events[|events| - 1].results, events[|events| - 1].ack)
  {
    hide BatchEvents;
    hide SettlesBatch;
    LastEvent(env, b);
    AnswersSettle(env, b);
  }

  /** The jobs a list of events probes, in order. */
  function ProbedIn(events: seq<Event>): seq<Job> {
    if events == [] then [] else
    ProbedIn(events[..|events| - 1]) + match events[|events| - 1] case Probe(job) => [job] case _ => []
  }

  /** The jobs of the first `n` that decode and pass the gate and, for claims, came on the ledger carrier with their identity. */
  function AdmittedJobs(env: Env, b: Batch, n: nat, ledger: bool): seq<Job>
    requires Parallel(b) && n <= |b.jobs|
  {
    if n == 0 then [] else
    AdmittedJobs(env, b, n - 1, ledger) +
    match env.decode(b.jobs[n - 1])
    case None => []
    case Some(job) =>
      if env.gate(job, b.generations[n - 1]).None? && (ledger ==> b.generations[n - 1] >= 4 && job.identified) then [job] else []
  }

  lemma {:induction false} ProbedAppend(a: seq<Event>, c: seq<Event>)
    ensures ProbedIn(a + c) == ProbedIn(a) + ProbedIn(c)
  {
    if c == [] {
      assert a + c == a;
    } else {
      var n := |c| - 1;
      assert (a + c)[..|a| + n] == a + c[..n];
      ProbedAppend(a, c[..n]);
    }
  }

  lemma {:induction false} ProbesOfGated(env: Env, b: Batch, n: nat)
    requires Parallel(b) && n <= |b.jobs|
    ensures ProbedIn(Probes(env, b, Gated(env, b, n, true))) == AdmittedJobs(env, b, n, false)
  {
    if n > 0 {
      hide Probes;
      hide Gated;
      hide AdmittedJobs;
      hide ProbedIn;
      ProbesOfGated(env, b, n - 1);
      ProbesStep(env, b, n - 1, Gated(env, b, n - 1, true));
    }
  }

  lemma ProbesStep(env: Env, b: Batch, i: nat, before: seq<nat>)
    requires Parallel(b) && i < |b.jobs| && before == Gated(env, b, i, true)
    requires ProbedIn(Probes(env, b, before)) == AdmittedJobs(env, b, i, false)
    ensures ProbedIn(Probes(env, b, Gated(env, b, i + 1, true))) == AdmittedJobs(env, b, i + 1, false)
  {
    hide Probes;
    if Decodable(env, b, i) && Refusal(env, b, i).None? {
      AppendProbe(env, b, before, i);
      ProbedOne(Probes(env, b, before), JobAt(env, b, i));
    }
  }

  lemma ProbedOne(events: seq<Event>, job: Job)
    ensures ProbedIn(events + [Probe(job)]) == ProbedIn(events) + [job]
  {
    assert (events + [Probe(job)])[..|events|] == events;
  }

  /** A poll probes exactly the jobs that decode and pass the gate, once each, in batch order. */
  lemma ProbesExactly(env: Env, b: Batch)
    requires Parallel(b)
    ensures ProbedIn(BatchEvents(env, b)) == AdmittedJobs(env, b, |b.jobs|, false)
  {
    hide Gated;
    hide Probes;
    hide Answers;
    hide Acks;
    hide ClaimsOf;
    hide Order;
    hide AdmittedJobs;
    if b.jobs == [] {
      NoneAdmitted(env, b);
    } else {
      var admitted := Gated(env, b, |b.jobs|, true);
      var post, probes := ClaimPost(ClaimsOf(env, b, admitted)), Probes(env, b, admitted);
      var last := [PostResults(Answers(env, b, Order(env, b)), Acks(env, b, Order(env, b)))];
      ProbesOfGated(env, b, |b.jobs|);
      ProbedAppend(post + probes, last);
      ProbedAppend(post, probes);
      assert ProbedIn(last) == [] && ProbedIn(post) == [];
    }
  }

  lemma NoneAdmitted(env: Env, b: Batch)
    requires Parallel(b)
    ensures AdmittedJobs(env, b, 0, false) == []
  {}

  function StartedOf(jobs: seq<Job>): seq<Heartbeat> {
    seq(|jobs|, i requires 0 <= i < |jobs| => Started(jobs[i]))
  }

  lemma {:induction false} ClaimsOfGated(env: Env, b: Batch, n: nat)
    requires Parallel(b) && n <= |b.jobs|
    ensures ClaimsOf(env, b, Gated(env, b, n, true)) == StartedOf(AdmittedJobs(env, b, n, true))
  {
    if n > 0 {
      ClaimsOfGated(env, b, n - 1);
      var before := Gated(env, b, n - 1, true);
      assert (before + [n - 1])[..|before|] == before;
    }
  }

  /** A poll claims exactly the admitted jobs of the ledger carrier, in one post without tokens that comes first; with none
      to claim it starts with its probes. */
  lemma ClaimsExactly(env: Env, b: Batch)
    requires Parallel(b) && b.jobs != []
    ensures var claims := StartedOf(AdmittedJobs(env, b, |b.jobs|, true)); var events := BatchEvents(env, b);
      if claims != [] then events[0] == PostResults(claims, []) && |events| >= 2
      else events[0].Probe? || |events| == 1
  {
    hide Gated;
    hide Probes;
    ClaimsOfGated(env, b, |b.jobs|);
    var admitted := Gated(env, b, |b.jobs|, true);
    assert BatchEvents(env, b)[|BatchEvents(env, b)| - 1].PostResults?;
    if ClaimsOf(env, b, admitted) == [] && admitted != [] {
      assert BatchEvents(env, b)[0] == Probes(env, b, admitted)[0];
    }
  }
}
