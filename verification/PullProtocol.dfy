/** The life of a queued job between a core and its pull agents (internal/agent/agent.go, internal/api/handlers_agent.go and
    the queue of internal/store/pulljobs.go). Requests and responses may be lost, delayed or repeated: a message, once
    sent, may be handled at any later time, any number of times, or never. Any number of agents act, and may stop at any
    point. Tokens and rows are numbered as they are issued. */
module PullProtocol {
  import opened AgentBatch
  import AgentLedger
  import opened Options

  type Generation = g: int | 1 <= g <= 4 witness 1

  /** A queued job: the region and carrier it goes to, the workflow kind it needs, its own lease if it asked for one, and
      the claim it is under. */
  datatype Row = Row(region: string, generation: Generation, kind: Option<string>, lease: Option<nat>,
                     token: Option<Token>, leaseUntil: int)

  /** What a claim asks for; `lease` is for rows without their own. */
  datatype Claim = Claim(region: string, endpoint: Generation, max: nat, lease: nat, kinds: seq<string>)

  /** How a row left the queue. `Acked` holds the results of the request that retired it. */
  datatype Fate = Waiting | Purged(at: int) | Acked(results: seq<Heartbeat>)

  datatype Message =
    | Delivery(endpoint: Generation, batch: Batch)
    | Post(results: seq<Heartbeat>, ack: seq<Token>)

  /** `payloads`, `expiries` and `fates` tell of every row ever queued; `issued` gives the row of each token. */
  datatype World = World(now: int, queue: map<nat, Row>, payloads: seq<string>, expiries: seq<int>, fates: seq<Fate>,
                         issued: seq<nat>, network: set<Message>, sink: seq<Heartbeat>)

  const EMPTY: World := World(0, map[], [], [], [], [], {}, [])

  datatype Action =
    | Enqueue(payload: string, row: Row, expiresAt: int)
    | Tick(later: nat)
    | Purge
    | CoreClaims(ids: seq<nat>, claim: Claim)
    | AgentPosts(endpoint: Generation, batch: Batch, gate: (Job, int) -> Option<string>, probe: Job -> Outcome, e: nat)
    | CoreReceives(post: Message, published: nat, acks: bool)

  predicate Claimable(w: World, id: nat) {
    && id in w.queue && id < |w.expiries| && w.expiries[id] > w.now
    && (w.queue[id].token.None? || w.queue[id].leaseUntil <= w.now)
  }

  /** The rows a claim may have: those of its region, of its endpoint's generation or older, and of a kind it declared. */
  predicate Selects(c: Claim, row: Row) {
    row.region == c.region && row.generation <= c.endpoint && (row.kind.None? || row.kind.value in c.kinds)
  }

  predicate MayClaim(w: World, ids: seq<nat>, c: Claim) {
    && Distinct(ids) && |ids| <= c.max
    && forall k :: 0 <= k < |ids| ==> Claimable(w, ids[k]) && Selects(c, w.queue[ids[k]]) && ids[k] < |w.payloads|
  }

  /** The leased rows as a claim response carries them: fresh tokens, in parallel with the jobs. */
  function Leased(w: World, ids: seq<nat>, c: Claim): Batch
    requires MayClaim(w, ids, c)
  {
    Batch(seq(|ids|, k requires 0 <= k < |ids| => w.payloads[ids[k]]),
          seq(|ids|, k requires 0 <= k < |ids| => |w.issued| + k),
          seq(|ids|, k requires 0 <= k < |ids| => w.queue[ids[k]].generation))
  }

  function IndexOf(ids: seq<nat>, id: nat): (k: nat)
    requires id in ids
    ensures k < |ids| && ids[k] == id
  {
    if ids[0] == id then 0 else 1 + IndexOf(ids[1..], id)
  }

  /** How long a claim keeps a row: the row's own lease, or the claim's. */
  function LeaseOf(row: Row, c: Claim): nat {
    if row.lease.Some? then row.lease.value else c.lease
  }

  function Lease(w: World, ids: seq<nat>, c: Claim): map<nat, Row> {
    map id | id in w.queue :: if id in ids
      then w.queue[id].(token := Some(|w.issued| + IndexOf(ids, id)), leaseUntil := w.now + LeaseOf(w.queue[id], c))
      else w.queue[id]
  }

  predicate Expired(w: World, id: nat) {
    id < |w.expiries| && w.expiries[id] <= w.now
  }

  /** Whether an ack names the row's current token. */
  predicate Names(ack: seq<Token>, row: Row) {
    row.token.Some? && row.token.value in ack
  }

  predicate Retires(w: World, ack: seq<Token>, id: nat) {
    id in w.queue && Names(ack, w.queue[id])
  }

  function Retired(w: World, results: seq<Heartbeat>, ack: seq<Token>): World {
    w.(queue := map id | id in w.queue && !Names(ack, w.queue[id]) :: w.queue[id],
       fates := seq(|w.fates|, id requires 0 <= id < |w.fates| =>
         if Retires(w, ack, id) then Acked(results) else w.fates[id]))
  }

  function Send(w: World, m: Message): World {
    w.(network := w.network + {m})
  }

  /** A results request: each result is published in turn, then the acked rows are deleted. It stops at the first failure,
      after `published` results, or at the delete. */
  function Received(w: World, results: seq<Heartbeat>, ack: seq<Token>, published: nat, acks: bool): World {
    if published < |results| then w.(sink := w.sink + results[..published]) else
    var accepted := w.(sink := w.sink + results);
    if acks then Retired(accepted, results, ack) else accepted
  }

  function Apply(decode: string -> Option<Job>, w: World, act: Action): World {
    match act
    case Enqueue(payload, row, expiresAt) =>
      w.(queue := w.queue[|w.payloads| := row.(token := None)], payloads := w.payloads + [payload],
         expiries := w.expiries + [expiresAt], fates := w.fates + [Waiting])
    case Tick(later) => w.(now := w.now + later)
    case Purge =>
      w.(queue := map id | id in w.queue && !Expired(w, id) :: w.queue[id],
         fates := seq(|w.fates|, id requires 0 <= id < |w.fates| =>
           if id in w.queue && Expired(w, id) then Purged(w.now) else w.fates[id]))
    case CoreClaims(ids, c) =>
      if !MayClaim(w, ids, c) then w else
      Send(w.(queue := Lease(w, ids, c), issued := w.issued + ids), Delivery(c.endpoint, Leased(w, ids, c)))
    case AgentPosts(endpoint, b, gate, probe, e) =>
      if Delivery(endpoint, b) !in w.network || !Parallel(b) then w else
      var events := BatchEvents(Env(decode, gate, probe), b);
      if e >= |events| || !events[e].PostResults? then w else Send(w, Post(events[e].results, events[e].ack))
    case CoreReceives(m, published, acks) =>
      if m !in w.network || !m.Post? then w else Received(w, m.results, m.ack, published, acks)
  }

  function Run(decode: string -> Option<Job>, acts: seq<Action>): World {
    if acts == [] then EMPTY else Apply(decode, Run(decode, acts[..|acts| - 1]), acts[|acts| - 1])
  }

  // ----- the invariant

  /** The payload of the row a token was issued for. */
  predicate Holds(w: World, token: Token, payload: string) {
    token < |w.issued| && w.issued[token] < |w.payloads| && w.payloads[w.issued[token]] == payload
  }

  predicate Answer(decode: string -> Option<Job>, hb: Heartbeat, payload: string) {
    hb.Result? && decode(payload) == Some(hb.job)
  }

  /** An ack stands beside the result of the job its token was issued for. */
  predicate AckSound(decode: string -> Option<Job>, w: World, hb: Heartbeat, token: Token) {
    && token < |w.issued| && w.issued[token] < |w.payloads|
    && Answer(decode, hb, w.payloads[w.issued[token]])
  }

  predicate Sound(decode: string -> Option<Job>, w: World, m: Message) {
    match m
    case Delivery(endpoint, b) =>
      Parallel(b) && forall k :: 0 <= k < |b.jobs| ==> Holds(w, b.tokens[k], b.jobs[k]) && 1 <= b.generations[k] <= endpoint
    case Post(results, ack) => |ack| <= |results| && forall k :: 0 <= k < |ack| ==> AckSound(decode, w, results[k], ack[k])
  }

  predicate NetworkSound(decode: string -> Option<Job>, w: World) {
    forall m :: m in w.network ==> Sound(decode, w, m)
  }

  /** A queued row waits, and its token was issued for it. */
  predicate RowSound(w: World, id: nat)
    requires id in w.queue
  {
    && id < |w.fates| && w.fates[id].Waiting?
    && (w.queue[id].token.Some? ==>
      w.queue[id].token.value < |w.issued| && w.issued[w.queue[id].token.value] == id)
  }

  predicate AllAccepted(w: World, hbs: seq<Heartbeat>) {
    forall k :: 0 <= k < |hbs| ==> hbs[k] in w.sink
  }

  /** A retired row's result is among those its request carried, and all of them are in the sink. */
  predicate Settled(decode: string -> Option<Job>, w: World, payload: string, results: seq<Heartbeat>) {
    AllAccepted(w, results) && exists k :: 0 <= k < |results| && Answer(decode, results[k], payload)
  }

  predicate FateSound(decode: string -> Option<Job>, w: World, id: nat)
    requires id < |w.fates| && |w.payloads| == |w.expiries| == |w.fates|
  {
    match w.fates[id]
    case Waiting => id in w.queue
    case Purged(at) => w.expiries[id] <= at <= w.now
    case Acked(results) => Settled(decode, w, w.payloads[id], results)
  }

  predicate Rows(w: World) {
    && |w.payloads| == |w.expiries| == |w.fates|
    && (forall id :: id in w.queue ==> RowSound(w, id))
    && (forall t :: 0 <= t < |w.issued| ==> w.issued[t] < |w.payloads|)
  }

  predicate Fates(decode: string -> Option<Job>, w: World)
    requires |w.payloads| == |w.expiries| == |w.fates|
  {
    forall id :: 0 <= id < |w.fates| ==> FateSound(decode, w, id)
  }

  predicate Inv(decode: string -> Option<Job>, w: World) {
    Rows(w) && Fates(decode, w) && NetworkSound(decode, w)
  }

  // ----- what the agent sends is sound

  lemma PostSound(decode: string -> Option<Job>, w: World, endpoint: Generation, b: Batch, env: Env, e: nat)
    requires Sound(decode, w, Delivery(endpoint, b)) && env.decode == decode
    requires e < |BatchEvents(env, b)| && BatchEvents(env, b)[e].PostResults?
    ensures Sound(decode, w, Post(BatchEvents(env, b)[e].results, BatchEvents(env, b)[e].ack))
  {
    hide BatchEvents;
    var events := BatchEvents(env, b);
    ClaimsPrecedeProbes(env, b, e);
    if e == |events| - 1 {
      if b.jobs == [] { NoJobsNoEvents(env, b); }
      ResultsPost(env, b);
      SettledSound(decode, w, endpoint, b, env, events[e].results, events[e].ack);
    }
  }

  lemma NoJobsNoEvents(env: Env, b: Batch)
    requires Parallel(b) && b.jobs == []
    ensures BatchEvents(env, b) == []
  {}

  lemma SettledSound(decode: string -> Option<Job>, w: World, endpoint: Generation, b: Batch, env: Env,
      results: seq<Heartbeat>, ack: seq<Token>)
    requires Sound(decode, w, Delivery(endpoint, b)) && env.decode == decode && SettlesBatch(env, b, results, ack)
    ensures Sound(decode, w, Post(results, ack))
  {
    hide DecodableCount;
    hide SettledIn;
    forall k | 0 <= k < |ack|
      ensures AckSound(decode, w, results[k], ack[k])
    {
      assert SettlesSome(env, b, results[k], ack[k]);
      var i: nat :| Settles(env, b, i, results[k], ack[k]);
      assert Holds(w, b.tokens[i], b.jobs[i]);
    }
  }

  /** Messages stay sound as rows and tokens are added. */
  predicate Extends(w: World, w': World) {
    w.payloads <= w'.payloads && w.issued <= w'.issued
  }

  lemma SoundLater(decode: string -> Option<Job>, w: World, w': World, m: Message)
    requires Extends(w, w') && Sound(decode, w, m)
    ensures Sound(decode, w', m)
  {
    match m
    case Delivery(_, b) =>
      forall k | 0 <= k < |b.jobs|
        ensures Holds(w', b.tokens[k], b.jobs[k])
      {
        assert Holds(w, b.tokens[k], b.jobs[k]);
      }
    case Post(results, ack) =>
      forall k | 0 <= k < |ack|
        ensures AckSound(decode, w', results[k], ack[k])
      {
        assert AckSound(decode, w, results[k], ack[k]);
      }
  }

  lemma NetworkLater(decode: string -> Option<Job>, w: World, w': World)
    requires Extends(w, w') && NetworkSound(decode, w)
    requires forall m :: m in w'.network ==> m in w.network || Sound(decode, w', m)
    ensures NetworkSound(decode, w')
  {
    hide Sound;
    forall m | m in w'.network
      ensures Sound(decode, w', m)
    {
      if m in w.network { SoundLater(decode, w, w', m); }
    }
  }

  lemma SettledLater(decode: string -> Option<Job>, w: World, w': World, payload: string, results: seq<Heartbeat>)
    requires w.sink <= w'.sink && Settled(decode, w, payload, results)
    ensures Settled(decode, w', payload, results)
  {
    forall k | 0 <= k < |results|
      ensures results[k] in w'.sink
    {
      assert results[k] in w.sink;
      var i :| 0 <= i < |w.sink| && w.sink[i] == results[k];
      assert w'.sink[i] == results[k];
    }
  }

  /** A row that had left stays as it left. */
  lemma FateLater(decode: string -> Option<Job>, w: World, w': World, id: nat)
    requires |w.payloads| == |w.expiries| == |w.fates| && |w'.payloads| == |w'.expiries| == |w'.fates|
    requires id < |w.fates| && id < |w'.fates| && w'.fates[id] == w.fates[id] && FateSound(decode, w, id)
    requires w'.payloads[id] == w.payloads[id] && w'.expiries[id] == w.expiries[id] && w.sink <= w'.sink && w.now <= w'.now
    requires id in w.queue && w.fates[id].Waiting? ==> id in w'.queue
    ensures FateSound(decode, w', id)
  {
    hide Settled;
    match w.fates[id]
    case Acked(results) => SettledLater(decode, w, w', w.payloads[id], results);
    case _ =>
  }

  // ----- each action keeps the invariant

  lemma EnqueueKeeps(decode: string -> Option<Job>, w: World, act: Action)
    requires Inv(decode, w) && act.Enqueue?
    ensures Inv(decode, Apply(decode, w, act))
  {
    var w' := Apply(decode, w, act);
    NetworkLater(decode, w, w');
    forall id | 0 <= id < |w'.fates|
      ensures FateSound(decode, w', id)
    {
      if id < |w.fates| { FateLater(decode, w, w', id); }
    }
    forall id | id in w'.queue
      ensures RowSound(w', id)
    {
      if id != |w.payloads| { assert RowSound(w, id); }
    }
  }

  lemma PurgeKeeps(decode: string -> Option<Job>, w: World)
    requires Inv(decode, w)
    ensures Inv(decode, Apply(decode, w, Purge))
  {
    hide Settled;
    var w' := Apply(decode, w, Purge);
    NetworkLater(decode, w, w');
    forall id | 0 <= id < |w'.fates|
      ensures FateSound(decode, w', id)
    {
      if !(id in w.queue && Expired(w, id)) { FateLater(decode, w, w', id); }
    }
    forall id | id in w'.queue
      ensures RowSound(w', id)
    {
      assert RowSound(w, id);
    }
  }

  lemma LeasedSound(decode: string -> Option<Job>, w: World, w': World, ids: seq<nat>, c: Claim)
    requires MayClaim(w, ids, c) && w'.payloads == w.payloads && w'.issued == w.issued + ids
    ensures Sound(decode, w', Delivery(c.endpoint, Leased(w, ids, c)))
  {
    var b := Leased(w, ids, c);
    forall k | 0 <= k < |b.jobs|
      ensures Holds(w', b.tokens[k], b.jobs[k]) && 1 <= b.generations[k] <= c.endpoint
    {
      assert Selects(c, w.queue[ids[k]]);
      assert w'.issued[|w.issued| + k] == ids[k];
    }
  }

  lemma ClaimKeeps(decode: string -> Option<Job>, w: World, ids: seq<nat>, c: Claim)
    requires Inv(decode, w) && MayClaim(w, ids, c)
    ensures Inv(decode, Apply(decode, w, CoreClaims(ids, c)))
  {
    hide Settled;
    hide Leased;
    var w' := Apply(decode, w, CoreClaims(ids, c));
    LeasedSound(decode, w, w', ids, c);
    NetworkLater(decode, w, w');
    forall id | id in w'.queue
      ensures RowSound(w', id)
    {
      assert RowSound(w, id);
      if id in ids {
        var k := IndexOf(ids, id);
        assert w'.issued[|w.issued| + k] == ids[k];
      }
    }
    forall id | 0 <= id < |w'.fates|
      ensures FateSound(decode, w', id)
    {
      FateLater(decode, w, w', id);
    }
    forall t | 0 <= t < |w'.issued|
      ensures w'.issued[t] < |w'.payloads|
    {
      if t >= |w.issued| { assert w'.issued[t] == ids[t - |w.issued|]; }
    }
  }

  lemma SendKeeps(decode: string -> Option<Job>, w: World, m: Message)
    requires Inv(decode, w) && Sound(decode, w, m)
    ensures Inv(decode, Send(w, m))
  {
    hide Settled;
    hide Sound;
    var w' := Send(w, m);
    SoundLater(decode, w, w', m);
    NetworkLater(decode, w, w');
    forall id | 0 <= id < |w'.fates|
      ensures FateSound(decode, w', id)
    {
      FateLater(decode, w, w', id);
    }
    forall id | id in w'.queue
      ensures RowSound(w', id)
    {
      assert RowSound(w, id);
    }
  }

  lemma PublishKeeps(decode: string -> Option<Job>, w: World, more: seq<Heartbeat>, later: nat)
    requires Inv(decode, w)
    ensures Inv(decode, w.(sink := w.sink + more, now := w.now + later))
  {
    hide Settled;
    var w' := w.(sink := w.sink + more, now := w.now + later);
    NetworkLater(decode, w, w');
    forall id | 0 <= id < |w'.fates|
      ensures FateSound(decode, w', id)
    {
      FateLater(decode, w, w', id);
    }
    forall id | id in w'.queue
      ensures RowSound(w', id)
    {
      assert RowSound(w, id);
    }
  }

  /** A row is retired only by a request that carried its result. */
  lemma RetiredSettled(decode: string -> Option<Job>, w: World, results: seq<Heartbeat>, ack: seq<Token>, id: nat)
    requires Rows(w) && Sound(decode, w, Post(results, ack)) && AllAccepted(w, results)
    requires Retires(w, ack, id)
    ensures id < |w.payloads| && Settled(decode, w, w.payloads[id], results)
  {
    assert RowSound(w, id);
    var token := w.queue[id].token.value;
    var k :| 0 <= k < |ack| && ack[k] == token;
    assert AckSound(decode, w, results[k], ack[k]);
    assert Answer(decode, results[k], w.payloads[id]);
  }

  lemma RetireKeeps(decode: string -> Option<Job>, w: World, results: seq<Heartbeat>, ack: seq<Token>)
    requires Inv(decode, w) && Sound(decode, w, Post(results, ack)) && AllAccepted(w, results)
    ensures Inv(decode, Retired(w, results, ack))
  {
    hide Settled;
    hide Sound;
    var w' := Retired(w, results, ack);
    NetworkLater(decode, w, w');
    forall id | 0 <= id < |w'.fates|
      ensures FateSound(decode, w', id)
    {
      if Retires(w, ack, id) {
        RetiredSettled(decode, w, results, ack, id);
        SettledLater(decode, w, w', w.payloads[id], results);
      } else {
        FateLater(decode, w, w', id);
      }
    }
    forall id | id in w'.queue
      ensures RowSound(w', id)
    {
      assert RowSound(w, id);
    }
  }

  lemma ReceiveKeeps(decode: string -> Option<Job>, w: World, m: Message, published: nat, acks: bool)
    requires Inv(decode, w) && m in w.network && m.Post?
    ensures Inv(decode, Received(w, m.results, m.ack, published, acks))
  {
    hide Inv;
    hide Retired;
    hide Sound;
    hide AllAccepted;
    if published < |m.results| {
      PublishKeeps(decode, w, m.results[..published], 0);
    } else {
      PublishKeeps(decode, w, m.results, 0);
      var accepted := w.(sink := w.sink + m.results);
      PostedSound(decode, w, m);
      SoundLater(decode, w, accepted, m);
      PublishedAccepted(w, m.results);
      RetireKeeps(decode, accepted, m.results, m.ack);
    }
  }

  lemma PublishedAccepted(w: World, more: seq<Heartbeat>)
    ensures AllAccepted(w.(sink := w.sink + more), more)
  {
    var sink := w.sink + more;
    assert forall k :: 0 <= k < |more| ==> sink[|w.sink| + k] == more[k];
  }

  lemma PostedSound(decode: string -> Option<Job>, w: World, m: Message)
    requires Inv(decode, w) && m in w.network
    ensures Sound(decode, w, m)
  {}

  lemma ActionKeeps(decode: string -> Option<Job>, w: World, act: Action)
    requires Inv(decode, w)
    ensures Inv(decode, Apply(decode, w, act))
  {
    hide Inv;
    hide Sound;
    hide MayClaim;
    hide Received;
    hide BatchEvents;
    match act
    case Enqueue(_, _, _) => EnqueueKeeps(decode, w, act);
    case Tick(later) =>
      PublishKeeps(decode, w, [], later);
      assert w.sink + [] == w.sink;
    case Purge => PurgeKeeps(decode, w);
    case CoreClaims(ids, c) =>
      if MayClaim(w, ids, c) { ClaimKeeps(decode, w, ids, c); }
    case AgentPosts(endpoint, b, gate, probe, e) =>
      var env := Env(decode, gate, probe);
      if Delivery(endpoint, b) in w.network && Parallel(b) && e < |BatchEvents(env, b)| && BatchEvents(env, b)[e].PostResults? {
        PostedSound(decode, w, Delivery(endpoint, b));
        PostSound(decode, w, endpoint, b, env, e);
        SendKeeps(decode, w, Post(BatchEvents(env, b)[e].results, BatchEvents(env, b)[e].ack));
      }
    case CoreReceives(m, published, acks) =>
      if m in w.network && m.Post? { ReceiveKeeps(decode, w, m, published, acks); }
  }

  lemma {:induction false} RunKeeps(decode: string -> Option<Job>, acts: seq<Action>)
    ensures Inv(decode, Run(decode, acts))
  {
    hide Apply;
    if acts != [] {
      hide Inv;
      RunKeeps(decode, acts[..|acts| - 1]);
      ActionKeeps(decode, Run(decode, acts[..|acts| - 1]), acts[|acts| - 1]);
    }
  }

  /** No silent loss, in every run: a row that was ever queued is still queued, or was purged at or after its expiry, or was
      retired by a request that carried a result for its job, with every result of that request in the sink. A row that
      does not decode is never retired. */
  lemma NoSilentLoss(decode: string -> Option<Job>, acts: seq<Action>, id: nat)
    requires id < |Run(decode, acts).payloads|
    ensures var w := Run(decode, acts);
      && |w.fates| == |w.expiries| == |w.payloads|
      && match w.fates[id]
        case Waiting => id in w.queue
        case Purged(at) => id !in w.queue && w.expiries[id] <= at <= w.now
        case Acked(results) =>
          && id !in w.queue && decode(w.payloads[id]).Some?
          && (forall k :: 0 <= k < |results| ==> results[k] in w.sink)
          && (exists k :: 0 <= k < |results| && results[k].Result? && Some(results[k].job) == decode(w.payloads[id]))
  {
    hide Run;
    RunKeeps(decode, acts);
    var w := Run(decode, acts);
    assert FateSound(decode, w, id);
    if id in w.queue { assert RowSound(w, id); }
    if w.fates[id].Acked? {
      var results := w.fates[id].results;
      var k :| 0 <= k < |results| && Answer(decode, results[k], w.payloads[id]);
      assert results[k].Result? && Some(results[k].job) == decode(w.payloads[id]);
    }
  }

  /** Fates are final: a later run never takes a row out of the queue twice, nor puts it back. */
  lemma FatesFinal(decode: string -> Option<Job>, w: World, act: Action, id: nat)
    requires Inv(decode, w) && id < |w.fates| && !w.fates[id].Waiting?
    ensures var w' := Apply(decode, w, act); id < |w'.fates| && w'.fates[id] == w.fates[id] && id !in w'.queue
  {
    hide Settled;
    hide Sound;
    hide Leased;
    assert id in w.queue ==> RowSound(w, id);
  }

  // ----- what the core's steps do to the queue

  /** A results request whose results were all accepted deletes exactly the rows whose current token it acks; the others stay as
      they are. */
  lemma AckRemoves(decode: string -> Option<Job>, w: World, m: Message, published: nat, id: nat)
    requires Inv(decode, w) && m in w.network && m.Post? && published >= |m.results| && id in w.queue
    ensures var w' := Apply(decode, w, CoreReceives(m, published, true));
      var acked := w.queue[id].token.Some? && w.queue[id].token.value in m.ack;
      && (id in w'.queue <==> !acked)
      && (!acked ==> w'.queue[id] == w.queue[id] && w'.fates[id] == w.fates[id])
      && (acked ==> w'.fates[id] == Acked(m.results))
  {
    hide Sound;
    hide Settled;
    assert RowSound(w, id);
  }

  /** A request that failed before its ack deletes nothing; what it published before that is in the sink. */
  lemma FailureRemovesNothing(decode: string -> Option<Job>, w: World, m: Message, published: nat, acks: bool)
    requires m in w.network && m.Post? && (published < |m.results| || !acks)
    ensures var w' := Apply(decode, w, CoreReceives(m, published, acks));
      && w'.queue == w.queue && w'.fates == w.fates
      && w'.sink == w.sink + if published < |m.results| then m.results[..published] else m.results
  {}

  /** The purge removes exactly the rows at or past their expiry. */
  lemma PurgeRemoves(decode: string -> Option<Job>, w: World, id: nat)
    requires Inv(decode, w) && id in w.queue
    ensures id < |w.expiries|
    ensures var w' := Apply(decode, w, Purge);
      && (id in w'.queue <==> w.expiries[id] > w.now)
      && (id in w'.queue ==> w'.queue[id] == w.queue[id])
      && (id !in w'.queue ==> w'.fates[id] == Purged(w.now))
  {
    hide Sound;
    hide Settled;
    assert RowSound(w, id);
  }

  /** An enqueued job is a new row, waiting, claimable at once by whoever may have it, and no other row changes. */
  lemma EnqueueQueues(decode: string -> Option<Job>, w: World, payload: string, row: Row, expiresAt: int, c: Claim)
    requires Inv(decode, w)
    ensures var w' := Apply(decode, w, Enqueue(payload, row, expiresAt)); var id := |w.payloads|;
      && id !in w.queue && id in w'.queue && w'.payloads == w.payloads + [payload]
      && (forall k :: k in w.queue ==> k in w'.queue && w'.queue[k] == w.queue[k])
      && (MayClaim(w', [id], c) <==> expiresAt > w.now && c.max >= 1 && Selects(c, row))
  {
    hide Sound;
    hide Settled;
    var w', id := Apply(decode, w, Enqueue(payload, row, expiresAt)), |w.payloads|;
    assert forall k :: k in w.queue ==> RowSound(w, k);
    assert [id][0] == id;
  }

  /** A row leased again is safe from its earlier holders: no request sent before the lease can retire it. */
  lemma ReleaseProtects(decode: string -> Option<Job>, w: World, ids: seq<nat>, c: Claim, id: nat,
      m: Message, published: nat, acks: bool)
    requires Inv(decode, w) && MayClaim(w, ids, c) && id in ids && m in w.network && m.Post?
    ensures var leased := Apply(decode, w, CoreClaims(ids, c));
      var after := Apply(decode, leased, CoreReceives(m, published, acks));
      id in after.queue && after.queue[id] == leased.queue[id] && after.fates[id].Waiting?
  {
    hide Leased;
    var leased := Apply(decode, w, CoreClaims(ids, c));
    ClaimKeeps(decode, w, ids, c);
    PostedSound(decode, w, m);
    assert forall k :: 0 <= k < |m.ack| ==> AckSound(decode, w, m.results[k], m.ack[k]);
    assert leased.queue[id].token.value >= |w.issued|;
    assert !Names(m.ack, leased.queue[id]);
    assert RowSound(leased, id);
  }

  function RunFrom(decode: string -> Option<Job>, w: World, acts: seq<Action>): World {
    if acts == [] then w else Apply(decode, RunFrom(decode, w, acts[..|acts| - 1]), acts[|acts| - 1])
  }

  /** A row gone for good, or leased until `until` or later. */
  predicate Reserved(w: World, id: nat, until: int) {
    id < |w.payloads| && (id in w.queue ==> w.queue[id].token.Some? && w.queue[id].leaseUntil >= until)
  }

  lemma StepReserves(decode: string -> Option<Job>, w: World, act: Action, id: nat, until: int)
    requires Inv(decode, w) && Reserved(w, id, until)
    ensures Reserved(Apply(decode, w, act), id, until)
  {
    hide Sound;
    hide Leased;
    hide Settled;
    if act.CoreClaims? && MayClaim(w, act.ids, act.claim) && id in act.ids {
      assert Claimable(w, act.ids[IndexOf(act.ids, id)]);
    }
  }

  lemma {:induction false} RunReserves(decode: string -> Option<Job>, w: World, acts: seq<Action>, id: nat, until: int)
    requires Inv(decode, w) && Reserved(w, id, until)
    ensures Inv(decode, RunFrom(decode, w, acts)) && Reserved(RunFrom(decode, w, acts), id, until)
  {
    hide Inv;
    hide Apply;
    hide Reserved;
    if acts != [] {
      var before := acts[..|acts| - 1];
      RunReserves(decode, w, before, id, until);
      StepReserves(decode, RunFrom(decode, w, before), acts[|acts| - 1], id, until);
      ActionKeeps(decode, RunFrom(decode, w, before), acts[|acts| - 1]);
    }
  }

  /** A claimed job is handed to nobody else until its own lease, or else the claim's, ends, whatever happens in between. */
  lemma LeaseExclusive(decode: string -> Option<Job>, w: World, ids: seq<nat>, c: Claim, acts: seq<Action>, id: nat)
    requires Inv(decode, w) && MayClaim(w, ids, c) && id in ids && id in w.queue
    ensures var later := RunFrom(decode, Apply(decode, w, CoreClaims(ids, c)), acts);
      Claimable(later, id) ==>
        later.now >= w.now + match w.queue[id].lease case Some(own) => own case None => c.lease
  {
    hide Leased;
    var leased := Apply(decode, w, CoreClaims(ids, c));
    ClaimKeeps(decode, w, ids, c);
    RunReserves(decode, leased, acts, id, w.now + LeaseOf(w.queue[id], c));
  }

  /** The lease a claim gives. */
  lemma LeaseGiven(decode: string -> Option<Job>, w: World, ids: seq<nat>, c: Claim, id: nat)
    requires MayClaim(w, ids, c) && id in w.queue
    ensures var leased := Apply(decode, w, CoreClaims(ids, c));
      && id in leased.queue
      && (id !in ids ==> leased.queue[id] == w.queue[id])
      && (id in ids ==> leased.queue[id].leaseUntil == w.now + match w.queue[id].lease case Some(own) => own case None => c.lease)
  {
    hide Leased;
  }

  /** And is offered again once it ends, until the job expires. */
  lemma LapsedIsClaimable(w: World, id: nat)
    requires Rows(w) && id in w.queue
    ensures Claimable(w, id) <==>
      w.now < w.expiries[id] && (w.queue[id].token.Some? ==> w.queue[id].leaseUntil <= w.now)
  {
    assert RowSound(w, id);
  }

  /** The stamps of a delivered batch as the agent's decoder sees them. */
  function ResponseOf(b: Batch): AgentLedger.Response {
    AgentLedger.Response(|b.jobs|, |b.tokens|, AgentLedger.Versions(b.generations))
  }

  /** Core and agent together: in every run of the protocol, whatever endpoint the agent came to call and whenever it decodes,
      it accepts the batch the core delivered there. */
  lemma HonestBatchAccepted(decode: string -> Option<Job>, acts: seq<Action>, endpoint: Generation, b: Batch,
      build: AgentLedger.Build, polls: seq<AgentLedger.Poll>, p: AgentLedger.Poll, decodedAt: int)
    requires Delivery(endpoint, b) in Run(decode, acts).network
    requires AgentLedger.Called(AgentLedger.Run(build, polls), p) == Some(endpoint)
    ensures AgentLedger.Aligned(ResponseOf(b),
      AgentLedger.JobClaimGeneration(AgentLedger.AfterClaim(AgentLedger.Run(build, polls), p), decodedAt))
  {
    hide Run;
    hide Inv;
    RunKeeps(decode, acts);
    PostedSound(decode, Run(decode, acts), Delivery(endpoint, b));
    AgentLedger.CeilingCoversEndpoint(build, polls, p, decodedAt);
  }

  // ----- a whole exchange

  /** What an agent posts is sent. */
  lemma AgentPostSent(decode: string -> Option<Job>, w: World, endpoint: Generation, b: Batch, env: Env, e: nat)
    requires Delivery(endpoint, b) in w.network && Parallel(b) && env.decode == decode
    requires e < |BatchEvents(env, b)| && BatchEvents(env, b)[e].PostResults?
    ensures var w' := Apply(decode, w, AgentPosts(endpoint, b, env.gate, env.probe, e));
      w' == w.(network := w.network + {Post(BatchEvents(env, b)[e].results, BatchEvents(env, b)[e].ack)})
  {
    hide BatchEvents;
    assert env == Env(decode, env.gate, env.probe);
  }

  /** The token a claim gave to the `k`th of its rows is acked exactly when the job decodes. */
  lemma AckedWhenDecodable(w: World, ids: seq<nat>, c: Claim, env: Env, results: seq<Heartbeat>, ack: seq<Token>, k: nat)
    requires MayClaim(w, ids, c) && k < |ids| && SettlesBatch(env, Leased(w, ids, c), results, ack)
    ensures |w.issued| + k in ack <==> env.decode(w.payloads[ids[k]]).Some?
  {
    hide DecodableCount;
    var b := Leased(w, ids, c);
    if Decodable(env, b, k) {
      assert SettledIn(env, b, k, results, ack);
    }
    if |w.issued| + k in ack {
      var n :| 0 <= n < |ack| && ack[n] == |w.issued| + k;
      assert SettlesSome(env, b, results[n], ack[n]);
      var i: nat :| Settles(env, b, i, results[n], ack[n]);
      assert b.tokens[i] == |w.issued| + i;
    }
  }

  /** An exchange in which nothing is lost: the core leases a batch, the agent posts its results, the core accepts them all. Then
      exactly the leased jobs that decode are retired, each beside its result; the others stay for another try. */
  lemma ExchangeRetires(decode: string -> Option<Job>, w: World, ids: seq<nat>, c: Claim, env: Env, id: nat)
    requires Inv(decode, w) && MayClaim(w, ids, c) && id in ids && env.decode == decode
    ensures var b := Leased(w, ids, c); var last := |BatchEvents(env, b)| - 1;
      && Parallel(b) && 0 <= last && BatchEvents(env, b)[last].PostResults?
      && var m := Post(BatchEvents(env, b)[last].results, BatchEvents(env, b)[last].ack);
      var leased := Apply(decode, w, CoreClaims(ids, c));
      var posted := Apply(decode, leased, AgentPosts(c.endpoint, b, env.gate, env.probe, last));
      var end := Apply(decode, posted, CoreReceives(m, |m.results|, true));
      && (id in end.queue <==> decode(w.payloads[id]).None?)
      && (decode(w.payloads[id]).Some? ==> end.fates[id] == Acked(m.results))
  {
    hide BatchEvents;
    hide Inv;
    hide SettlesBatch;
    hide Leased;
    var b := Leased(w, ids, c);
    LeasedParallel(w, ids, c);
    ResultsPost(env, b);
    var last := |BatchEvents(env, b)| - 1;
    var m := Post(BatchEvents(env, b)[last].results, BatchEvents(env, b)[last].ack);
    var leased := Apply(decode, w, CoreClaims(ids, c));
    AgentPostSent(decode, leased, c.endpoint, b, env, last);
    var posted := Apply(decode, leased, AgentPosts(c.endpoint, b, env.gate, env.probe, last));
    ClaimKeeps(decode, w, ids, c);
    ActionKeeps(decode, leased, AgentPosts(c.endpoint, b, env.gate, env.probe, last));
    var k := IndexOf(ids, id);
    AckedWhenDecodable(w, ids, c, env, m.results, m.ack, k);
    AckRemoves(decode, posted, m, |m.results|, id);
  }

  lemma LeasedParallel(w: World, ids: seq<nat>, c: Claim)
    requires MayClaim(w, ids, c) && ids != []
    ensures Parallel(Leased(w, ids, c)) && Leased(w, ids, c).jobs != []
  {}
}
