/** The coalescing render cache of internal/api/statuspagecache.go as a protocol of interleaved callers.

    `do` holds the lock twice and renders in between, so a caller moves through separate steps: look up or
    claim the key, render, publish, close the channel; or look up and wait. Any number of callers interleave.
    Times are nanoseconds of a clock that never steps back; `step` numbers the steps of a run. */
module RenderCache {
  import opened Options

  const TTL: int := 5_000_000_000
  const MAX_ENTRIES: nat := 512

  datatype Key = Key(text: string)
  datatype Body = Body(bytes: string)

  /** What a render returned; `failed` is a non-nil error. */
  datatype Render = Render(body: Body, cacheable: bool, failed: bool)

  /** A cached body. `call` remembers which render it came from. */
  datatype Entry = Entry(body: Body, expires: int, call: nat)

  /** A render call; `key`, `claimed`, `published` and `publishedAt` are its history. */
  datatype Call = Call(key: Key, result: Option<Render>, closed: bool, claimed: nat, published: Option<nat>, publishedAt: int)

  /** What the lock protects, and the calls callers hold pointers to. */
  datatype Shared = Shared(entries: map<Key, Entry>, inflight: map<Key, nat>, calls: seq<Call>, cleared: nat)

  datatype Looked = Hit(entry: Entry) | Join(call: nat) | Own(call: nat)

  predicate Storable(r: Render) { !r.failed && r.cacheable }

  // ---------------------------------------------------------------- the code, one critical section at a time

  /** The first critical section of `do`. */
  function Look(sh: Shared, key: Key, now: int, step: nat): (Shared, Looked) {
    if key in sh.entries && now < sh.entries[key].expires then (sh, Hit(sh.entries[key])) else
    var sh1 := sh.(entries := sh.entries - {key});
    if key in sh1.inflight then (sh1, Join(sh1.inflight[key])) else
    var c := |sh1.calls|;
    (sh1.(inflight := sh1.inflight[key := c], calls := sh1.calls + [Call(key, None, false, step, None, 0)]), Own(c))
  }

  /** The render writes its result into the call, outside the lock. */
  function Fill(sh: Shared, c: nat, r: Render): Shared
    requires c < |sh.calls|
  {
    sh.(calls := sh.calls[c := sh.calls[c].(result := Some(r))])
  }

  /** The second critical section of `do`. */
  function Publish(sh: Shared, key: Key, c: nat, r: Render, now: int, step: nat): Shared {
    var sh1 := sh.(inflight := sh.inflight - {key},
                   calls := if c < |sh.calls| then sh.calls[c := sh.calls[c].(published := Some(step), publishedAt := now)] else sh.calls);
    if !Storable(r) then sh1 else
    var sh2 := if |sh1.entries| >= MAX_ENTRIES then sh1.(entries := map[], cleared := step) else sh1;
    sh2.(entries := sh2.entries[key := Entry(r.body, now + TTL, c)])
  }

  function Close(sh: Shared, c: nat): Shared
    requires c < |sh.calls|
  {
    sh.(calls := sh.calls[c := sh.calls[c].(closed := true)])
  }

  // ---------------------------------------------------------------- callers

  /** How an answer was obtained. */
  datatype How = Cached | Owned | Joined

  datatype Answer = Answer(body: Body, hit: bool, failed: bool)

  datatype Caller =
    | Arrived(key: Key)
    | Rendering(key: Key, call: nat)
    | Rendered(key: Key, call: nat)
    | Published(key: Key, call: nat)
    | Waiting(key: Key, call: nat, looked: nat)
    | Done(key: Key, call: nat, looked: nat, at: int, how: How, answer: Answer)

  datatype World = World(sh: Shared, callers: map<nat, Caller>, now: int, step: nat)

  datatype Action =
    | Tick(to: int)
    | Arrive(id: nat, key: Key)
    | LookUp(id: nat)
    | FinishRender(id: nat, r: Render)
    | PublishResult(id: nat)
    | CloseDone(id: nat)
    | Wake(id: nat)

  ghost predicate Owns(p: Caller, c: nat) {
    (p.Rendering? || p.Rendered? || p.Published?) && p.call == c
  }

  /** Claimed the key and has not published yet. */
  ghost predicate InRender(p: Caller) {
    p.Rendering? || p.Rendered?
  }

  ghost predicate Enabled(w: World, a: Action) {
    match a
    case Tick(to) => w.now <= to
    case Arrive(id, _) => id !in w.callers
    case LookUp(id) => id in w.callers && w.callers[id].Arrived?
    case FinishRender(id, _) => id in w.callers && w.callers[id].Rendering? && w.callers[id].call < |w.sh.calls|
    case PublishResult(id) => id in w.callers && w.callers[id].Rendered? && w.callers[id].call < |w.sh.calls| && w.sh.calls[w.callers[id].call].result.Some?
    case CloseDone(id) => id in w.callers && w.callers[id].Published? && w.callers[id].call < |w.sh.calls| && w.sh.calls[w.callers[id].call].result.Some?
    case Wake(id) => id in w.callers && w.callers[id].Waiting? && w.callers[id].call < |w.sh.calls|
                     && w.sh.calls[w.callers[id].call].closed && w.sh.calls[w.callers[id].call].result.Some?
  }

  ghost function Move(w: World, sh: Shared, id: nat, p: Caller): World {
    World(sh, w.callers[id := p], w.now, w.step + 1)
  }

  ghost function Apply(w: World, a: Action): World
    requires Enabled(w, a)
  {
    match a
    case Tick(to) => w.(now := to, step := w.step + 1)
    case Arrive(id, key) => Move(w, w.sh, id, Arrived(key))
    case LookUp(id) =>
      var key := w.callers[id].key;
      var (sh, l) := Look(w.sh, key, w.now, w.step);
      Move(w, sh, id,
        match l
        case Hit(e) => Done(key, e.call, w.step, w.now, Cached, Answer(e.body, true, false))
        case Join(c) => Waiting(key, c, w.step)
        case Own(c) => Rendering(key, c))
    case FinishRender(id, r) =>
      var p := w.callers[id];
      Move(w, Fill(w.sh, p.call, r), id, Rendered(p.key, p.call))
    case PublishResult(id) =>
      var p := w.callers[id];
      Move(w, Publish(w.sh, p.key, p.call, w.sh.calls[p.call].result.value, w.now, w.step), id, Published(p.key, p.call))
    case CloseDone(id) =>
      var p := w.callers[id];
      var r := w.sh.calls[p.call].result.value;
      Move(w, Close(w.sh, p.call), id, Done(p.key, p.call, w.sh.calls[p.call].claimed, w.now, Owned, Answer(r.body, false, r.failed)))
    case Wake(id) =>
      var p := w.callers[id];
      var r := w.sh.calls[p.call].result.value;
      Move(w, w.sh, id, Done(p.key, p.call, p.looked, w.now, Joined, Answer(r.body, true, r.failed)))
  }

  ghost function Start(now: int): World {
    World(Shared(map[], map[], [], 0), map[], now, 1)
  }

  ghost predicate Run(w: World, acts: seq<Action>, w': World)
    decreases |acts|
  {
    if acts == [] then w' == w else Enabled(w, acts[0]) && Run(Apply(w, acts[0]), acts[1..], w')
  }

  // ---------------------------------------------------------------- what every step keeps

  /** The owner of call `c` and where it stands: one caller, at the stage the call's fields show. */
  ghost predicate OwnerStage(w: World, id: nat)
    requires id in w.callers
  {
    var p := w.callers[id];
    (p.Rendering? || p.Rendered? || p.Published?) ==>
      && p.call < |w.sh.calls|
      && var c := w.sh.calls[p.call];
      && c.key == p.key && !c.closed
      && (p.Rendering? ==> c.result.None?)
      && (!p.Rendering? ==> c.result.Some?)
      && (p.Published? <==> c.published.Some?)
      && (!p.Published? ==> p.key in w.sh.inflight && w.sh.inflight[p.key] == p.call)
  }

  ghost predicate OneOwner(w: World) {
    forall i <- w.callers, j <- w.callers, c :: Owns(w.callers[i], c) && Owns(w.callers[j], c) ==> i == j
  }

  /** A call not yet closed has its owner still at work on it. */
  ghost predicate OpenCallsOwned(w: World) {
    forall c :: 0 <= c < |w.sh.calls| && !w.sh.calls[c].closed ==> exists i <- w.callers :: Owns(w.callers[i], c)
  }

  ghost predicate InflightCalls(sh: Shared) {
    forall k <- sh.inflight :: sh.inflight[k] < |sh.calls| && sh.calls[sh.inflight[k]].key == k
                               && sh.calls[sh.inflight[k]].published.None? && k !in sh.entries
  }

  ghost predicate CallHistory(sh: Shared, now: int, step: nat) {
    forall c :: 0 <= c < |sh.calls| ==> CallOk(sh.calls[c], now, step)
  }

  ghost predicate CallOk(c: Call, now: int, step: nat) {
    && c.claimed < step
    && (c.published.Some? ==> c.claimed < c.published.value < step && c.publishedAt <= now && c.result.Some?)
    && (c.closed ==> c.published.Some?)
  }

  ghost predicate EntryOk(sh: Shared, k: Key, e: Entry) {
    && e.call < |sh.calls|
    && var c := sh.calls[e.call];
    && c.key == k && c.result.Some? && Storable(c.result.value) && c.result.value.body == e.body
    && c.published.Some? && e.expires == c.publishedAt + TTL
  }

  ghost predicate EntriesOk(sh: Shared) {
    |sh.entries| <= MAX_ENTRIES && forall k <- sh.entries :: EntryOk(sh, k, sh.entries[k])
  }

  /** A stored render stays in the map until it expires or the map is cleared. */
  ghost predicate Stays(sh: Shared, now: int) {
    forall c :: 0 <= c < |sh.calls| && Fresh(sh, c, now) ==>
      sh.calls[c].key in sh.entries && sh.entries[sh.calls[c].key].call == c
  }

  /** Call `c` was stored, has not expired, and the map has not been cleared since. */
  ghost predicate Fresh(sh: Shared, c: nat, now: int)
    requires c < |sh.calls|
  {
    var k := sh.calls[c];
    && k.published.Some? && k.result.Some? && Storable(k.result.value)
    && sh.cleared <= k.published.value && now < k.publishedAt + TTL
  }

  /** A waiter joined the call between its claim and its publication. */
  ghost predicate WaiterOk(w: World, p: Caller)
    requires p.Waiting?
  {
    && p.call < |w.sh.calls| && p.looked < w.step
    && var c := w.sh.calls[p.call];
    c.key == p.key && JoinedInFlight(c, p.looked)
  }

  ghost predicate JoinedInFlight(c: Call, looked: nat) {
    c.claimed < looked && (c.published.Some? ==> looked < c.published.value)
  }

  /** An answer is the result of a render of the same key, served by a route its kind allows. */
  ghost predicate AnswerOk(sh: Shared, p: Caller)
    requires p.Done?
  {
    && p.call < |sh.calls|
    && var c := sh.calls[p.call];
    && c.key == p.key && c.result.Some?
    && p.answer.body == c.result.value.body && p.answer.failed == c.result.value.failed
    && match p.how
       case Cached => Storable(c.result.value) && c.published.Some? && c.publishedAt <= p.at < c.publishedAt + TTL && p.answer.hit
       case Owned => p.looked == c.claimed && !p.answer.hit
       case Joined => c.published.Some? && JoinedInFlight(c, p.looked) && p.answer.hit
  }

  ghost predicate SharedInv(sh: Shared, now: int, step: nat) {
    && 0 < step && sh.cleared < step
    && CallHistory(sh, now, step)
    && InflightCalls(sh)
    && EntriesOk(sh)
    && Stays(sh, now)
  }

  ghost predicate Ownership(w: World) {
    OneOwner(w) && OpenCallsOwned(w) && forall i <- w.callers :: OwnerStage(w, i)
  }

  ghost predicate CallerOk(w: World, p: Caller) {
    (p.Waiting? ==> WaiterOk(w, p)) && (p.Done? ==> AnswerOk(w.sh, p))
  }

  ghost predicate Inv(w: World) {
    && SharedInv(w.sh, w.now, w.step)
    && Ownership(w)
    && forall i <- w.callers :: CallerOk(w, w.callers[i])
  }

  // ---------------------------------------------------------------- the shared state, section by section

  /** Calls only gain: results are written once, publication and closing happen once. */
  ghost predicate Grows(sh: Shared, sh': Shared, step: nat) {
    |sh.calls| <= |sh'.calls| && forall c :: 0 <= c < |sh.calls| ==> CallGrows(sh.calls[c], sh'.calls[c], step)
  }

  ghost predicate CallGrows(c: Call, c': Call, step: nat) {
    && c'.key == c.key && c'.claimed == c.claimed
    && (c.result.Some? ==> c'.result == c.result)
    && (c.published.Some? ==> c'.published == c.published && c'.publishedAt == c.publishedAt)
    && (c.published.None? && c'.published.Some? ==> c'.published.value == step)
  }

  lemma TickShared(sh: Shared, now: int, to: int, step: nat)
    requires SharedInv(sh, now, step) && now <= to
    ensures SharedInv(sh, to, step + 1) && Grows(sh, sh, step)
  {
    assert forall c :: 0 <= c < |sh.calls| ==> CallOk(sh.calls[c], now, step);
    assert forall c :: 0 <= c < |sh.calls| && Fresh(sh, c, to) ==> Fresh(sh, c, now);
  }

  lemma DropStays(sh: Shared, key: Key, now: int)
    requires EntriesOk(sh) && Stays(sh, now) && (key in sh.entries ==> sh.entries[key].expires <= now)
    ensures Stays(sh.(entries := sh.entries - {key}), now)
  {
    var sh' := sh.(entries := sh.entries - {key});
    forall c | 0 <= c < |sh.calls| && Fresh(sh', c, now)
      ensures sh.calls[c].key in sh'.entries && sh'.entries[sh.calls[c].key].call == c
    {
      assert Fresh(sh, c, now);
      assert EntryOk(sh, sh.calls[c].key, sh.entries[sh.calls[c].key]);
    }
  }

  lemma DropEntries(sh: Shared, key: Key)
    requires EntriesOk(sh)
    ensures EntriesOk(sh.(entries := sh.entries - {key}))
  {
    var sh' := sh.(entries := sh.entries - {key});
    assert |sh'.entries| <= |sh.entries| by {
      assert sh'.entries.Keys == sh.entries.Keys - {key};
      assert |sh'.entries| == |sh'.entries.Keys| && |sh.entries| == |sh.entries.Keys|;
    }
    forall k | k in sh'.entries
      ensures EntryOk(sh', k, sh'.entries[k])
    {
      assert EntryOk(sh, k, sh.entries[k]);
    }
  }

  /** Dropping an expired entry: nothing else referred to it. */
  lemma DropShared(sh: Shared, key: Key, now: int, step: nat)
    requires SharedInv(sh, now, step) && (key in sh.entries ==> sh.entries[key].expires <= now)
    ensures SharedInv(sh.(entries := sh.entries - {key}), now, step)
  {
    hide EntriesOk;
    hide Stays;
    DropStays(sh, key, now);
    DropEntries(sh, key);
  }

  lemma ClaimShared(sh: Shared, key: Key, now: int, step: nat)
    requires SharedInv(sh, now, step) && key !in sh.entries && key !in sh.inflight
    ensures var sh' := sh.(inflight := sh.inflight[key := |sh.calls|], calls := sh.calls + [Call(key, None, false, step, None, 0)]);
      SharedInv(sh', now, step + 1) && Grows(sh, sh', step)
  {
    var sh' := sh.(inflight := sh.inflight[key := |sh.calls|], calls := sh.calls + [Call(key, None, false, step, None, 0)]);
    TickShared(sh, now, now, step);
    assert forall c :: 0 <= c < |sh.calls| ==> sh'.calls[c] == sh.calls[c];
    assert forall c :: 0 <= c < |sh'.calls| && Fresh(sh', c, now) ==> c < |sh.calls| && Fresh(sh, c, now);
    assert forall k <- sh.entries :: EntryOk(sh, k, sh.entries[k]) ==> EntryOk(sh', k, sh'.entries[k]);
  }

  lemma LookShared(sh: Shared, key: Key, now: int, step: nat)
    requires SharedInv(sh, now, step)
    ensures SharedInv(Look(sh, key, now, step).0, now, step + 1) && Grows(sh, Look(sh, key, now, step).0, step)
  {
    if key in sh.entries && now < sh.entries[key].expires {
      TickShared(sh, now, now, step);
    } else {
      DropShared(sh, key, now, step);
      var sh1 := sh.(entries := sh.entries - {key});
      if key in sh1.inflight {
        TickShared(sh1, now, now, step);
      } else {
        ClaimShared(sh1, key, now, step);
      }
    }
  }

  lemma FillShared(sh: Shared, c: nat, r: Render, now: int, step: nat)
    requires SharedInv(sh, now, step) && c < |sh.calls| && sh.calls[c].result.None?
    ensures SharedInv(Fill(sh, c, r), now, step + 1) && Grows(sh, Fill(sh, c, r), step)
  {
    TickShared(sh, now, now, step);
    var sh' := Fill(sh, c, r);
    assert CallOk(sh.calls[c], now, step);
    assert forall d :: 0 <= d < |sh'.calls| && Fresh(sh', d, now) ==> Fresh(sh, d, now);
    assert forall k <- sh.entries :: EntryOk(sh, k, sh.entries[k]) ==> EntryOk(sh', k, sh'.entries[k]);
  }

  lemma PublishEntries(sh: Shared, key: Key, c: nat, r: Render, now: int, step: nat)
    requires SharedInv(sh, now, step) && key in sh.inflight && sh.inflight[key] == c && sh.calls[c].result == Some(r)
    ensures EntriesOk(Publish(sh, key, c, r, now, step))
  {
    var sh' := Publish(sh, key, c, r, now, step);
    forall k | k in sh'.entries
      ensures EntryOk(sh', k, sh'.entries[k])
    {
      if k != key || !Storable(r) { assert EntryOk(sh, k, sh.entries[k]); }
    }
  }

  lemma PublishStays(sh: Shared, key: Key, c: nat, r: Render, now: int, step: nat)
    requires SharedInv(sh, now, step) && key in sh.inflight && sh.inflight[key] == c && sh.calls[c].result == Some(r)
    ensures Stays(Publish(sh, key, c, r, now, step), now)
  {
    var sh' := Publish(sh, key, c, r, now, step);
    forall d | 0 <= d < |sh'.calls| && Fresh(sh', d, now)
      ensures sh'.calls[d].key in sh'.entries && sh'.entries[sh'.calls[d].key].call == d
    {
      if d != c {
        assert CallOk(sh.calls[d], now, step);
        assert Fresh(sh, d, now);
      }
    }
  }

  lemma PublishHistory(sh: Shared, key: Key, c: nat, r: Render, now: int, step: nat)
    requires SharedInv(sh, now, step) && key in sh.inflight && sh.inflight[key] == c && sh.calls[c].result == Some(r)
    ensures var sh' := Publish(sh, key, c, r, now, step);
      CallHistory(sh', now, step + 1) && Grows(sh, sh', step) && sh'.cleared < step + 1
  {
    var sh' := Publish(sh, key, c, r, now, step);
    hide EntriesOk;
    hide Stays;
    forall d | 0 <= d < |sh'.calls|
      ensures CallOk(sh'.calls[d], now, step + 1) && CallGrows(sh.calls[d], sh'.calls[d], step)
    {
      assert CallOk(sh.calls[d], now, step);
    }
  }

  lemma PublishInflight(sh: Shared, key: Key, c: nat, r: Render, now: int, step: nat)
    requires SharedInv(sh, now, step) && key in sh.inflight && sh.inflight[key] == c && sh.calls[c].result == Some(r)
    ensures InflightCalls(Publish(sh, key, c, r, now, step))
  {
    hide EntriesOk;
    hide Stays;
    hide CallHistory;
  }

  lemma PublishShared(sh: Shared, key: Key, c: nat, r: Render, now: int, step: nat)
    requires SharedInv(sh, now, step) && key in sh.inflight && sh.inflight[key] == c && sh.calls[c].result == Some(r)
    ensures SharedInv(Publish(sh, key, c, r, now, step), now, step + 1) && Grows(sh, Publish(sh, key, c, r, now, step), step)
  {
    PublishEntries(sh, key, c, r, now, step);
    PublishStays(sh, key, c, r, now, step);
    PublishHistory(sh, key, c, r, now, step);
    PublishInflight(sh, key, c, r, now, step);
    hide EntriesOk;
    hide Stays;
    hide CallHistory;
    hide InflightCalls;
    hide Publish;
    hide Grows;
  }

  lemma CloseShared(sh: Shared, c: nat, now: int, step: nat)
    requires SharedInv(sh, now, step) && c < |sh.calls| && sh.calls[c].published.Some?
    ensures SharedInv(Close(sh, c), now, step + 1) && Grows(sh, Close(sh, c), step)
  {
    TickShared(sh, now, now, step);
    var sh' := Close(sh, c);
    assert forall d :: 0 <= d < |sh'.calls| && Fresh(sh', d, now) ==> Fresh(sh, d, now);
    assert forall k <- sh.entries :: EntryOk(sh, k, sh.entries[k]) ==> EntryOk(sh', k, sh'.entries[k]);
  }

  // ---------------------------------------------------------------- callers

  /** Callers that do not move keep their promises when calls only gain. */
  lemma OthersKeep(w: World, w': World)
    requires Inv(w) && Grows(w.sh, w'.sh, w.step) && w'.step == w.step + 1
    ensures forall i <- w.callers :: CallerOk(w', w.callers[i])
  {
    forall i | i in w.callers && (w.callers[i].Waiting? || w.callers[i].Done?)
      ensures CallerOk(w', w.callers[i])
    {
      var q := w.callers[i];
      assert CallerOk(w, q);
      assert CallGrows(w.sh.calls[q.call], w'.sh.calls[q.call], w.step);
      assert CallOk(w.sh.calls[q.call], w.now, w.step);
    }
  }

  /** A step that opens no call and closes none, moving `id` without changing what it owns. */
  lemma OwnershipKeeps(w: World, sh: Shared, id: nat, p: Caller)
    requires Ownership(w) && |sh.calls| == |w.sh.calls|
    requires forall c :: 0 <= c < |sh.calls| ==> sh.calls[c].closed == w.sh.calls[c].closed
    requires forall c :: Owns(p, c) <==> id in w.callers && Owns(w.callers[id], c)
    requires forall i <- w.callers :: i != id ==> OwnerStage(Move(w, sh, id, p), i)
    requires OwnerStage(Move(w, sh, id, p), id)
    ensures Ownership(Move(w, sh, id, p))
  {
    var w' := Move(w, sh, id, p);
    forall c | 0 <= c < |sh.calls| && !sh.calls[c].closed
      ensures exists i <- w'.callers :: Owns(w'.callers[i], c)
    {
      var i :| i in w.callers && Owns(w.callers[i], c);
      assert i in w'.callers && Owns(w'.callers[i], c);
    }
  }

  /** The caller that moved, the others, ownership and the shared state, put back together. */
  lemma Assemble(w: World, sh: Shared, id: nat, p: Caller)
    requires Inv(w) && SharedInv(sh, w.now, w.step + 1) && Grows(w.sh, sh, w.step)
    requires Ownership(Move(w, sh, id, p)) && CallerOk(Move(w, sh, id, p), p)
    ensures Inv(Move(w, sh, id, p))
  {
    OthersKeep(w, Move(w, sh, id, p));
    hide SharedInv;
    hide Ownership;
    hide CallerOk;
    hide Grows;
  }

  lemma LookAnswer(w: World, id: nat)
    requires Inv(w) && Enabled(w, LookUp(id))
    ensures CallerOk(Apply(w, LookUp(id)), Apply(w, LookUp(id)).callers[id])
  {
    var key := w.callers[id].key;
    match Look(w.sh, key, w.now, w.step).1
    case Hit(e) =>
      assert EntryOk(w.sh, key, e) && CallOk(w.sh.calls[e.call], w.now, w.step);
    case Join(c) =>
      assert CallOk(w.sh.calls[c], w.now, w.step);
    case Own(c) =>
  }

  lemma LookKeeps(w: World, id: nat)
    requires Inv(w) && Enabled(w, LookUp(id))
    ensures Inv(Apply(w, LookUp(id)))
  {
    var w' := Apply(w, LookUp(id));
    LookShared(w.sh, w.callers[id].key, w.now, w.step);
    if Look(w.sh, w.callers[id].key, w.now, w.step).1.Own? {
      ClaimOwnership(w, id);
    } else {
      LookOwnership(w, id);
    }
    LookAnswer(w, id);
    hide Look;
    hide SharedInv;
    hide Ownership;
    hide CallerOk;
    hide Grows;
    Assemble(w, w'.sh, id, w'.callers[id]);
    assert w' == Move(w, w'.sh, id, w'.callers[id]);
  }

  lemma LookOwnership(w: World, id: nat)
    requires Inv(w) && Enabled(w, LookUp(id)) && !Look(w.sh, w.callers[id].key, w.now, w.step).1.Own?
    ensures Ownership(Apply(w, LookUp(id)))
  {
    hide SharedInv;
    hide CallerOk;
    var w' := Apply(w, LookUp(id));
    assert forall i <- w.callers :: OwnerStage(w, i);
    assert forall i <- w.callers :: i != id ==> OwnerStage(w', i);
    OwnershipKeeps(w, w'.sh, id, w'.callers[id]);
  }

  lemma ClaimOwnership(w: World, id: nat)
    requires Inv(w) && Enabled(w, LookUp(id)) && Look(w.sh, w.callers[id].key, w.now, w.step).1.Own?
    ensures Ownership(Apply(w, LookUp(id)))
  {
    hide SharedInv;
    hide CallerOk;
    var w' := Apply(w, LookUp(id));
    var n := |w.sh.calls|;
    assert Owns(w'.callers[id], n);
    forall i | i in w.callers && i != id
      ensures OwnerStage(w', i)
      ensures !Owns(w'.callers[i], n)
    {
      assert OwnerStage(w, i);
    }
    forall c | 0 <= c < |w'.sh.calls| && !w'.sh.calls[c].closed
      ensures exists i <- w'.callers :: Owns(w'.callers[i], c)
    {
      if c < n {
        var i :| i in w.callers && Owns(w.callers[i], c);
        assert i in w'.callers && Owns(w'.callers[i], c);
      } else {
        assert id in w'.callers && Owns(w'.callers[id], c);
      }
    }
    assert OneOwner(w');
  }

  lemma ArriveKeeps(w: World, id: nat, key: Key)
    requires Inv(w) && Enabled(w, Arrive(id, key))
    ensures Inv(Apply(w, Arrive(id, key)))
  {
    TickShared(w.sh, w.now, w.now, w.step);
    assert forall i <- w.callers :: OwnerStage(w, i);
    assert forall i <- w.callers :: i != id ==> OwnerStage(Move(w, w.sh, id, Arrived(key)), i);
    hide SharedInv;
    OwnershipKeeps(w, w.sh, id, Arrived(key));
    Assemble(w, w.sh, id, Arrived(key));
  }

  lemma StageOf(w: World, id: nat)
    requires Inv(w) && id in w.callers
    ensures OwnerStage(w, id) && SharedInv(w.sh, w.now, w.step)
  {
    hide SharedInv;
  }

  lemma FillKeeps(w: World, id: nat, r: Render)
    requires Inv(w) && Enabled(w, FinishRender(id, r))
    ensures Inv(Apply(w, FinishRender(id, r)))
  {
    hide Inv;
    hide Fill;
    hide SharedInv;
    hide Ownership;
    hide Grows;
    StageOf(w, id);
    var p := w.callers[id];
    FillShared(w.sh, p.call, r, w.now, w.step);
    FillOwnership(w, id, r);
    Assemble(w, Fill(w.sh, p.call, r), id, Rendered(p.key, p.call));
  }

  lemma FillOwnership(w: World, id: nat, r: Render)
    requires Inv(w) && Enabled(w, FinishRender(id, r))
    ensures Ownership(Apply(w, FinishRender(id, r)))
  {
    var p, w' := w.callers[id], Apply(w, FinishRender(id, r));
    assert Owns(p, p.call);
    forall i | i in w.callers
      ensures OwnerStage(w', i)
    {
      assert OwnerStage(w, i);
      if i != id && !w.callers[i].Arrived? && !w.callers[i].Waiting? && !w.callers[i].Done? {
        assert Owns(w.callers[i], w.callers[i].call);
      }
    }
    OwnershipKeeps(w, w'.sh, id, w'.callers[id]);
  }

  lemma PublishKeeps(w: World, id: nat)
    requires Inv(w) && Enabled(w, PublishResult(id))
    ensures Inv(Apply(w, PublishResult(id)))
  {
    hide Inv;
    hide Publish;
    hide SharedInv;
    hide Ownership;
    hide Grows;
    StageOf(w, id);
    var p := w.callers[id];
    var r := w.sh.calls[p.call].result.value;
    PublishShared(w.sh, p.key, p.call, r, w.now, w.step);
    PublishOwnership(w, id);
    Assemble(w, Publish(w.sh, p.key, p.call, r, w.now, w.step), id, Published(p.key, p.call));
  }

  lemma PublishOwnership(w: World, id: nat)
    requires Inv(w) && Enabled(w, PublishResult(id))
    ensures Ownership(Apply(w, PublishResult(id)))
  {
    var p := w.callers[id];
    assert OwnerStage(w, id);
    var sh := Publish(w.sh, p.key, p.call, w.sh.calls[p.call].result.value, w.now, w.step);
    assert sh.calls == w.sh.calls[p.call := w.sh.calls[p.call].(published := Some(w.step), publishedAt := w.now)];
    hide SharedInv;
    hide Publish;
    PublishedOwnership(w, id, sh);
  }

  lemma PublishedOwnership(w: World, id: nat, sh: Shared)
    requires Ownership(w) && id in w.callers && w.callers[id].Rendered? && w.callers[id].call < |w.sh.calls|
    requires var c := w.callers[id].call;
      sh.calls == w.sh.calls[c := w.sh.calls[c].(published := Some(w.step), publishedAt := w.now)]
    requires sh.inflight == w.sh.inflight - {w.callers[id].key}
    ensures Ownership(Move(w, sh, id, Published(w.callers[id].key, w.callers[id].call)))
  {
    var p := w.callers[id];
    var w' := Move(w, sh, id, Published(p.key, p.call));
    assert OwnerStage(w, id) && Owns(p, p.call);
    forall i | i in w.callers
      ensures OwnerStage(w', i)
    {
      assert OwnerStage(w, i);
      if i != id && !w.callers[i].Arrived? && !w.callers[i].Waiting? && !w.callers[i].Done? {
        assert Owns(w.callers[i], w.callers[i].call);
      }
    }
    OwnershipKeeps(w, sh, id, w'.callers[id]);
  }

  lemma CloseKeeps(w: World, id: nat)
    requires Inv(w) && Enabled(w, CloseDone(id))
    ensures Inv(Apply(w, CloseDone(id)))
  {
    hide Inv;
    hide SharedInv;
    hide Ownership;
    hide Grows;
    StageOf(w, id);
    var p, w' := w.callers[id], Apply(w, CloseDone(id));
    CloseShared(w.sh, p.call, w.now, w.step);
    CloseOwnership(w, id);
    Assemble(w, Close(w.sh, p.call), id, w'.callers[id]);
  }

  lemma CloseOwnership(w: World, id: nat)
    requires Inv(w) && Enabled(w, CloseDone(id))
    ensures Ownership(Apply(w, CloseDone(id)))
  {
    hide SharedInv;
    hide CallerOk;
    var p, w' := w.callers[id], Apply(w, CloseDone(id));
    assert OwnerStage(w, id) && Owns(p, p.call);
    forall i | i in w.callers
      ensures OwnerStage(w', i)
    {
      assert OwnerStage(w, i);
      if i != id && !w.callers[i].Arrived? && !w.callers[i].Waiting? && !w.callers[i].Done? {
        assert Owns(w.callers[i], w.callers[i].call);
      }
    }
    forall c | 0 <= c < |w'.sh.calls| && !w'.sh.calls[c].closed
      ensures exists i <- w'.callers :: Owns(w'.callers[i], c)
    {
      var i :| i in w.callers && Owns(w.callers[i], c);
      assert i in w'.callers && Owns(w'.callers[i], c);
    }
    assert OneOwner(w');
  }

  lemma WakeKeeps(w: World, id: nat)
    requires Inv(w) && Enabled(w, Wake(id))
    ensures Inv(Apply(w, Wake(id)))
  {
    var p, w' := w.callers[id], Apply(w, Wake(id));
    TickShared(w.sh, w.now, w.now, w.step);
    assert CallerOk(w, p) && CallOk(w.sh.calls[p.call], w.now, w.step);
    assert CallerOk(w', w'.callers[id]);
    assert forall i <- w.callers :: OwnerStage(w, i);
    assert forall i <- w.callers :: OwnerStage(w', i);
    OwnershipKeeps(w, w.sh, id, w'.callers[id]);
    Assemble(w, w.sh, id, w'.callers[id]);
  }

  lemma TickKeeps(w: World, to: int)
    requires Inv(w) && Enabled(w, Tick(to))
    ensures Inv(Apply(w, Tick(to)))
  {
    var w' := Apply(w, Tick(to));
    TickShared(w.sh, w.now, to, w.step);
    OthersKeep(w, w');
    hide SharedInv;
    forall i | i in w.callers
      ensures OwnerStage(w', i)
    {
      assert OwnerStage(w, i);
    }
    assert OneOwner(w') && OpenCallsOwned(w');
  }

  lemma StepKeeps(w: World, a: Action)
    requires Inv(w) && Enabled(w, a)
    ensures Inv(Apply(w, a))
  {
    match a
    case Tick(to) => TickKeeps(w, to);
    case Arrive(id, key) => ArriveKeeps(w, id, key);
    case LookUp(id) => LookKeeps(w, id);
    case FinishRender(id, r) => FillKeeps(w, id, r);
    case PublishResult(id) => PublishKeeps(w, id);
    case CloseDone(id) => CloseKeeps(w, id);
    case Wake(id) => WakeKeeps(w, id);
  }

  lemma {:induction false} RunKeeps(w: World, acts: seq<Action>, w': World)
    requires Inv(w) && Run(w, acts, w')
    ensures Inv(w')
    decreases |acts|
  {
    if acts != [] {
      StepKeeps(w, acts[0]);
      RunKeeps(Apply(w, acts[0]), acts[1..], w');
    }
  }

  // ---------------------------------------------------------------- what holds in every interleaving

  /** One render per key at a time, entries and in-flight keys apart, at most 512 entries, and nobody waits
      for a call that is neither closed nor still in its owner's hands. */
  lemma SingleFlight(start: int, acts: seq<Action>, w: World)
    requires Run(Start(start), acts, w)
    ensures forall i <- w.callers, j <- w.callers ::
      (InRender(w.callers[i]) && InRender(w.callers[j]) && w.callers[i].key == w.callers[j].key ==> i == j)
    ensures w.sh.entries.Keys !! w.sh.inflight.Keys && |w.sh.entries| <= 512
    ensures forall i <- w.callers :: w.callers[i].Waiting? ==>
      && w.callers[i].call < |w.sh.calls|
      && (w.sh.calls[w.callers[i].call].closed || exists j <- w.callers :: Owns(w.callers[j], w.callers[i].call))
  {
    RunKeeps(Start(start), acts, w);
    hide SharedInv;
    forall i, j | i in w.callers && j in w.callers && w.callers[i].key == w.callers[j].key
                  && InRender(w.callers[i]) && InRender(w.callers[j])
      ensures i == j
    {
      assert OwnerStage(w, i) && OwnerStage(w, j);
      assert Owns(w.callers[i], w.callers[i].call) && Owns(w.callers[j], w.callers[j].call);
    }
    forall i | i in w.callers && w.callers[i].Waiting?
      ensures w.callers[i].call < |w.sh.calls|
    {
      assert CallerOk(w, w.callers[i]);
    }
  }

  /** Every answer is what a render of that very key returned; a cached one is a storable success younger than
      the TTL, and a failed or uncacheable one went only to its owner and to callers that joined in flight. */
  lemma AnswersFromOwnKey(start: int, acts: seq<Action>, w: World, id: nat)
    requires Run(Start(start), acts, w) && id in w.callers && w.callers[id].Done?
    ensures AnswerOk(w.sh, w.callers[id])
    ensures w.callers[id].how.Cached? ==> w.callers[id].at < w.sh.calls[w.callers[id].call].publishedAt + 5_000_000_000
    ensures var c := w.sh.calls[w.callers[id].call];
      c.result.Some? && (c.result.value.failed || !c.result.value.cacheable) ==>
        w.callers[id].how.Owned? || JoinedInFlight(c, w.callers[id].looked)
  {
    RunKeeps(Start(start), acts, w);
    assert CallerOk(w, w.callers[id]);
  }

  /** Entries of other keys: none is new or changed and, given room, none is lost. */
  ghost predicate OthersKept(before: map<Key, Entry>, after: map<Key, Entry>, key: Key, room: bool) {
    && (forall k <- after :: k != key ==> k in before && after[k] == before[k])
    && (room ==> forall k <- before :: k != key ==> k in after)
  }

  /** A publication keeps every other entry as it is while the map has room, and adds none but its own. */
  lemma PublishKeepsOthers(sh: Shared, key: Key, c: nat, r: Render, now: int, step: nat)
    ensures var sh' := Publish(sh, key, c, r, now, step);
      OthersKept(sh.entries, sh'.entries, key, |sh.entries| < 512 || !Storable(r)) && sh'.inflight == sh.inflight - {key}
  {}

  /** The map is cleared only by a publication that finds it full. */
  lemma StepClears(w: World, a: Action)
    requires Enabled(w, a) && Apply(w, a).sh.cleared != w.sh.cleared
    ensures a.PublishResult? && |w.sh.entries| >= 512 && Apply(w, a).sh.cleared == w.step
  {}

  /** After `n` steps of a run a publication found the map full, in state `m`. */
  ghost predicate FoundFull(w: World, acts: seq<Action>, n: nat, m: World) {
    n < |acts| && Run(w, acts[..n], m) && acts[n].PublishResult? && |m.sh.entries| >= 512
  }

  lemma {:induction false} ClearedWhenFull(w: World, acts: seq<Action>, w': World)
    requires Run(w, acts, w') && w'.sh.cleared != w.sh.cleared
    ensures exists n: nat, m :: FoundFull(w, acts, n, m) && m.step == w'.sh.cleared
    decreases |acts|
  {
    hide Enabled;
    hide Apply;
    if acts != [] {
      var w1 := Apply(w, acts[0]);
      if w'.sh.cleared != w1.sh.cleared {
        ClearedWhenFull(w1, acts[1..], w');
        var n: nat, m :| FoundFull(w1, acts[1..], n, m) && m.step == w'.sh.cleared;
        var longer := acts[..n + 1];
        assert longer[0] == acts[0] && longer[1..] == acts[1..][..n];
        assert Run(w, longer, m);
        assert FoundFull(w, acts, n + 1, m);
      } else {
        StepClears(w, acts[0]);
        assert acts[..0] == [];
        assert FoundFull(w, acts, 0, w);
      }
    }
  }

  /** The TTL is a rate bound: when a key is claimed for rendering, every earlier stored render of it was published five
      seconds ago or more, unless a later publication of the run found the map full and cleared it. */
  lemma RendersSpaced(start: int, acts: seq<Action>, w: World, id: nat, c: nat)
    requires Run(Start(start), acts, w) && Enabled(w, LookUp(id)) && Look(w.sh, w.callers[id].key, w.now, w.step).1.Own?
    requires c < |w.sh.calls| && w.sh.calls[c].key == w.callers[id].key
    requires w.sh.calls[c].published.Some? && w.sh.calls[c].result.Some? && Storable(w.sh.calls[c].result.value)
    ensures w.sh.calls[c].publishedAt + 5_000_000_000 <= w.now ||
      exists n: nat, m :: FoundFull(Start(start), acts, n, m) && w.sh.calls[c].published.value < m.step
  {
    RunKeeps(Start(start), acts, w);
    FreshIsServed(w.sh, w.now, w.step, c);
    if w.sh.calls[c].publishedAt + TTL > w.now {
      assert w.sh.calls[c].published.value < w.sh.cleared;
      ClearedWhenFull(Start(start), acts, w);
    }
  }

  /** A stored render that has neither expired nor been cleared is the one served. */
  lemma FreshIsServed(sh: Shared, now: int, step: nat, c: nat)
    requires SharedInv(sh, now, step) && c < |sh.calls|
    ensures Fresh(sh, c, now) ==> !Look(sh, sh.calls[c].key, now, step).1.Own?
  {
    if Fresh(sh, c, now) {
      assert EntryOk(sh, sh.calls[c].key, sh.entries[sh.calls[c].key]);
    }
  }
}
