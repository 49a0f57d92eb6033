/** The render cache as the shared object of internal/api/statuspagecache.go: each method is one stretch of `do`
    that the lock, or the single writer of a call, makes atomic. */
module RenderCacheObject {
  import opened Options
  import opened RenderCache

  /** What a caller of `do` comes to: an answer, or another's call to wait on. */
  datatype Outcome = Answered(answer: Answer) | MustWait(call: nat)

  lemma LookedUp(before: map<Key, Entry>, after: map<Key, Entry>, key: Key)
    requires after == before || after == before - {key}
    ensures forall room :: OthersKept(before, after, key, room)
  {}

  lemma Composed(before: map<Key, Entry>, after: map<Key, Entry>, key: Key, room: bool)
    requires OthersKept(before - {key}, after, key, room)
    ensures OthersKept(before, after, key, room)
  {}

  class StatusPageCache {
    var entries: map<Key, Entry>
    var inflight: map<Key, nat>
    var calls: seq<Call>
    ghost var cleared: nat

    ghost function View(): Shared
      reads this
    {
      Shared(entries, inflight, calls, cleared)
    }

    constructor ()
      ensures View() == Shared(map[], map[], [], 0)
    {
      entries, inflight, calls, cleared := map[], map[], [], 0;
    }

    /** Check the cache, then the renders in flight, then claim the key. */
    method LookUp(key: Key, now: int, step: nat) returns (l: Looked)
      modifies this
      ensures (View(), l) == Look(old(View()), key, now, step)
    {
      if key in entries {
        if now < entries[key].expires { return Hit(entries[key]); }
        entries := entries - {key};
      }
      assert entries == old(entries) - {key};
      if key in inflight { return Join(inflight[key]); }
      l := Own(|calls|);
      inflight := inflight[key := |calls|];
      calls := calls + [Call(key, None, false, step, None, 0)];
    }

    method FinishRender(c: nat, r: Render)
      requires c < |calls|
      modifies this`calls
      ensures View() == Fill(old(View()), c, r)
    {
      calls := calls[c := calls[c].(result := Some(r))];
    }

    method PublishResult(key: Key, c: nat, now: int, step: nat)
      requires c < |calls| && calls[c].result.Some?
      modifies this
      ensures View() == Publish(old(View()), key, c, old(calls[c].result.value), now, step)
    {
      var r := calls[c].result.value;
      inflight := inflight - {key};
      calls := calls[c := calls[c].(published := Some(step), publishedAt := now)];
      if !r.failed && r.cacheable {
        if |entries| >= MAX_ENTRIES {
          entries := map[];
          cleared := step;
        }
        entries := entries[key := Entry(r.body, now + TTL, c)];
      }
    }

    method CloseDone(c: nat)
      requires c < |calls|
      modifies this`calls
      ensures View() == Close(old(View()), c)
    {
      calls := calls[c := calls[c].(closed := true)];
    }

    /** The owner's half of `do`: render, publish, close. */
    method RenderOwn(key: Key, c: nat, r: Render, now: int, step: nat) returns (a: Answer)
      requires c < |calls| && key !in entries
      modifies this
      ensures a == Answer(r.body, false, r.failed) && inflight == old(inflight) - {key}
      ensures key in entries <==> Storable(r)
      ensures key in entries ==> entries[key].body == r.body && entries[key].expires == now + TTL
      ensures OthersKept(old(entries), entries, key, |old(entries)| < 512 || !Storable(r))
    {
      FinishRender(c, r);
      PublishKeepsOthers(View(), key, c, r, now, step);
      PublishResult(key, c, now, step);
      CloseDone(c);
      a := Answer(r.body, false, r.failed);
    }

    /** `do` up to where it must wait: the cached body while it lives; else, with somebody rendering the key, the call to wait
        on; else this render's result, which is cached for later exactly when it is a storable success. */
    method Do(key: Key, r: Render, now: int, later: int, step: nat) returns (o: Outcome)
      modifies this
      ensures old(key in entries && now < entries[key].expires) ==>
        o == Answered(Answer(old(entries[key].body), true, false)) && View() == old(View())
      ensures !old(key in entries && now < entries[key].expires) && key in old(inflight) ==>
        o == MustWait(old(inflight[key])) && View() == old(View()).(entries := old(entries) - {key})
      ensures !old(key in entries && now < entries[key].expires) && key !in old(inflight) ==>
        && o == Answered(Answer(r.body, false, r.failed)) && inflight == old(inflight)
        && (key in entries <==> !r.failed && r.cacheable)
        && (key in entries ==> entries[key].body == r.body && entries[key].expires == later + 5_000_000_000)
      ensures OthersKept(old(entries), entries, key, |old(entries) - {key}| < 512 || !Storable(r))
    {
      hide OthersKept;
      var l := LookUp(key, now, step);
      ghost var seen := entries;
      LookedUp(old(entries), seen, key);
      match l
      case Hit(e) => o := Answered(Answer(e.body, true, false));
      case Join(c) => o := MustWait(c);
      case Own(c) =>
        var a := RenderOwn(key, c, r, later, step + 1);
        o := Answered(a);
        Composed(old(entries), entries, key, |seen| < 512 || !Storable(r));
    }

    /** The wait of a caller that joined: once the channel is closed it answers with the owner's result, as a hit. */
    method Await(c: nat) returns (a: Answer)
      requires c < |calls| && calls[c].closed && calls[c].result.Some?
      ensures a == Answer(calls[c].result.value.body, true, calls[c].result.value.failed)
    {
      var r := calls[c].result.value;
      a := Answer(r.body, true, r.failed);
    }
  }
}
