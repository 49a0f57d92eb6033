/** The login limiter as the object of internal/auth/ratelimit.go: timestamps live in backing arrays that
    `Allow` compacts in place and appends to, and `Sweep` deletes keys. */
module LoginLimiter {
  import opened LoginWindow

  /** A slice: a backing array and how much of it is in use. */
  datatype Slice = Slice(arr: array<int>, len: nat)

  /** Compacts `arr[..len]` in place to the times after `cutoff`: the writes stay behind the reads. */
  method Compact(arr: array<int>, len: nat, cutoff: int) returns (kept: nat)
    requires len <= arr.Length
    modifies arr
    ensures kept <= len && arr[..kept] == After(old(arr[..len]), cutoff)
  {
    kept := 0;
    ghost var was := arr[..len];
    for i := 0 to len
      invariant kept <= i
      invariant arr[i..len] == was[i..]
      invariant arr[..kept] == After(was[..i], cutoff)
    {
      assert arr[i] == arr[i..len][0] == was[i];
      assert was[..i + 1][..i] == was[..i];
      assert arr[i + 1..len] == arr[i..len][1..] == was[i + 1..];
      if arr[i] > cutoff {
        ghost var before := arr[..kept];
        arr[kept] := arr[i];
        kept := kept + 1;
        assert arr[..kept] == before + [was[i]];
        assert arr[i + 1..len] == was[i + 1..];
      }
    }
    assert was[..len] == was;
  }

  class Limiter {
    const limit: int
    var hits: map<Key, Slice>
    var lastSweep: int

    /** Which key each backing array was made for: no two keys share one. */
    ghost var owner: map<array<int>, Key>

    ghost predicate Holds(k: Key, s: Slice, times: seq<int>)
      requires s.arr in owner
      reads this, owner.Keys
    {
      owner[s.arr] == k && s.len <= s.arr.Length && s.arr[..s.len] == times
    }

    /** The slices hold exactly the times of `v`. */
    ghost predicate Shows(v: State)
      reads this, owner.Keys
    {
      && limit == v.limit && lastSweep == v.lastSweep && hits.Keys == v.hits.Keys
      && forall k <- hits :: hits[k].arr in owner && Holds(k, hits[k], v.hits[k])
    }

    constructor (perMinute: int)
      ensures Shows(Init(perMinute)) && owner.Keys == {}
    {
      limit := perMinute;
      hits, lastSweep, owner := map[], 0, map[];
    }

    method SweepKeys(now: int, ghost v: State)
      requires Shows(v)
      modifies this`hits, this`lastSweep
      ensures Shows(Sweep(v, now))
    {
      if lastSweep != 0 && now - lastSweep < SWEEP_INTERVAL { return; }
      lastSweep := now;
      DropStale(now - WINDOW, v);
      assert hits.Keys == Sweep(v, now).hits.Keys;
    }

    /** Deletes the keys whose newest time is not after the cutoff, in any order. */
    method DropStale(cutoff: int, ghost v: State)
      requires hits.Keys == v.hits.Keys
      requires forall k <- hits :: hits[k].arr in owner && Holds(k, hits[k], v.hits[k])
      modifies this`hits
      ensures forall k :: k in hits <==> k in v.hits && !Stale(v.hits[k], cutoff)
      ensures forall k <- hits :: k in old(hits) && hits[k] == old(hits)[k]
    {
      var todo := hits.Keys;
      while todo != {}
        invariant todo <= hits.Keys <= v.hits.Keys
        invariant forall k <- hits :: k in old(hits) && hits[k] == old(hits)[k]
        invariant forall k <- v.hits :: k !in todo ==> (k in hits <==> !Stale(v.hits[k], cutoff))
        decreases todo
      {
        var k :| k in todo;
        var s := hits[k];
        assert v.hits[k] == s.arr[..s.len];
        if s.len == 0 || s.arr[s.len - 1] <= cutoff { hits := hits - {k}; }
        todo := todo - {k};
      }
    }

    /** Appends to a slice, into a new array when the backing one is full. */
    method Append(s: Slice, t: int) returns (r: Slice)
      requires s.len <= s.arr.Length
      modifies s.arr
      ensures r.len == s.len + 1 <= r.arr.Length && (r.arr == s.arr || fresh(r.arr))
      ensures r.arr[..r.len] == old(s.arr[..s.len]) + [t]
    {
      if s.len < s.arr.Length {
        s.arr[s.len] := t;
        r := Slice(s.arr, s.len + 1);
      } else {
        var bigger := new int[2 * s.len + 1];
        forall i | 0 <= i < s.len { bigger[i] := s.arr[i]; }
        bigger[s.len] := t;
        r := Slice(bigger, s.len + 1);
      }
    }

    /** The slice of a key: the stored one, or an empty one made for it. */
    method Slot(key: Key, ghost v: State) returns (s: Slice)
      requires Shows(v)
      modifies this`owner
      ensures Shows(v) && s.arr in owner && Holds(key, s, Hits(v, key))
      ensures s.arr in old(owner) || fresh(s.arr)
      ensures forall a <- owner :: a in old(owner) || a == s.arr
    {
      if key in hits {
        s := hits[key];
      } else {
        var empty := new int[0];
        s := Slice(empty, 0);
        owner := owner[empty := key];
      }
    }

    /** Stores what became of the slice of `key`; every other key still shows its times. */
    method Store(key: Key, s: Slice, ghost v: State)
      requires limit == v.limit && lastSweep == v.lastSweep && hits.Keys == v.hits.Keys
      requires s.len <= s.arr.Length
      requires forall k <- hits :: hits[k].arr in owner && (k != key ==> hits[k].arr != s.arr && Holds(k, hits[k], v.hits[k]))
      modifies this`hits, this`owner
      ensures Shows(v.(hits := v.hits[key := s.arr[..s.len]])) && owner.Keys == old(owner.Keys) + {s.arr}
    {
      hits := hits[key := s];
      owner := owner[s.arr := key];
    }

    /** One attempt, where `v` is what the slices show before it. */
    method Allow(key: Key, now: int, ghost v: State) returns (ok: bool)
      requires Shows(v)
      modifies this, owner.Keys
      ensures var (v', allowed) := LoginWindow.Allow(v, key, now); Shows(v') && ok == allowed
      ensures fresh(owner.Keys - old(owner.Keys))
    {
      hide Sweep;
      hide After;
      if limit <= 0 { return true; }
      SweepKeys(now, v);
      ghost var swept := Sweep(v, now);
      var s := Slot(key, swept);
      ok := Record(key, s, now, swept);
    }

    /** Compacts the slice of `key` in place, then stores it, with the new time if there is room. */
    method Record(key: Key, s: Slice, now: int, ghost v: State) returns (ok: bool)
      requires Shows(v) && s.arr in owner && Holds(key, s, Hits(v, key))
      modifies this`hits, this`owner, s.arr
      ensures var kept := After(Hits(v, key), now - WINDOW);
        ok == (|kept| < limit) && Shows(v.(hits := v.hits[key := if ok then kept + [now] else kept]))
      ensures fresh(owner.Keys - old(owner.Keys))
    {
      hide After;
      var n := Compact(s.arr, s.len, now - WINDOW);
      var kept := Slice(s.arr, n);
      if n >= limit {
        Store(key, kept, v);
        ok := false;
      } else {
        var longer := Append(kept, now);
        Store(key, longer, v);
        ok := true;
      }
    }
  }

  /** A limiter fed a whole list of attempts answers as the window on values does, so, when times do not go back, as the full
      history says. */
  method Feed(perMinute: int, attempts: seq<Attempt>) returns (answers: seq<bool>)
    ensures |answers| == |attempts| && answers == Verdicts(LoginWindow.Run(Init(perMinute), attempts).1)
    ensures Monotone(attempts) ==> forall i :: 0 <= i < |attempts| ==>
      answers[i] == Verdict(perMinute, LoginWindow.Run(Init(perMinute), attempts).1[..i], attempts[i])
  {
    hide LoginWindow.Allow;
    hide LoginWindow.Run;
    var l := new Limiter(perMinute);
    answers := [];
    ghost var v: State, h: seq<Event> := Init(perMinute), [];
    RunNone(perMinute);
    for n := 0 to |attempts|
      invariant fresh(l) && fresh(l.owner.Keys) && l.Shows(v)
      invariant LoginWindow.Run(Init(perMinute), attempts[..n]) == (v, h)
      invariant answers == Verdicts(h) && |h| == n
    {
      var a := attempts[n];
      RunStep(perMinute, attempts, n);
      var ok := l.Allow(a.key, a.at, v);
      answers := answers + [ok];
      v, h := LoginWindow.Allow(v, a.key, a.at).0, h + [Event(a.key, a.at, ok)];
    }
    assert attempts[..|attempts|] == attempts;
    if Monotone(attempts) {
      forall i | 0 <= i < |attempts|
        ensures answers[i] == Verdict(perMinute, h[..i], attempts[i])
      {
        AnswersFollowHistory(perMinute, attempts, i);
      }
    }
  }

  ghost function Verdicts(h: seq<Event>): seq<bool> {
    seq(|h|, i requires 0 <= i < |h| => h[i].allowed)
  }

  lemma RunNone(limit: int)
    ensures LoginWindow.Run(Init(limit), []) == (Init(limit), [])
  {}

  lemma RunStep(limit: int, attempts: seq<Attempt>, n: nat)
    requires n < |attempts|
    ensures var (v, h) := LoginWindow.Run(Init(limit), attempts[..n]); var a := attempts[n];
      var (v', ok) := LoginWindow.Allow(v, a.key, a.at);
      LoginWindow.Run(Init(limit), attempts[..n + 1]) == (v', h + [Event(a.key, a.at, ok)])
  {
    hide LoginWindow.Allow;
    assert attempts[..n + 1][..n] == attempts[..n];
  }
}
