/** The core's two agent endpoints (internal/api/handlers_agent.go): the claim that builds its parallel arrays, and the
    results request that publishes, then acks. */
module PullCore {
  import opened AgentBatch
  import opened PullProtocol

  /** What the region check makes of a request. */
  datatype Scope = InScope | NoRegion | Foreign | CheckFails

  datatype Status = Accepted(n: nat) | BadRequest | Forbidden | ServerError

  const LEASE_SECONDS: nat := 30

  class Core {
    var world: World

    constructor ()
      ensures world == EMPTY
    {
      world := EMPTY;
    }

    /** How many jobs one claim may lease: 16 unless the agent asks otherwise, never more than 64. */
    static function BatchLimit(requested: int): nat {
      if requested <= 0 then 16 else if requested > 64 then 64 else requested
    }

    /** Leases the rows the store picked, of the claim's region, carrier and kinds and within its limit, and answers with jobs,
        tokens and generations at the same places. */
    method AgentJobs(ids: seq<nat>, region: string, endpoint: Generation, requested: int, kinds: seq<string>) returns (b: Batch)
      requires MayClaim(world, ids, Claim(region, endpoint, BatchLimit(requested), LEASE_SECONDS, kinds))
      modifies this
      ensures Parallel(b) && |b.jobs| <= 64 && forall k :: 0 <= k < |b.jobs| ==> 1 <= b.generations[k] <= endpoint
      ensures forall k :: 0 <= k < |ids| ==> var row := old(world).queue[ids[k]];
        row.region == region && (row.kind.Some? ==> row.kind.value in kinds)
      ensures |b.jobs| <= if requested <= 0 then 16 else requested
      ensures var c := Claim(region, endpoint, BatchLimit(requested), 30, kinds);
        b == Leased(old(world), ids, c) && forall decode :: world == Apply(decode, old(world), CoreClaims(ids, c))
    {
      var c := Claim(region, endpoint, BatchLimit(requested), LEASE_SECONDS, kinds);
      var before := world;
      world := world.(queue := Lease(before, ids, c), issued := before.issued + ids);
      var jobs, tokens, generations := [], [], [];
      for k := 0 to |ids|
        invariant |jobs| == |tokens| == |generations| == k
        invariant forall i :: 0 <= i < k ==>
          jobs[i] == before.payloads[ids[i]] && tokens[i] == |before.issued| + i &&
          generations[i] == before.queue[ids[i]].generation
      {
        jobs := jobs + [before.payloads[ids[k]]];
        tokens := tokens + [|before.issued| + k];
        generations := generations + [before.queue[ids[k]].generation];
      }
      b := Batch(jobs, tokens, generations);
      assert b == Leased(before, ids, c);
      assert forall k :: 0 <= k < |ids| ==> Selects(c, before.queue[ids[k]]);
      world := Send(world, Delivery(endpoint, b));
    }

    /** Publishes each result, and acks only when all were accepted. `publishFails` and `ackFails` say which store and
        sink calls fail; `published` counts the results that got through. Every outcome is a step of the protocol. */
    method AgentResults(results: seq<Heartbeat>, ack: seq<Token>, scope: Scope, publishFails: nat -> bool, ackFails: bool)
      returns (status: Status, published: nat)
      modifies this
      ensures status.Accepted? <==> scope.InScope? && !ackFails && forall i :: 0 <= i < |results| ==> !publishFails(i)
      ensures !scope.InScope? ==> world == old(world)
      ensures (status == BadRequest <==> scope.NoRegion?) && (status == Forbidden <==> scope.Foreign?)
      ensures scope.InScope? ==> world == Received(old(world), results, ack, published, status.Accepted?)
      ensures status.Accepted? ==>
        world == Retired(old(world).(sink := old(world).sink + results), results, ack) && status.n == |results|
      ensures status.Accepted? ==> forall id :: id in world.queue <==>
        id in old(world).queue && !(old(world).queue[id].token.Some? && old(world).queue[id].token.value in ack)
      ensures !status.Accepted? ==> world.queue == old(world).queue && world.fates == old(world).fates
    {
      match scope {
        case NoRegion => return BadRequest, 0;
        case Foreign => return Forbidden, 0;
        case CheckFails => return ServerError, 0;
        case InScope =>
      }
      for i := 0 to |results|
        invariant world == old(world).(sink := old(world).sink + results[..i])
        invariant forall k :: 0 <= k < i ==> !publishFails(k)
      {
        if publishFails(i) { return ServerError, i; }
        world := world.(sink := world.sink + [results[i]]);
        assert old(world).sink + results[..i + 1] == old(world).sink + results[..i] + [results[i]];
      }
      assert results[..|results|] == results;
      if ackFails { return ServerError, |results|; }
      world := Retired(world, results, ack);
      return Accepted(|results|), |results|;
    }
  }
}
