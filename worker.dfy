/**
 * The dispatch worker itself, `App` of the `worker` service: the Redis lists, the
 * cooldown key and the `hasFailedRequestsToProcess` flag are fields that its methods
 * update in place; the payloads forwarded to the database are ghost lanes. Each method
 * is proved against the functions of `Dispatch`.
 */
module Worker {
  import opened Wrappers
  import opened Dispatch

  class App {
    /** The Redis list `requests`, head first. */
    var requests: seq<string>
    /** The Redis list `failed_requests`, head first. */
    var failedRequests: seq<string>
    /** When the key `default_failed_10_secs_ago` expires; `None` if it was never set. */
    var cooldownExpiry: Option<int>
    var hasFailedRequestsToProcess: bool
    /** What was forwarded to `/processor-default` and `/processor-fallback`, in order. */
    ghost var defaultLane: seq<Obj>
    ghost var fallbackLane: seq<Obj>

    ghost function Snapshot(): State
      reads this
    {
      State(requests, failedRequests, cooldownExpiry, hasFailedRequestsToProcess, defaultLane, fallbackLane)
    }

    /** `NewApp` over whatever Redis already holds; the flag starts lowered. */
    constructor (requests: seq<string>, failedRequests: seq<string>, cooldownExpiry: Option<int>)
      ensures Snapshot() == State(requests, failedRequests, cooldownExpiry, false, [], [])
    {
      this.requests := requests;
      this.failedRequests := failedRequests;
      this.cooldownExpiry := cooldownExpiry;
      hasFailedRequestsToProcess := false;
      defaultLane, fallbackLane := [], [];
    }

    /**
     * `callDefaultProcessor`: on success the payload is forwarded to the default lane and
     * nothing else changes; on failure the raw item (not the decoded payload) goes to the
     * tail of `failed_requests`, the cooldown is re-armed for 10 s from `now` and the flag
     * is raised.
     */
    method CallDefaultProcessor(raw: string, data: Obj, accepted: bool, now: int) returns (ok: bool)
      modifies this
      ensures ok == accepted
      ensures ok ==>
        && defaultLane == old(defaultLane) + [data]
        && failedRequests == old(failedRequests)
        && cooldownExpiry == old(cooldownExpiry)
        && hasFailedRequestsToProcess == old(hasFailedRequestsToProcess)
      ensures !ok ==>
        && defaultLane == old(defaultLane)
        && failedRequests == old(failedRequests) + [raw]
        && cooldownExpiry == Some(now + CooldownTtl)
        && hasFailedRequestsToProcess
      ensures requests == old(requests) && fallbackLane == old(fallbackLane)
      ensures (Snapshot(), ok) == CallDefault(old(Snapshot()), raw, data, accepted, now)
    {
      if accepted {
        defaultLane := defaultLane + [data];
        return true;
      }
      failedRequests := failedRequests + [raw];
      cooldownExpiry := Some(now + CooldownTtl);
      hasFailedRequestsToProcess := true;
      ok := false;
    }

    /** `callFallbackProcessor`: on success the payload is forwarded to the fallback lane; on failure nothing happens. */
    method CallFallbackProcessor(data: Obj, accepted: bool) returns (ok: bool)
      modifies this
      ensures ok == accepted
      ensures fallbackLane == if ok then old(fallbackLane) + [data] else old(fallbackLane)
      ensures requests == old(requests) && failedRequests == old(failedRequests)
      ensures cooldownExpiry == old(cooldownExpiry) && hasFailedRequestsToProcess == old(hasFailedRequestsToProcess)
      ensures defaultLane == old(defaultLane)
      ensures (Snapshot(), ok) == CallFallback(old(Snapshot()), data, accepted)
    {
      if accepted {
        fallbackLane := fallbackLane + [data];
        return true;
      }
      ok := false;
    }

    /** `processFailedRequests`: the cooldown-gated retry sweep over `failed_requests`. */
    method ProcessFailedRequests(o: Oracles, now: int, popFails: bool)
      modifies this
      ensures Snapshot() == Sweep(old(Snapshot()), o, now, popFails)
    {
      if cooldownExpiry.Some? && now < cooldownExpiry.value {
        return;
      }
      if popFails {
        return;
      }
      var n := Min(BatchSize, |failedRequests|);
      var items := failedRequests[..n];
      failedRequests := failedRequests[n..];
      if n == 0 {
        hasFailedRequestsToProcess := false;
        return;
      }
      ghost var popped := Snapshot();
      for k := 0 to |items|
        invariant Snapshot() == Drain(popped, items[..k], true, o, now)
      {
        assert items[..k + 1][..k] == items[..k];
        ghost var before := Snapshot();
        var parsed := ParseRequest(items[k], o.unmarshal);
        if parsed.Ok? {
          var delivered := CallDefaultProcessor(items[k], parsed.value, o.accepts(Default, k), now);
          if !delivered {
            delivered := CallFallbackProcessor(parsed.value, o.accepts(Fallback, k));
          }
        }
        assert Snapshot() == Step(before, items[k], k, true, o, now);
      }
      assert items[..|items|] == items;
    }

    /** One pass of the loop in `execute`, with the sleeps left out. */
    method Execute(o: Oracles, now: int, popFails: bool, sweepPopFails: bool)
      modifies this
      ensures Snapshot() == Iteration(old(Snapshot()), o, now, popFails, sweepPopFails)
    {
      if popFails {
        return;
      }
      var n := Min(BatchSize, |requests|);
      var items := requests[..n];
      requests := requests[n..];
      ghost var popped := Snapshot();
      for k := 0 to |items|
        invariant Snapshot() == Drain(popped, items[..k], false, o, now)
      {
        assert items[..k + 1][..k] == items[..k];
        ghost var before := Snapshot();
        var parsed := ParseRequest(items[k], o.unmarshal);
        if parsed.Ok? {
          var delivered := CallDefaultProcessor(items[k], parsed.value, o.accepts(Default, k), now);
        }
        assert Snapshot() == Step(before, items[k], k, false, o, now);
      }
      assert items[..|items|] == items;
      if |items| == 0 && hasFailedRequestsToProcess {
        ProcessFailedRequests(o, now, sweepPopFails);
      }
    }
  }
}
