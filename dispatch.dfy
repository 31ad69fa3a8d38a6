/**
 * The dispatch worker of the `worker` service, as a specification: the queue item
 * decoder, the worker's state (the two Redis lists, the cooldown key, the
 * `hasFailedRequestsToProcess` flag and what has been forwarded to each processor's
 * database lane), and one loop iteration as a function of that state.
 *
 * What the environment answers is a parameter: the JSON decoder (`unmarshal`), each
 * processor's verdict on the k-th item of the popped batch (`accepts`), whether a Redis
 * pop failed, and the current time in seconds (`now`).
 */
module Dispatch {
  import opened Wrappers

  /** At most this many items are popped from a list per iteration. */
  const BatchSize := 250

  /** Seconds the key `default_failed_10_secs_ago` lives after a default-processor failure. */
  const CooldownTtl := 10

  const RequestedAtKey := "requestedAt"

  datatype Json =
    | JString(str: string)
    | JNumber(num: int)
    | JBool(b: bool)
    | JNull
    | JArray(elems: seq<Json>)
    | JObject(members: map<string, Json>)

  /** A decoded JSON object, Go's `map[string]interface{}`. */
  type Obj = map<string, Json>

  datatype Gateway = Default | Fallback

  /**
   * The environment of one iteration: `unmarshal` is `json.Unmarshal` into a map (`None`
   * for invalid JSON); `accepts(g, k)` is whether processor `g` answers 200 to the k-th
   * item of the batch popped in this iteration.
   */
  datatype Oracles = Oracles(unmarshal: string -> Option<Obj>, accepts: (Gateway, nat) -> bool)

  datatype ParseError = InvalidFormat | InvalidJson

  // ---------------------------------------------------------------------------
  // parseRequest

  /** The first occurrence of `c` in `s`, if any. */
  function IndexOf(s: string, c: char): (r: Option<nat>)
    ensures r.None? ==> c !in s
    ensures r.Some? ==> r.value < |s| && s[r.value] == c && c !in s[..r.value]
  {
    if s == [] then None
    else if s[0] == c then Some(0)
    else match IndexOf(s[1..], c)
      case None => None
      case Some(i) =>
        assert s[..i + 1] == [s[0]] + s[1..][..i];
        Some(i + 1)
  }

  /** Position `k` holds the first `@` of `raw`. */
  predicate FirstAt(raw: string, k: int)
  {
    0 <= k < |raw| && raw[k] == '@' && '@' !in raw[..k]
  }

  /**
   * `parseRequest`: split at the first `@` (`strings.SplitN(raw, "@", 2)`), decode the
   * remainder as a JSON object, and set its `requestedAt` member to the prefix.
   */
  function ParseRequest(raw: string, unmarshal: string -> Option<Obj>): (r: Result<Obj, ParseError>)
    ensures '@' !in raw ==> r == Err(InvalidFormat)
    ensures forall k {:trigger FirstAt(raw, k)} :: FirstAt(raw, k) ==>
      match unmarshal(raw[k + 1..])
      case None => r == Err(InvalidJson)
      case Some(o) => r == Ok(o[RequestedAtKey := JString(raw[..k])])
  {
    match IndexOf(raw, '@')
    case None => Err(InvalidFormat)
    case Some(k) =>
      assert forall j :: FirstAt(raw, j) ==> j == k;
      match unmarshal(raw[k + 1..])
      case None => Err(InvalidJson)
      case Some(o) => Ok(o[RequestedAtKey := JString(raw[..k])])
  }

  /** The queue encoding `requestedAt@json` that the worker expects producers to push. */
  function Encode(requestedAt: string, json: string): string
  {
    requestedAt + "@" + json
  }

  /**
   * Decoding an encoded item gives back the JSON object with `requestedAt` set to the
   * prefix, overriding any `requestedAt` the JSON had, even when the JSON contains `@`.
   */
  lemma ParseEncoded(requestedAt: string, json: string, unmarshal: string -> Option<Obj>)
    requires '@' !in requestedAt
    ensures ParseRequest(Encode(requestedAt, json), unmarshal) ==
      match unmarshal(json)
      case None => Err(InvalidJson)
      case Some(o) => Ok(o[RequestedAtKey := JString(requestedAt)])
    ensures ParseRequest(Encode(requestedAt, json), unmarshal).Ok? ==>
      ParseRequest(Encode(requestedAt, json), unmarshal).value[RequestedAtKey] == JString(requestedAt)
  {
    var raw := Encode(requestedAt, json);
    var k := |requestedAt|;
    assert raw[..k] == requestedAt;
    assert raw[k + 1..] == json;
    assert FirstAt(raw, k);
  }

  // ---------------------------------------------------------------------------
  // The worker's state and one iteration

  /**
   * `requests` and `failed` are the Redis lists `requests` and `failed_requests` (head
   * first); the cooldown key is present while `now < cooldownExpiry`; `hasFailed` is
   * `hasFailedRequestsToProcess`; the lanes are the payloads forwarded to the database
   * for each processor, in order.
   */
  datatype State = State(
    requests: seq<string>,
    failed: seq<string>,
    cooldownExpiry: Option<int>,
    hasFailed: bool,
    defaultLane: seq<Obj>,
    fallbackLane: seq<Obj>)

  /** The key `default_failed_10_secs_ago` exists at time `now`. */
  predicate CoolingDown(s: State, now: int)
  {
    s.cooldownExpiry.Some? && now < s.cooldownExpiry.value
  }

  /**
   * `callDefaultProcessor`: the new state, and whether the default processor took the
   * payment. The payload lands in exactly one place: the default lane, or (as raw text)
   * `failed`; a refusal starts a cooldown covering the next ten seconds.
   */
  function CallDefault(s: State, raw: string, data: Obj, accepted: bool, now: int): (r: (State, bool))
    ensures r.1 == accepted
    ensures r.0.requests == s.requests && r.0.fallbackLane == s.fallbackLane
    ensures |r.0.defaultLane| + |r.0.failed| == |s.defaultLane| + |s.failed| + 1
    ensures r.0.defaultLane == s.defaultLane + (if accepted then [data] else [])
    ensures r.0.failed == s.failed + (if accepted then [] else [raw])
    ensures accepted ==> r.0.hasFailed == s.hasFailed && r.0.cooldownExpiry == s.cooldownExpiry
    ensures !accepted ==> r.0.cooldownExpiry == Some(now + CooldownTtl)
    ensures !accepted ==> r.0.hasFailed && forall t :: now <= t < now + CooldownTtl ==> CoolingDown(r.0, t)
  {
    if accepted then (s.(defaultLane := s.defaultLane + [data]), true)
    else (s.(failed := s.failed + [raw], cooldownExpiry := Some(now + CooldownTtl), hasFailed := true), false)
  }

  /**
   * `callFallbackProcessor`: the new state, and whether the fallback processor took the
   * payment. Only the fallback lane can change; a refusal changes nothing.
   */
  function CallFallback(s: State, data: Obj, accepted: bool): (r: (State, bool))
    ensures r.1 == accepted
    ensures r.0 == s.(fallbackLane := s.fallbackLane + (if accepted then [data] else []))
  {
    if accepted then (s.(fallbackLane := s.fallbackLane + [data]), true) else (s, false)
  }

  /**
   * One popped item, the k-th of its batch: malformed items are dropped; otherwise the
   * default processor is tried, and on a retry pass the fallback after a failed default
   * attempt, whose result is ignored.
   */
  function Step(s: State, raw: string, k: nat, retrying: bool, o: Oracles, now: int): (r: State)
    ensures r.requests == s.requests
    ensures ParseRequest(raw, o.unmarshal).Err? ==> r == s
    // a well-formed item goes to exactly one of the default lane and `failed`
    ensures ParseRequest(raw, o.unmarshal).Ok? ==>
      || (r.defaultLane == s.defaultLane + [ParseRequest(raw, o.unmarshal).value] && r.failed == s.failed)
      || (r.defaultLane == s.defaultLane && r.failed == s.failed + [raw])
    // the fallback is reached only on a retry pass, after a refusal that requeued the item
    ensures r.fallbackLane != s.fallbackLane ==>
      && retrying && r.failed == s.failed + [raw] && ParseRequest(raw, o.unmarshal).Ok?
      && r.fallbackLane == s.fallbackLane + [ParseRequest(raw, o.unmarshal).value]
  {
    match ParseRequest(raw, o.unmarshal)
    case Err(_) => s
    case Ok(data) =>
      var (s1, delivered) := CallDefault(s, raw, data, o.accepts(Default, k), now);
      if delivered || !retrying then s1 else CallFallback(s1, data, o.accepts(Fallback, k)).0
  }

  /** The items of a popped batch, processed one at a time in order. */
  function Drain(s: State, items: seq<string>, retrying: bool, o: Oracles, now: int): (r: State)
    ensures r.requests == s.requests
    ensures s.failed <= r.failed && s.defaultLane <= r.defaultLane && s.fallbackLane <= r.fallbackLane
    ensures !retrying ==> r.fallbackLane == s.fallbackLane
  {
    if items == [] then s
    else Step(Drain(s, items[..|items| - 1], retrying, o, now), items[|items| - 1], |items| - 1, retrying, o, now)
  }

  /** `processFailedRequests`: skipped while cooling down; otherwise pop a batch of `failed` and retry it. */
  function Sweep(s: State, o: Oracles, now: int, popFails: bool): (r: State)
    ensures r.requests == s.requests
    ensures CoolingDown(s, now) || popFails ==> r == s
    ensures s.defaultLane <= r.defaultLane && s.fallbackLane <= r.fallbackLane
    // the items left in `failed` stay at its head, ahead of anything requeued
    ensures !CoolingDown(s, now) && !popFails ==> s.failed[Min(BatchSize, |s.failed|)..] <= r.failed
  {
    if CoolingDown(s, now) || popFails then s
    else
      var n := Min(BatchSize, |s.failed|);
      if n == 0 then s.(hasFailed := false)
      else Drain(s.(failed := s.failed[n..]), s.failed[..n], true, o, now)
  }

  /** One pass of the loop in `execute`: pop a batch of `requests`, process it, and sweep when idle. */
  function Iteration(s: State, o: Oracles, now: int, popFails: bool, sweepPopFails: bool): (r: State)
    // a payment forwarded to a processor is never taken back
    ensures s.defaultLane <= r.defaultLane && s.fallbackLane <= r.fallbackLane
  {
    if popFails then s
    else
      var n := Min(BatchSize, |s.requests|);
      var s1 := Drain(s.(requests := s.requests[n..]), s.requests[..n], false, o, now);
      if n == 0 && s1.hasFailed then Sweep(s1, o, now, sweepPopFails) else s1
  }

  // ---------------------------------------------------------------------------
  // Reference views of a batch

  /** The items of a batch that decode, in order. */
  function WellFormed(items: seq<string>, unmarshal: string -> Option<Obj>): seq<string>
  {
    if items == [] then []
    else
      var last := items[|items| - 1];
      WellFormed(items[..|items| - 1], unmarshal) + (if ParseRequest(last, unmarshal).Ok? then [last] else [])
  }

  /** What they decode to, in order. */
  function Decoded(items: seq<string>, unmarshal: string -> Option<Obj>): seq<Obj>
  {
    if items == [] then []
    else
      var last := items[|items| - 1];
      Decoded(items[..|items| - 1], unmarshal) +
        (match ParseRequest(last, unmarshal) case Ok(d) => [d] case Err(_) => [])
  }

  /** What the items of a batch that processor `g` accepts decode to, in order. */
  function Accepted(items: seq<string>, o: Oracles, g: Gateway): seq<Obj>
  {
    if items == [] then []
    else
      var k := |items| - 1;
      Accepted(items[..k], o, g) +
        (match ParseRequest(items[k], o.unmarshal) case Ok(d) => (if o.accepts(g, k) then [d] else []) case Err(_) => [])
  }

  /** The raw text of the well-formed items of a batch that the default processor refuses, in order. */
  function Refused(items: seq<string>, o: Oracles): seq<string>
  {
    if items == [] then []
    else
      var k := |items| - 1;
      Refused(items[..k], o) + (if ParseRequest(items[k], o.unmarshal).Ok? && !o.accepts(Default, k) then [items[k]] else [])
  }

  /** What the items refused by the default processor and accepted by the fallback decode to, in order. */
  function Rescued(items: seq<string>, o: Oracles): seq<Obj>
  {
    if items == [] then []
    else
      var k := |items| - 1;
      Rescued(items[..k], o) +
        (match ParseRequest(items[k], o.unmarshal)
         case Ok(d) => (if !o.accepts(Default, k) && o.accepts(Fallback, k) then [d] else [])
         case Err(_) => [])
  }

  // ---------------------------------------------------------------------------
  // Properties of a batch

  /**
   * The whole effect of a batch, item by item: the default lane gains exactly the items
   * the default processor accepted, `failed` exactly the raw text of those it refused,
   * and, on a retry pass only, the fallback lane exactly the refused items the fallback
   * accepted; the flag and the cooldown are raised exactly when something was refused.
   */
  lemma {:induction false} DrainExact(s: State, items: seq<string>, retrying: bool, o: Oracles, now: int)
    ensures var refused := Refused(items, o);
      Drain(s, items, retrying, o, now) == s.(
        failed := s.failed + refused,
        defaultLane := s.defaultLane + Accepted(items, o, Default),
        fallbackLane := if retrying then s.fallbackLane + Rescued(items, o) else s.fallbackLane,
        cooldownExpiry := if refused == [] then s.cooldownExpiry else Some(now + CooldownTtl),
        hasFailed := s.hasFailed || refused != [])
  {
    if items != [] {
      var k := |items| - 1;
      var prefix, last := items[..k], items[k];
      DrainExact(s, prefix, retrying, o, now);
      var mid := Drain(s, prefix, retrying, o, now);
      match ParseRequest(last, o.unmarshal)
      case Err(_) =>
        assert Drain(s, items, retrying, o, now) == mid;
      case Ok(d) =>
        if o.accepts(Default, k) {
          assert Drain(s, items, retrying, o, now) == mid.(defaultLane := mid.defaultLane + [d]);
        } else {
          assert Refused(items, o) == Refused(prefix, o) + [last];
          assert Drain(s, items, retrying, o, now) == mid.(
            failed := mid.failed + [last],
            fallbackLane := if retrying && o.accepts(Fallback, k) then mid.fallbackLane + [d] else mid.fallbackLane,
            cooldownExpiry := Some(now + CooldownTtl),
            hasFailed := true);
        }
    }
  }

  /**
   * Processing a batch only appends: every well-formed item goes either to the default
   * lane or to `failed`, never both; the fallback lane grows only on a retry pass and by
   * no more than `failed` does; the flag and the cooldown are raised exactly when
   * something was requeued.
   */
  lemma {:induction false} DrainShape(s: State, items: seq<string>, retrying: bool, o: Oracles, now: int)
    ensures var r := Drain(s, items, retrying, o, now);
      && r.requests == s.requests
      && s.failed <= r.failed && s.defaultLane <= r.defaultLane && s.fallbackLane <= r.fallbackLane
      && (|r.failed| - |s.failed|) + (|r.defaultLane| - |s.defaultLane|) == |WellFormed(items, o.unmarshal)|
      && |r.fallbackLane| - |s.fallbackLane| <= |r.failed| - |s.failed|
      && (!retrying ==> r.fallbackLane == s.fallbackLane)
      && r.hasFailed == (s.hasFailed || |r.failed| > |s.failed|)
      && r.cooldownExpiry == (if |r.failed| > |s.failed| then Some(now + CooldownTtl) else s.cooldownExpiry)
  {
    if items != [] {
      DrainShape(s, items[..|items| - 1], retrying, o, now);
    }
  }

  /** What is requeued is the raw text of well-formed items of the batch: malformed ones are never requeued. */
  lemma {:induction false} RequeuedAreWellFormed(s: State, items: seq<string>, retrying: bool, o: Oracles, now: int)
    ensures var r := Drain(s, items, retrying, o, now);
      forall i :: |s.failed| <= i < |r.failed| ==> r.failed[i] in items && ParseRequest(r.failed[i], o.unmarshal).Ok?
  {
    if items != [] {
      var prefix := items[..|items| - 1];
      RequeuedAreWellFormed(s, prefix, retrying, o, now);
      DrainShape(s, prefix, retrying, o, now);
      var mid := Drain(s, prefix, retrying, o, now);
      var r := Drain(s, items, retrying, o, now);
      forall i | |s.failed| <= i < |r.failed|
        ensures r.failed[i] in items && ParseRequest(r.failed[i], o.unmarshal).Ok?
      {
        if i < |mid.failed| {
          assert r.failed[i] == mid.failed[i];
          assert mid.failed[i] in prefix;
        } else {
          assert r.failed[i] == items[|items| - 1];
        }
      }
    }
  }

  /** A batch that contains no well-formed item changes nothing. */
  lemma MalformedBatchIsDropped(s: State, items: seq<string>, retrying: bool, o: Oracles, now: int)
    requires forall i :: 0 <= i < |items| ==> ParseRequest(items[i], o.unmarshal).Err?
    ensures Drain(s, items, retrying, o, now) == s
  {
    RequeuedAreWellFormed(s, items, retrying, o, now);
    DrainShape(s, items, retrying, o, now);
    WellFormedEmpty(items, o.unmarshal);
    var r := Drain(s, items, retrying, o, now);
    assert r.failed == s.failed;
    assert r.defaultLane == s.defaultLane;
    assert r.fallbackLane == s.fallbackLane;
  }

  lemma {:induction false} WellFormedEmpty(items: seq<string>, unmarshal: string -> Option<Obj>)
    requires forall i :: 0 <= i < |items| ==> ParseRequest(items[i], unmarshal).Err?
    ensures WellFormed(items, unmarshal) == []
  {
    if items != [] {
      WellFormedEmpty(items[..|items| - 1], unmarshal);
    }
  }

  /**
   * When the default processor accepts every item, each well-formed item is forwarded to
   * the default lane exactly once, in batch order, and nothing else changes: no requeue,
   * no cooldown, no flag, nothing to the fallback lane.
   */
  lemma {:induction false} DefaultUpDeliversInOrder(s: State, items: seq<string>, retrying: bool, o: Oracles, now: int)
    requires forall k: nat :: k < |items| ==> o.accepts(Default, k)
    ensures Drain(s, items, retrying, o, now) == s.(defaultLane := s.defaultLane + Decoded(items, o.unmarshal))
  {
    if items != [] {
      DefaultUpDeliversInOrder(s, items[..|items| - 1], retrying, o, now);
    }
  }

  /**
   * On a retry pass where the default processor rejects everything and the fallback
   * accepts everything, each well-formed item reaches the fallback lane exactly once, and
   * is also appended to `failed` again, so a later sweep sends it once more.
   */
  lemma {:induction false} DefaultDownFallbackUp(s: State, items: seq<string>, o: Oracles, now: int)
    requires forall k: nat :: k < |items| ==> !o.accepts(Default, k) && o.accepts(Fallback, k)
    ensures var w := WellFormed(items, o.unmarshal);
      Drain(s, items, true, o, now) == s.(
        failed := s.failed + w,
        fallbackLane := s.fallbackLane + Decoded(items, o.unmarshal),
        cooldownExpiry := if w == [] then s.cooldownExpiry else Some(now + CooldownTtl),
        hasFailed := s.hasFailed || w != [])
  {
    if items != [] {
      var prefix, last := items[..|items| - 1], items[|items| - 1];
      DefaultDownFallbackUp(s, prefix, o, now);
      var mid := Drain(s, prefix, true, o, now);
      match ParseRequest(last, o.unmarshal)
      case Err(_) =>
        assert Drain(s, items, true, o, now) == mid;
      case Ok(d) =>
        assert WellFormed(items, o.unmarshal) == WellFormed(prefix, o.unmarshal) + [last];
        assert Decoded(items, o.unmarshal) == Decoded(prefix, o.unmarshal) + [d];
        assert Drain(s, items, true, o, now) == mid.(
          failed := mid.failed + [last],
          fallbackLane := mid.fallbackLane + [d],
          cooldownExpiry := Some(now + CooldownTtl),
          hasFailed := true);
    }
  }

  /**
   * When the default processor refuses every item, every well-formed item is requeued as
   * raw text, whatever the fallback answers; on a retry pass the fallback lane gains
   * exactly the items the fallback accepted, and nothing reaches the default lane.
   */
  lemma {:induction false} DefaultDownRequeuesAll(s: State, items: seq<string>, retrying: bool, o: Oracles, now: int)
    requires forall k: nat :: k < |items| ==> !o.accepts(Default, k)
    ensures var w := WellFormed(items, o.unmarshal);
      Drain(s, items, retrying, o, now) == s.(
        failed := s.failed + w,
        fallbackLane := if retrying then s.fallbackLane + Accepted(items, o, Fallback) else s.fallbackLane,
        cooldownExpiry := if w == [] then s.cooldownExpiry else Some(now + CooldownTtl),
        hasFailed := s.hasFailed || w != [])
  {
    if items != [] {
      var k := |items| - 1;
      var prefix, last := items[..k], items[k];
      DefaultDownRequeuesAll(s, prefix, retrying, o, now);
      var mid := Drain(s, prefix, retrying, o, now);
      match ParseRequest(last, o.unmarshal)
      case Err(_) =>
        assert Drain(s, items, retrying, o, now) == mid;
      case Ok(d) =>
        assert WellFormed(items, o.unmarshal) == WellFormed(prefix, o.unmarshal) + [last];
        assert Drain(s, items, retrying, o, now) == mid.(
          failed := mid.failed + [last],
          fallbackLane := if retrying && o.accepts(Fallback, k) then mid.fallbackLane + [d] else mid.fallbackLane,
          cooldownExpiry := Some(now + CooldownTtl),
          hasFailed := true);
    }
  }

  /** A processor that accepts nothing is sent nothing that sticks. */
  lemma {:induction false} NoneAccepted(items: seq<string>, o: Oracles, g: Gateway)
    requires forall k: nat :: k < |items| ==> !o.accepts(g, k)
    ensures Accepted(items, o, g) == []
  {
    if items != [] {
      NoneAccepted(items[..|items| - 1], o, g);
    }
  }

  /**
   * A sweep in which both processors refuse every item drops nothing: the popped
   * well-formed items go back to the tail of `failed`, in order, behind the items that
   * were not popped, and the cooldown is re-armed. No lane changes.
   */
  lemma DoubleFailureRequeues(s: State, o: Oracles, now: int)
    requires !CoolingDown(s, now)
    requires forall k: nat :: k < BatchSize ==> !o.accepts(Default, k) && !o.accepts(Fallback, k)
    ensures var n := Min(BatchSize, |s.failed|);
      var w := WellFormed(s.failed[..n], o.unmarshal);
      n > 0 ==> Sweep(s, o, now, false) == s.(
        failed := s.failed[n..] + w,
        cooldownExpiry := if w == [] then s.cooldownExpiry else Some(now + CooldownTtl),
        hasFailed := s.hasFailed || w != [])
  {
    var n := Min(BatchSize, |s.failed|);
    if n > 0 {
      var batch := s.failed[..n];
      DefaultDownRequeuesAll(s.(failed := s.failed[n..]), batch, true, o, now);
      NoneAccepted(batch, o, Fallback);
    }
  }

  // ---------------------------------------------------------------------------
  // Properties of an iteration and of the sweep

  /**
   * An iteration whose pop fails changes nothing; otherwise it removes the first
   * min(250, n) items of `requests` and adds nothing to it.
   */
  lemma IterationPopsHead(s: State, o: Oracles, now: int, popFails: bool, sweepPopFails: bool)
    ensures popFails ==> Iteration(s, o, now, popFails, sweepPopFails) == s
    ensures !popFails ==>
      Iteration(s, o, now, popFails, sweepPopFails).requests == s.requests[Min(BatchSize, |s.requests|)..]
  {
  }

  /**
   * The fallback processor is reached only by a sweep: the iteration's pop succeeded and
   * found `requests` empty, the flag was up, the cooldown had lapsed and the pop of
   * `failed` succeeded. Fresh traffic never goes to the fallback processor.
   */
  lemma FallbackOnlyFromIdleSweep(s: State, o: Oracles, now: int, popFails: bool, sweepPopFails: bool)
    ensures var r := Iteration(s, o, now, popFails, sweepPopFails);
      r.fallbackLane != s.fallbackLane ==>
        !popFails && s.requests == [] && s.hasFailed && !CoolingDown(s, now) && !sweepPopFails
  {
    if !popFails {
      var n := Min(BatchSize, |s.requests|);
      var s0 := s.(requests := s.requests[n..]);
      DrainShape(s0, s.requests[..n], false, o, now);
      var s1 := Drain(s0, s.requests[..n], false, o, now);
      if n == 0 {
        assert s.requests[..n] == [];
        assert s1 == s0;
      }
    }
  }

  /**
   * Outside an idle, uncooled sweep whose pops succeed, an iteration neither pops the head
   * of `failed` nor lowers the flag: `failed` only grows at its tail and a raised flag
   * stays raised.
   */
  lemma NoSweepUnlessIdle(s: State, o: Oracles, now: int, popFails: bool, sweepPopFails: bool)
    requires !(!popFails && s.requests == [] && s.hasFailed && !CoolingDown(s, now) && !sweepPopFails)
    ensures var r := Iteration(s, o, now, popFails, sweepPopFails);
      s.failed <= r.failed && (s.hasFailed ==> r.hasFailed) && r.fallbackLane == s.fallbackLane
  {
    if !popFails {
      var n := Min(BatchSize, |s.requests|);
      DrainShape(s.(requests := s.requests[n..]), s.requests[..n], false, o, now);
      if n == 0 {
        assert s.requests[..n] == [];
      }
    }
  }

  /** While the cooldown key exists, an idle iteration is a no-op: the sweep is skipped. */
  lemma CooldownSuppressesSweep(s: State, o: Oracles, now: int, popFails: bool, sweepPopFails: bool)
    requires s.requests == [] && CoolingDown(s, now)
    ensures Iteration(s, o, now, popFails, sweepPopFails) == s
  {
    if !popFails {
      assert s.requests[..0] == [] && s.requests[0..] == s.requests;
      assert s.(requests := s.requests[0..]) == s;
    }
  }

  /**
   * After a batch in which some item failed at time `t`, a sweep attempted before
   * `t + 10` removes nothing from `failed`, calls no processor and changes nothing.
   */
  lemma SweepWithinCooldownIsNoop(s: State, items: seq<string>, o: Oracles, t: int, o': Oracles, now: int, popFails: bool)
    requires |Drain(s, items, false, o, t).failed| > |s.failed|
    requires t <= now < t + CooldownTtl
    ensures var r := Drain(s, items, false, o, t);
      Sweep(r, o', now, popFails) == r
  {
    DrainShape(s, items, false, o, t);
  }

  /** Once the cooldown has lapsed, a pop of an empty `failed` lowers the flag and nothing else. */
  lemma EmptyFailedClearsFlag(s: State, o: Oracles, now: int)
    requires s.failed == [] && !CoolingDown(s, now)
    ensures Sweep(s, o, now, false) == s.(hasFailed := false)
  {
  }

  /** An item without `@` is popped and dropped: no crash, no requeue, no lane changes, no sweep. */
  lemma UndelimitedItemDropped(s: State, raw: string, o: Oracles, now: int, sweepPopFails: bool)
    requires s.requests == [raw] && '@' !in raw
    ensures Iteration(s, o, now, false, sweepPopFails) == s.(requests := [])
  {
    var items := s.requests[..1];
    var s0 := s.(requests := s.requests[1..]);
    assert items == [raw];
    assert ParseRequest(items[0], o.unmarshal).Err?;
    MalformedBatchIsDropped(s0, items, false, o, now);
  }

  /** The text `garbage-no-delimiter` is such an item. */
  lemma GarbageItemDropped(s: State, o: Oracles, now: int, sweepPopFails: bool)
    requires s.requests == ["garbage-no-delimiter"]
    ensures Iteration(s, o, now, false, sweepPopFails) == s.(requests := [])
  {
    var raw := "garbage-no-delimiter";
    assert forall i :: 0 <= i < |raw| ==> raw[i] != '@';
    UndelimitedItemDropped(s, raw, o, now, sweepPopFails);
  }
}
