/**
 * The settlement store of the `database` service: two append-only lanes of payments,
 * one per processor (`default`, `fallback`), a list of raw requests, and a range query
 * that finds the records of a lane whose timestamp lies in [from, to] with two binary
 * searches and sums their amounts.
 *
 * Amounts are integer cents. HTTP decoding is an oracle: a handler receives the decoded
 * body, or `None` when the decoder rejected it.
 */
module Settlement {
  import opened Wrappers
  import DateTime

  /** A settled payment: timestamp in microseconds since the epoch, amount in cents. */
  datatype Payment = Payment(timestamp: int, amount: int)

  /** A raw payment request as the `/payments` endpoint stores it. */
  datatype Request = Request(amount: int, requestedAt: string, correlationId: string)

  /** GET /payments lists at most this many requests. */
  const PageSize := 250

  const StatusOk := 200
  const StatusAccepted := 202
  const StatusBadRequest := 400
  const StatusMethodNotAllowed := 405

  datatype HttpMethod = Get | Post | OtherMethod

  // ---------------------------------------------------------------------------
  // The query, as a specification

  /** Lanes are appended in non-decreasing timestamp order; the store relies on it, it does not check it. */
  predicate Sorted(lane: seq<Payment>)
  {
    forall i, j :: 0 <= i <= j < |lane| ==> lane[i].timestamp <= lane[j].timestamp
  }

  /** The records of `lane` with `from <= timestamp <= to`, in lane order. */
  function InRange(lane: seq<Payment>, from: int, to: int): seq<Payment>
  {
    if lane == [] then []
    else
      var last := lane[|lane| - 1];
      InRange(lane[..|lane| - 1], from, to) + (if from <= last.timestamp <= to then [last] else [])
  }

  /** The sum of the amounts. */
  function Total(ps: seq<Payment>): int
  {
    if ps == [] then 0 else Total(ps[..|ps| - 1]) + ps[|ps| - 1].amount
  }

  datatype LaneSummary = LaneSummary(totalAmount: int, totalRequests: nat)

  /** What a summary of `lane` over [from, to] should report: the count and the sum of the records in range. */
  function Query(lane: seq<Payment>, from: int, to: int): LaneSummary
  {
    LaneSummary(Total(InRange(lane, from, to)), |InRange(lane, from, to)|)
  }

  /**
   * If exactly the positions [start, end) hold in-range records, the filter is that slice.
   * This is what makes two binary searches enough.
   */
  lemma {:induction false} InRangeIsSlice(lane: seq<Payment>, from: int, to: int, start: nat, end: nat)
    requires start <= end <= |lane|
    requires forall k :: 0 <= k < |lane| ==> (from <= lane[k].timestamp <= to <==> start <= k < end)
    ensures InRange(lane, from, to) == lane[start..end]
  {
    if lane != [] {
      var n := |lane| - 1;
      var prefix := lane[..n];
      if end <= n {
        InRangeIsSlice(prefix, from, to, start, end);
        assert prefix[start..end] == lane[start..end];
      } else if start < end {
        InRangeIsSlice(prefix, from, to, start, end - 1);
        assert lane[start..end] == prefix[start..end - 1] + [lane[n]];
      } else {
        InRangeIsSlice(prefix, from, to, n, n);
      }
    }
  }

  /** A range that covers every timestamp selects the whole lane: its count and sum are the lane's. */
  lemma WholeLaneInRange(lane: seq<Payment>, from: int, to: int)
    requires forall k :: 0 <= k < |lane| ==> from <= lane[k].timestamp <= to
    ensures InRange(lane, from, to) == lane
    ensures Query(lane, from, to) == LaneSummary(Total(lane), |lane|)
  {
    InRangeIsSlice(lane, from, to, 0, |lane|);
    assert lane[0..|lane|] == lane;
  }

  /** An empty lane, or a range that no timestamp falls into, summarises to (0, 0). */
  lemma NoMatchesSummariseToZero(lane: seq<Payment>, from: int, to: int)
    requires forall k :: 0 <= k < |lane| ==> !(from <= lane[k].timestamp <= to)
    ensures Query(lane, from, to) == LaneSummary(0, 0)
  {
    InRangeIsSlice(lane, from, to, 0, 0);
  }

  /** Records at 100, 200, 300 worth 10.00, 20.00, 30.00: the range [100, 200] holds two worth 30.00. */
  lemma ThreeRecordScenario()
    ensures Query([Payment(100, 1000), Payment(200, 2000), Payment(300, 3000)], 100, 200) == LaneSummary(3000, 2)
  {
    var lane := [Payment(100, 1000), Payment(200, 2000), Payment(300, 3000)];
    InRangeIsSlice(lane, 100, 200, 0, 2);
    assert lane[0..2] == [Payment(100, 1000), Payment(200, 2000)];
    assert [Payment(100, 1000), Payment(200, 2000)][..1] == [Payment(100, 1000)];
    assert [Payment(100, 1000)][..0] == [];
  }

  /** Appending keeps a lane sorted exactly when the new record is not older than the last one. */
  lemma AppendKeepsSorted(lane: seq<Payment>, p: Payment)
    ensures Sorted(lane + [p]) <==> Sorted(lane) && (lane == [] || lane[|lane| - 1].timestamp <= p.timestamp)
  {
    var s := lane + [p];
    if Sorted(s) {
      forall i, j | 0 <= i <= j < |lane|
        ensures lane[i].timestamp <= lane[j].timestamp
      {
        assert lane[i] == s[i] && lane[j] == s[j];
      }
      if lane != [] {
        assert s[|lane| - 1] == lane[|lane| - 1] && s[|lane|] == p;
      }
    }
  }

  // ---------------------------------------------------------------------------
  // The query, as the code runs it

  /** `f` is false then true over [0, n): the precondition `sort.Search` documents. */
  ghost predicate Monotone(n: nat, f: nat -> bool)
  {
    forall a: nat, b: nat :: a <= b < n && f(a) ==> f(b)
  }

  /**
   * Go's `sort.Search(n, f)`. Whatever `f` is, the result is a boundary: `f` is false just
   * below it and true at it. When `f` is monotone it is the least index where `f` holds.
   */
  method Search(n: nat, f: nat -> bool) returns (i: nat)
    ensures i <= n
    ensures i < n ==> f(i)
    ensures 0 < i ==> !f(i - 1)
    ensures Monotone(n, f) ==> forall k: nat :: k < i ==> !f(k)
  {
    var lo: nat, hi: nat := 0, n;
    while lo < hi
      invariant lo <= hi <= n
      invariant hi < n ==> f(hi)
      invariant 0 < lo ==> !f(lo - 1)
      invariant Monotone(n, f) ==> forall k: nat :: k < lo ==> !f(k)
    {
      var h := (lo + hi) / 2;
      if !f(h) {
        lo := h + 1;
      } else {
        hi := h;
      }
    }
    i := lo;
  }

  datatype SummaryError = SliceBoundsOutOfRange

  /**
   * `getRequestsSummary`: `start` is the first record with timestamp >= from, `end` the
   * first with timestamp > to, and the slice [start, end) is counted and summed. When
   * `from > to` and a record lies strictly between them, `end < start` and the Go slice
   * expression panics; that is the `Err` result.
   */
  method GetRequestsSummary(requests: seq<Payment>, from: int, to: int) returns (r: Result<LaneSummary, SummaryError>)
    ensures Sorted(requests) && from <= to ==> r.Ok?
    ensures Sorted(requests) ==> (r.Err? <==> exists k :: 0 <= k < |requests| && to < requests[k].timestamp < from)
    ensures Sorted(requests) && r.Ok? ==> r.value == Query(requests, from, to)
    ensures r.Ok? ==> r.value.totalRequests <= |requests|
  {
    var n := |requests|;
    var atOrAfterFrom := (k: nat) => k < |requests| && requests[k].timestamp >= from;
    var afterTo := (k: nat) => k < |requests| && requests[k].timestamp > to;
    var start := Search(n, atOrAfterFrom);
    var end := Search(n, afterTo);
    if Sorted(requests) {
      assert Monotone(n, atOrAfterFrom);
      assert Monotone(n, afterTo);
    }
    if end < start {
      if Sorted(requests) {
        assert to < requests[end].timestamp < from;
      }
      return Err(SliceBoundsOutOfRange);
    }
    var totalAmount := 0;
    for k := start to end
      invariant totalAmount == Total(requests[start..k])
    {
      assert requests[start..k + 1][..k - start] == requests[start..k];
      totalAmount := totalAmount + requests[k].amount;
    }
    r := Ok(LaneSummary(totalAmount, end - start));
    if Sorted(requests) {
      forall k | 0 <= k < n
        ensures from <= requests[k].timestamp <= to <==> start <= k < end
      {
        if k >= start { assert requests[start].timestamp <= requests[k].timestamp; }
        if k >= end { assert requests[end].timestamp <= requests[k].timestamp; }
      }
      InRangeIsSlice(requests, from, to, start, end);
    }
  }

  // ---------------------------------------------------------------------------
  // The store and its handlers

  /** A `from`/`to` query parameter: absent, parsed to an instant, or not parseable. */
  datatype Bound = Absent | At(instant: DateTime.Instant) | Unparseable

  datatype PaymentsReply = Status(code: int) | Listing(page: seq<Request>)

  datatype SummaryReply =
    | Summary(defaultLane: LaneSummary, fallbackLane: LaneSummary)
    | Rejected(code: int)
    | Aborted   // the handler panicked on an out-of-range slice

  class Store {
    var requests: seq<Request>
    var defaultRequests: seq<Payment>
    var fallbackRequests: seq<Payment>

    constructor ()
      ensures requests == [] && defaultRequests == [] && fallbackRequests == []
    {
      requests, defaultRequests, fallbackRequests := [], [], [];
    }

    /** The listing of GET /payments: a prefix of the stored requests, all of them if fewer than a page. */
    method PeekRequests() returns (page: seq<Request>)
      ensures page <= requests
      ensures |page| <= PageSize
      ensures |page| < PageSize ==> page == requests
    {
      var limit := PageSize;
      if |requests| < limit {
        limit := |requests|;
      }
      page := requests[..limit];
    }

    /** `/payments`: POST stores the request stamped with the server time `now`; GET lists; nothing else is allowed. */
    method PaymentsHandler(m: HttpMethod, body: Option<Request>, now: string) returns (reply: PaymentsReply)
      modifies this`requests
      ensures m == Post && body.Some? ==>
        requests == old(requests) + [body.value.(requestedAt := now)] && reply == Status(StatusAccepted)
      ensures m == Post && body.None? ==> requests == old(requests) && reply == Status(StatusBadRequest)
      ensures m == Get ==>
        && requests == old(requests) && reply.Listing? && reply.page <= requests
        && |reply.page| <= PageSize && (|reply.page| == PageSize || reply.page == requests)
      ensures m == OtherMethod ==> requests == old(requests) && reply == Status(StatusMethodNotAllowed)
    {
      match m
      case Post =>
        if body.None? {
          return Status(StatusBadRequest);
        }
        requests := requests + [body.value.(requestedAt := now)];
        reply := Status(StatusAccepted);
      case Get =>
        var page := PeekRequests();
        reply := Listing(page);
      case OtherMethod =>
        reply := Status(StatusMethodNotAllowed);
    }

    /** `/processor-default`: a settled payment is appended to the default lane only. */
    method ProcessorDefaultHandler(m: HttpMethod, body: Option<Payment>) returns (code: int)
      modifies this`defaultRequests
      ensures m == Post && body.Some? ==> defaultRequests == old(defaultRequests) + [body.value] && code == StatusOk
      ensures m == Post && body.None? ==> defaultRequests == old(defaultRequests) && code == StatusBadRequest
      ensures m != Post ==> defaultRequests == old(defaultRequests) && code == StatusMethodNotAllowed
      ensures fallbackRequests == old(fallbackRequests) && requests == old(requests)
    {
      if m != Post {
        return StatusMethodNotAllowed;
      }
      if body.None? {
        return StatusBadRequest;
      }
      defaultRequests := defaultRequests + [body.value];
      code := StatusOk;
    }

    /** `/processor-fallback`: the mirror image, on the fallback lane. */
    method ProcessorFallbackHandler(m: HttpMethod, body: Option<Payment>) returns (code: int)
      modifies this`fallbackRequests
      ensures m == Post && body.Some? ==> fallbackRequests == old(fallbackRequests) + [body.value] && code == StatusOk
      ensures m == Post && body.None? ==> fallbackRequests == old(fallbackRequests) && code == StatusBadRequest
      ensures m != Post ==> fallbackRequests == old(fallbackRequests) && code == StatusMethodNotAllowed
      ensures defaultRequests == old(defaultRequests) && requests == old(requests)
    {
      if m != Post {
        return StatusMethodNotAllowed;
      }
      if body.None? {
        return StatusBadRequest;
      }
      fallbackRequests := fallbackRequests + [body.value];
      code := StatusOk;
    }

    /**
     * `/payments-summary`: an absent `from` is 0, an absent `to` is `now`; a given one is
     * its instant's `UnixMicro`. Each lane is queried on its own and reported on its own.
     */
    method PaymentsSummaryHandler(m: HttpMethod, fromQ: Bound, toQ: Bound, now: int) returns (reply: SummaryReply)
      ensures m != Get ==> reply == Rejected(StatusMethodNotAllowed)
      ensures m == Get && (fromQ.Unparseable? || toQ.Unparseable?) ==> reply == Rejected(StatusBadRequest)
      ensures m == Get && !fromQ.Unparseable? && !toQ.Unparseable? ==>
        var from := if fromQ.At? then DateTime.UnixMicro(fromQ.instant) else 0;
        var to := if toQ.At? then DateTime.UnixMicro(toQ.instant) else now;
        Sorted(defaultRequests) && Sorted(fallbackRequests) ==>
          && (reply == Aborted <==>
               || (exists k :: 0 <= k < |defaultRequests| && to < defaultRequests[k].timestamp < from)
               || (exists k :: 0 <= k < |fallbackRequests| && to < fallbackRequests[k].timestamp < from))
          && (reply != Aborted ==> reply == Summary(Query(defaultRequests, from, to), Query(fallbackRequests, from, to)))
    {
      if m != Get {
        return Rejected(StatusMethodNotAllowed);
      }
      var from := 0;
      match fromQ {
        case Unparseable => return Rejected(StatusBadRequest);
        case At(t) => from := DateTime.UnixMicro(t);
        case Absent =>
      }
      var to := now;
      match toQ {
        case Unparseable => return Rejected(StatusBadRequest);
        case At(t) => to := DateTime.UnixMicro(t);
        case Absent =>
      }
      var fromDefault := GetRequestsSummary(defaultRequests, from, to);
      if fromDefault.Err? {
        return Aborted;
      }
      var fromFallback := GetRequestsSummary(fallbackRequests, from, to);
      if fromFallback.Err? {
        return Aborted;
      }
      reply := Summary(fromDefault.value, fromFallback.value);
    }
  }
}
