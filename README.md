# Payment dispatch and settlement core, modelled in Dafny

This project models the core of a payment-routing system. The system has two parts.

- A **dispatch worker** (`worker/src/main.go`). It drains the Redis list `requests` in batches of up to 250. Each item is encoded as `requestedAt@json`, and each decoded item is sent to the *default* payment processor. When the default processor fails, the worker pushes the raw item to `failed_requests`, sets a 10-second cooldown key and raises `hasFailedRequestsToProcess`. When the worker is idle and the cooldown has lapsed, it sweeps `failed_requests`: default processor first, then the *fallback* processor.
- A **settlement store** (`database/src/main.go`). It keeps two append-only lanes of settled payments, one per processor. It answers count/sum queries over a timestamp range with two binary searches.

Two helpers are also modelled:
- the timestamp encoding `StrToTimeWithMicro` (`api/src/datetime/datetime.go`);
- the PHP splice `StringUtils::injectRequestedAt` (`worker/src/Utils/StringUtils.php`).

Files:

| file | module | models |
|---|---|---|
| `wrappers.dfy` | `Wrappers` | `Option`, `Result`, `Min` |
| `dispatch.dfy` | `Dispatch` | `parseRequest`; the worker's state; one iteration as a function; the properties |
| `worker.dfy` | `Worker` | class `App`, whose methods update the lists, the cooldown key and the flag in place, proved against `Dispatch` |
| `settlement.dfy` | `Settlement` | `sort.Search`, `getRequestsSummary`, the class `Store` and its four handlers |
| `datetime.dfy` | `DateTime` | `StrToTimeWithMicro`, with `%d`, `%06d` and `Sscanf("%d")` modelled digit by digit |
| `string_utils.dfy` | `StringUtils` | `injectRequestedAt` |

Modelling choices:
- The environment enters as parameters. The JSON decoder is a function `unmarshal: string -> Option<Obj>`. A processor's answer to the k-th item of the batch popped in an iteration is `accepts(gateway, k)`. A failed Redis `LPOP` is a boolean. The current time is an integer `now`, in seconds for the worker and in microseconds for the store.
- The cooldown key is an expiry time: the key exists while `now < cooldownExpiry`.
- The lanes of the worker are ghost sequences. They hold the payloads the worker forwarded to `/processor-default` and `/processor-fallback`.
- Amounts in the store are integer cents.

What the code does in two places where a reader might expect otherwise:
- **An item refused by both processors in a sweep stays queued.** During a sweep, a refused default attempt goes through `callDefaultProcessor` (worker/src/main.go:173). That function appends the raw item to `failed_requests` again and re-arms the cooldown (worker/src/main.go:96-98), before the fallback is even tried (worker/src/main.go:176). So an item is never dropped for being refused: it goes back to the tail of `failed_requests`, whatever the fallback answers. When the fallback accepts it, it is still queued too, and a later sweep sends it again. `Dispatch.DefaultDownRequeuesAll` states this for any fallback answer. `Dispatch.DoubleFailureRequeues` states it for a sweep in which both processors refuse everything. `Dispatch.DefaultDownFallbackUp` covers the fallback accepting everything.
- **Queue encoding.** Neither ingestion service in the repository pushes the `requestedAt@json` encoding that the worker decodes. `api/src/app/app.go:96` and `api/src/index.php:95` push plain JSON. The model takes the worker's decoder as the definition of the encoding (`Dispatch.Encode`).
- **Settled records carry no timestamp.** The worker posts its decoded object, with members `amount`, `correlationId` and `requestedAt`, to the database (worker/src/main.go:91, :130-141). The database decodes that body into `Payment{Timestamp, Amount}` (database/src/main.go:13-16, :141-142), and no member is named `timestamp`. So every record the worker settles has `Timestamp` 0: its lanes are trivially sorted, and a range query selects all of them when 0 lies in [from, to], aborts when 0 lies strictly between to and from, and otherwise selects none. The store model takes the timestamp as given in the body, as the handler does.

## Model

| member | source | states |
|---|---|---|
| `Dispatch.IndexOf` | worker/src/main.go:69 | Finds the first occurrence of a character, or reports that there is none. |
| `Dispatch.ParseRequest` | worker/src/main.go:68-85 | Input with no `@`: `ErrInvalidFormat`. Otherwise the split is at the first `@` only, and the JSON part is the whole remainder. Invalid JSON is an error. On success the object's `requestedAt` is the prefix, overriding any value the JSON had. |
| `Dispatch.ParseEncoded` | worker/src/main.go:67-84 | Round trip. For a prefix without `@`, decoding `prefix@json` yields the decoded JSON with `requestedAt` = prefix, even when `json` contains `@`. |
| `Dispatch.CallDefault` | worker/src/main.go:89-100 | The payload lands in exactly one place: the default lane on acceptance, or `failed_requests` as raw text on refusal. A refusal raises the flag and sets the cooldown to expire at exactly now + 10, so it covers the next ten seconds. The result is whether the default processor accepted. |
| `Dispatch.CallFallback` | worker/src/main.go:102-108 | Only the fallback lane can change. It gains the payload exactly when the fallback accepts, and a refusal changes nothing. |
| `Dispatch.Step` | worker/src/main.go:51-58 | One popped item. A malformed item changes nothing. A well-formed item goes to exactly one of the default lane and `failed_requests`. The fallback lane changes only on a retry pass, after a refusal that requeued the item. |
| `Dispatch.Drain` | worker/src/main.go:51-59 | A batch never touches `requests`. `failed_requests` and the lanes only grow at their tails. A fresh batch never reaches the fallback lane. |
| `Dispatch.Sweep` | worker/src/main.go:149-178 | During the cooldown, or when the pop fails, nothing changes. Otherwise the unpopped items stay at the head of `failed_requests`, ahead of anything requeued. The lanes only grow. |
| `Dispatch.Iteration` | worker/src/main.go:45-63 | A payment forwarded to a processor is never taken back: both lanes only grow. |
| `Dispatch.DrainExact` | worker/src/main.go:51-59 | The whole effect of a batch, item by item. The default lane gains exactly the accepted items, in order. `failed_requests` gains exactly the raw text of the refused ones. On a retry pass only, the fallback lane gains exactly the refused items the fallback accepted. The flag and the cooldown are raised exactly when something was refused. |
| `Dispatch.DrainShape` | worker/src/main.go:51-59 | Processing a batch only appends. The growth of `failed_requests` plus the growth of the default lane is the number of well-formed items. The fallback lane is untouched on a fresh batch and on a sweep grows by no more than `failed_requests`. The flag and the cooldown (now + 10) are raised exactly when something was requeued. |
| `Dispatch.RequeuedAreWellFormed` | worker/src/main.go:52-58 | Every entry appended to `failed_requests` is the raw text of a well-formed item of the batch. Malformed items are never requeued. |
| `Dispatch.MalformedBatchIsDropped` | worker/src/main.go:52-56 | A batch with no item that decodes changes nothing: the items are logged and dropped. |
| `Dispatch.DefaultUpDeliversInOrder` | worker/src/main.go:89-93 | When the default processor accepts everything, each well-formed item reaches the default lane exactly once, in batch order. `failed_requests`, the cooldown, the flag and the fallback lane are unchanged. |
| `Dispatch.DefaultDownFallbackUp` | worker/src/main.go:166-177 | In a sweep where the default rejects everything and the fallback accepts everything, each well-formed item reaches the fallback lane exactly once and is also re-appended to `failed_requests`, with the cooldown re-armed. |
| `Dispatch.DefaultDownRequeuesAll` | worker/src/main.go:166-177 | When the default processor refuses every item, every well-formed item is requeued as raw text, whatever the fallback answers. Nothing reaches the default lane. On a sweep the fallback lane gains exactly the items the fallback accepted. |
| `Dispatch.DoubleFailureRequeues` | worker/src/main.go:149-178 | A sweep in which both processors refuse everything drops nothing. The popped well-formed items go back to the tail of `failed_requests`, in order, behind the unpopped ones. The cooldown is re-armed and neither lane changes. |
| `Dispatch.IterationPopsHead` | worker/src/main.go:45-49 | A pop error other than `redis.Nil` leaves everything unchanged. Otherwise exactly the first min(250, n) items leave `requests`, and nothing is added to it. |
| `Dispatch.FallbackOnlyFromIdleSweep` | worker/src/main.go:61-63 | The fallback lane changes only when all of these hold: the pop succeeded, `requests` was empty, the flag was up, the cooldown had lapsed and the pop of `failed_requests` succeeded. Fresh traffic never reaches the fallback processor. |
| `Dispatch.NoSweepUnlessIdle` | worker/src/main.go:61-63 | Unless the pop succeeded, `requests` was empty, the flag was up, the cooldown had lapsed and the pop of `failed_requests` succeeded, an iteration pops nothing from `failed_requests` (it only grows at its tail), keeps a raised flag raised, and leaves the fallback lane alone. |
| `Dispatch.CooldownSuppressesSweep` | worker/src/main.go:150-153 | While the cooldown key exists, an idle iteration is a no-op. |
| `Dispatch.SweepWithinCooldownIsNoop` | worker/src/main.go:96-97 | After a batch in which an item failed at time t, a sweep before t + 10 changes nothing. |
| `Dispatch.EmptyFailedClearsFlag` | worker/src/main.go:161-164 | Once the cooldown has lapsed, an empty pop of `failed_requests` clears the flag and nothing else. |
| `Dispatch.UndelimitedItemDropped` | worker/src/main.go:69-72 | A lone queued item without `@` is popped and dropped. No requeue, no lane change, no sweep. |
| `Dispatch.GarbageItemDropped` | worker/src/main.go:52-56 | The item `garbage-no-delimiter` is popped and dropped, with nothing else changed. |
| `Worker.App.constructor` | worker/src/main.go:28-37 | A new worker starts with the flag lowered and no forwarded payloads, over whatever Redis already holds. |
| `Worker.App.CallDefaultProcessor` | worker/src/main.go:89-100 | On success: forwards the payload to the default lane, returns true, and changes nothing else. On failure: appends the raw string (not the payload) to `failed_requests`, sets the cooldown to now + 10, raises the flag, forwards nothing, and returns false. |
| `Worker.App.CallFallbackProcessor` | worker/src/main.go:102-108 | Forwards to the fallback lane exactly when the fallback processor accepts, and returns whether it did. |
| `Worker.App.ProcessFailedRequests` | worker/src/main.go:149-178 | The new state is `Dispatch.Sweep` of the old one. The loop keeps the state equal to the sweep of the items processed so far. |
| `Worker.App.Execute` | worker/src/main.go:45-63 | The new state is `Dispatch.Iteration` of the old one. The loop keeps the state equal to the processing of the items handled so far. |
| `Settlement.Search` | database/src/main.go:36-41 | `sort.Search`: the result is in [0, n]; f is false just below it and true at it. For monotone f it is the least index where f holds. |
| `Settlement.GetRequestsSummary` | database/src/main.go:31-48 | On a sorted lane with from <= to: the count and sum of exactly the records with from <= timestamp <= to. The slice panic (`Err`) happens exactly when some timestamp lies strictly between to and from. |
| `Settlement.InRangeIsSlice` | database/src/main.go:42 | If exactly the positions [start, end) hold in-range records, the records in range are the slice `requests[start:end]`. |
| `Settlement.WholeLaneInRange` | database/src/main.go:42-47 | A range covering every timestamp reports the whole lane's count and sum. |
| `Settlement.NoMatchesSummariseToZero` | database/src/main.go:36-47 | An empty lane, or a range that no timestamp falls into, reports (0, 0). |
| `Settlement.ThreeRecordScenario` | database/src/main.go:31-48 | Records at 100, 200, 300 worth 10.00, 20.00, 30.00: the range [100, 200] reports 2 records worth 30.00. |
| `Settlement.AppendKeepsSorted` | database/src/main.go:151 | Appending keeps a lane sorted if and only if the new record is not older than the last one. |
| `Settlement.Store.constructor` | database/src/main.go:24-29 | The store starts with no requests and two empty lanes. |
| `Settlement.Store.PeekRequests` | database/src/main.go:71-75 | GET returns a prefix of the stored requests: at most 250 of them, and all of them when there are fewer. |
| `Settlement.Store.PaymentsHandler` | database/src/main.go:50-83 | POST appends exactly one request, stamped with the server time, and returns 202. An undecodable body gets 400. GET lists at most 250 requests, all of them when there are fewer, without removing anything. Other methods get 405. |
| `Settlement.Store.ProcessorDefaultHandler` | database/src/main.go:135-155 | Appends exactly one payment at the tail of the default lane. The fallback lane and the requests are unchanged. Other methods get 405 and bad bodies get 400. |
| `Settlement.Store.ProcessorFallbackHandler` | database/src/main.go:157-175 | The mirror image of the default handler, on the fallback lane. |
| `Settlement.Store.PaymentsSummaryHandler` | database/src/main.go:85-133 | An absent `from` is 0 and an absent `to` is now. A given bound is its instant's `UnixMicro`, and an unparseable one gets 400. Each lane is queried and reported on its own, never merged. The handler aborts exactly when a lane has a timestamp strictly between to and from. Otherwise it reports both lanes' `Query` results, including (0, 0) when from > to and nothing lies strictly between. |
| `DateTime.FormatInt` | api/src/datetime/datetime.go:20 | `%d` of any integer is a literal that `Sscanf` reads back as that integer. It starts with `-` exactly when the integer is negative. |
| `DateTime.ZeroPad` | api/src/datetime/datetime.go:20 | `%0wd` of a non-negative number: at least w digits, denoting the number. |
| `DateTime.ScanInt` | api/src/datetime/datetime.go:22-23 | `Sscanf("%d")` of a complete literal: non-negative without a sign and non-positive with one. A literal of k characters denotes a number below 10^k in magnitude. |
| `DateTime.Concatenated` | api/src/datetime/datetime.go:17-20 | The text is `%d` of the seconds followed by exactly six digits that denote the microseconds. |
| `DateTime.FormatNat` | api/src/datetime/datetime.go:20 | `%d` of a non-negative number: at least one digit, no leading zero, and the digits denote the number. |
| `DateTime.DigitsConcat` | api/src/datetime/datetime.go:20-23 | Appending digits shifts the value of the leading digits left by as many decimal places. |
| `DateTime.SixDigitField` | api/src/datetime/datetime.go:18-20 | `micros = nanos / 1000` is below 10^6, so its `%06d` field is exactly six digits denoting it. |
| `DateTime.ConcatMeaning` | api/src/datetime/datetime.go:20-23 | The concatenated text is an integer literal. Read back, it is abs(secs) * 10^6 + micros, carrying the sign of secs. |
| `DateTime.ConcatMicros` | api/src/datetime/datetime.go:17-24 | For secs >= 0 the result is secs * 10^6 + micros. For secs < 0 it is -(abs(secs) * 10^6 + micros). |
| `DateTime.StrToTimeWithMicro` | api/src/datetime/datetime.go:8-24 | The millisecond layout is tried first, and the plain layout only when that fails. If both fail the result is (0, error). Otherwise it is the concatenation read back. |
| `DateTime.ConcatFitsInt64` | api/src/datetime/datetime.go:22-23 | For every four-digit year the read-back value fits an int64. |
| `DateTime.UnixMicro` | database/src/main.go:101 | Go's `UnixMicro`: Euclidean division by 10^6 gives back the Unix seconds and the microseconds. |
| `DateTime.UnixMicroMonotone` | database/src/main.go:101 | `UnixMicro` preserves time order. |
| `DateTime.ConcatAgreesAfterEpoch` | api/src/datetime/datetime.go:17-24 | From the epoch on, the concatenation equals `UnixMicro`. |
| `DateTime.PreEpochOrderInverted` | api/src/datetime/datetime.go:17-24 | Before the epoch the concatenation inverts time order and differs from `UnixMicro`. |
| `StringUtils.InjectRequestedAt` | worker/src/Utils/StringUtils.php:5-10 | Input starting with `{`: the result is `{` + the member + the rest of the input, with length len(json) + len(member). Any other input, the empty string included, is returned unchanged. Only the leading brace is replaced. |
| `StringUtils.InjectRoundTrip` | worker/src/Utils/StringUtils.php:7-9 | Stripping the injected member gives back the original text, for every input. |
| `StringUtils.RequestedAtVerbatim` | worker/src/Utils/StringUtils.php:7 | The value is inserted verbatim, with no escaping, right after `{"requestedAt":"`. |
| `StringUtils.EmptyObjectTrailingComma` | worker/src/Utils/StringUtils.php:7-9 | For `{}` the output ends in `",}`, a trailing comma. |

## Findings

| source | as written | input that shows it | evidently intended | confidence | as-written member | corrected member |
|---|---|---|---|---|---|---|
| api/src/datetime/datetime.go:17-23 | `"%d%06d"` of the Unix seconds and the microseconds is read back as one integer. For negative seconds the minus sign applies to the microseconds too. | 1969-12-31T23:59:59.200Z and 23:59:59.500Z (Unix second -1) give -1200000 and -1500000. The later instant gets the smaller number, and the true values are -800000 and -500000. | Signed microseconds since the epoch, as Go's `UnixMicro` gives (and as `database/src/main.go:101` uses), which preserves time order. | low: only pre-1970 inputs are affected; not executed | `DateTime.PreEpochOrderInverted` | `DateTime.UnixMicroMonotone` |

## Left out

- Redis, fasthttp and net/http are not modelled. `LPopCount`, `RPush`, `Set` and `Get` become updates of sequences and of an expiry field. Processor calls become the `accepts` oracle. The body sent to a processor or to the database (`json.Marshal`) is not modelled: the lanes hold the decoded payload.
- Errors of `RPush`, `Set` and `Get`: the code ignores them, and the model treats those calls as always succeeding. A failing `Get` would read as "no cooldown"; that case is not modelled.
- `sendToDatabase` failures are logged only. The worker's lanes record what was forwarded, not what the store accepted.
- The endless loop and the sleeps in `execute` (worker/src/main.go:40-43) are left out; one iteration is modelled. `now` is fixed for a whole iteration, so each cooldown set during an iteration expires at the same time.
- `json.Unmarshal` is the `unmarshal` oracle. Decoding `null` gives a nil map, on which the write at worker/src/main.go:83 panics; that case is not modelled.
- `time.Parse`, `time.Now` and PHP's date functions are parameters. The parsed instants and the server-time string are inputs.
- The `sync.Mutex` in database/src/main.go is not modelled. The store is sequential, and concurrent out-of-order appends are not modelled.
- `float64` amounts and their rounding are replaced by integer cents.
- int64 limits on store timestamps are not modelled. `DateTime.ConcatFitsInt64` covers the one read-back that could overflow.
- There are no timeouts on processor calls; an unresponsive processor is not modelled.
- Settlement.GetRequestsSummary: its count/sum result is stated for sorted lanes only. Sortedness is the store's assumption, and its handlers do not check it. On an unsorted lane the model states only that the count is at most the lane length.
- Settlement.Store.PaymentsSummaryHandler: its results are stated for sorted lanes only, for the same reason.
- StringUtils.InjectRequestedAt: it requires a `requestedAt` without `$` or `\`. `preg_replace` reads those as back-references in the replacement, and that interpretation is not modelled.
- `populateTestPayments` (database/src/main.go:177-200) is test seeding that is commented out; it is not modelled.
- Not part of this model:
  - api/src/app/app.go and api/src/index.php, the HTTP ingestion and reporting front ends over Redis sorted sets;
  - api/src/main.go;
  - the older PHP worker worker/src/index.php and its helper worker/src/Utils/Http.php;
  - api/src/Utils/DateTimeUtils.php.
