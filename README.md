# API gateway middleware core, modelled in Dafny

This project models the request-handling core of a Go API gateway built on
gin:

- the per-client **rate limiter**: a registry from client IP to a token
  bucket, find-or-create on each request, a periodic sweep of idle clients,
  and a 429 answer when the bucket is empty;
- the **GET response cache**: a Redis lookup keyed by the request URL that
  replays a stored response and stops the chain, and otherwise a capture of
  the handlers' output, stored when it is a 2xx response and the chain was
  not aborted;
- the **HTTPSender** used by the services: a mock mode with a table of canned
  responses keyed by `method:path`, and the real path that builds the URL and
  rejects upstream statuses of 400 and above (a real request without a body
  panics as the code stands; see "## Findings");
- the **user DTO mapping**, which copies every public field of a user and
  drops the password.

Files and modules:

| file | module | what it holds |
|---|---|---|
| wrappers.dfy | Wrappers | `Option` |
| gin.dfy | Gin | the part of gin and net/http the middleware touches: headers, URL string form, the connection's writer (`Sink`), the per-request `Context`, downstream handlers as a sequence of `Action`s and `Next` |
| token_bucket.dfy | TokenBucket | the limiter library's token bucket, on integer nanoseconds, and the `Limiter` object |
| ratelimit.dfy | RateLimit | the client registry and the `RateLimit` middleware |
| cache.dfy | Cache | the store, the capturing writer, header replay and the `Cache` middleware |
| server.dfy | Server | the global order RateLimit, then Cache |
| http_sender.dfy | HttpSender | the `Sender` object and what `SendRequest` returns |
| user_responses.dfy | UserResponses | `FromUser`, `FromUsers` |

Time, the network, Redis failures and the handlers after the middleware are
parameters: `now` (nanoseconds), `Faults` (which store calls fail), `broken`
(the client connection fails every write), `Upstream` (what the remote
service answers) and `next` (what the downstream handlers do).

The token bucket follows golang.org/x/time/rate as the middleware uses it.
`rate.Every(d)` adds one token every `d` nanoseconds, kept exactly as whole
tokens plus a nanosecond remainder. A limiter starts full with `burst`
tokens. With a finite rate, a burst of 0 or less admits nothing. A denial leaves the bucket as
it was. An infinite rate admits everything and changes nothing. A clock that
goes backwards adds no tokens.

Some behaviour of the code that the model keeps as it is:

- The code does no configuration validation. `RequestsPerMinute = 0` divides by
  zero when a client's first limiter is created. This is the only
  precondition of the creation path. A negative rate, or one above one per
  nanosecond, truncates to an infinite rate.
- The cache has no "disable" switch. A duration of 0 is passed to Set like
  any other value.
- The refill interval is `time.Minute / RequestsPerMinute` with Go's
  truncating integer division, not a rate of `rpm / 60` per second with
  exact fractions.
- The user service turns mock mode on as soon as it builds its sender
  (internal/services/user_service.go:23), so in the gateway as configured
  the sender's real path is never taken.

## Model

| member | source | states |
|---|---|---|
| TokenBucket.GoDiv | internal/middleware/ratelimit.go:61 | Go's truncating division agrees with Euclidean division for a non-negative dividend and positive divisor |
| TokenBucket.LimitFor | internal/middleware/ratelimit.go:61 | the limit is one token per `Minute / rpm` ns when that quotient is positive, and an infinite rate when the truncated quotient is 0 or negative |
| TokenBucket.Full | internal/middleware/ratelimit.go:61 | a new bucket holds `max(burst, 0)` tokens and is well-formed for every limit |
| TokenBucket.Refill | internal/middleware/ratelimit.go:82 | refilling keeps the bucket well-formed, never loses tokens, moves the clock to `now`, and adds nothing when the clock did not advance |
| TokenBucket.Step | internal/middleware/ratelimit.go:82 | Allow admits exactly when the refilled bucket holds a token, and then takes one; a denial changes nothing; an infinite rate always admits; with a finite rate a burst of 0 never admits |
| TokenBucket.Run | internal/middleware/ratelimit.go:82 | one decision per request, and the bucket stays well-formed |
| TokenBucket.DrainAtOneInstant | internal/middleware/ratelimit.go:82 | `k` tokens at one instant admit exactly `k` requests and deny the next |
| TokenBucket.DrainedState | internal/middleware/ratelimit.go:82 | after draining at one instant the bucket is empty with no remainder |
| TokenBucket.FreshLimiterAdmitsBurst | internal/middleware/ratelimit.go:61 | a new limiter admits exactly `burst` requests at one instant and then denies |
| TokenBucket.UnlimitedAdmitsAll | internal/middleware/ratelimit.go:82 | an infinite rate admits every request |
| TokenBucket.RefillCredit | internal/middleware/ratelimit.go:82 | refilling never credits more than the time elapsed |
| TokenBucket.StepCredit | internal/middleware/ratelimit.go:82 | each admission spends one full interval of credit |
| TokenBucket.CreditAtMostCapacity | internal/middleware/ratelimit.go:61 | a well-formed bucket never holds more than `burst` intervals of credit |
| TokenBucket.RunCredit | internal/middleware/ratelimit.go:82 | over increasing request times, admissions times the interval never exceed the starting credit plus the elapsed time |
| TokenBucket.AdmissionBound | internal/middleware/ratelimit.go:82 | of increasing requests within `w` ns after the bucket was last touched, at most `burst + w / interval` are admitted |
| TokenBucket.RefillTwice | internal/middleware/ratelimit.go:82 | refilling at `s` and then at `t` gives the same bucket as refilling once at `t` |
| TokenBucket.RunAfterRefill | internal/middleware/ratelimit.go:82 | refilling a bucket at `s` changes no decision for requests at `s` or later |
| TokenBucket.AdmissionBoundInWindow | internal/middleware/ratelimit.go:82 | of increasing requests within any window of `w` ns that starts at or after the bucket's last update, at most `burst + w / interval` are admitted |
| TokenBucket.AdmittedAfterInterval | internal/middleware/ratelimit.go:82 | after waiting a full interval a request is admitted whenever the burst is at least 1 |
| TokenBucket.SixtyPerMinuteBurstFive | internal/middleware/ratelimit.go:61 | at 60 per minute and burst 5: five requests at once are admitted, the sixth denied, and one second later exactly one more is admitted |
| TokenBucket.RunAppend | internal/middleware/ratelimit.go:82 | the decisions for two request sequences in a row are those for the first followed by those for the second from where the first left off |
| TokenBucket.Capacity | internal/middleware/ratelimit.go:61 | the bucket size is the burst, clamped below at 0 |
| TokenBucket.Limiter.constructor | internal/middleware/ratelimit.go:61 | `rate.NewLimiter` gives a full, valid bucket with capacity `max(burst, 0)` |
| TokenBucket.Limiter.Allow | internal/middleware/ratelimit.go:82 | the decision and the new bucket are exactly `Step` of the old bucket |
| RateLimit.DenyBody | internal/middleware/ratelimit.go:83-85 | the 429 body is the JSON object `{"error":"…"}` around the fixed message |
| RateLimit.Survivors | internal/middleware/ratelimit.go:42 | a sweep keeps exactly the entries that are not idle (`Idle`: more than the cleanup interval since last seen), each unchanged |
| RateLimit.SweepKeepsRecentClients | internal/middleware/ratelimit.go:41-45 | a sweep keeps exactly the clients seen within the cleanup interval, unchanged, and a second sweep removes nothing more |
| RateLimit.Registry.constructor | internal/middleware/ratelimit.go:23 | the registry starts empty |
| RateLimit.Registry.GetClientLimiter | internal/middleware/ratelimit.go:55-67 | a known IP gets its own limiter back with `lastSeen` refreshed; an unknown IP gets a new full limiter from the configured rate and burst; no other entry changes and no two IPs share a limiter |
| RateLimit.Registry.Admit | internal/middleware/ratelimit.go:80-82 | the client's limiter is found or created and asked once, its decision is `Step` of its bucket, and every other client's limiter is untouched |
| RateLimit.Registry.Forget | internal/middleware/ratelimit.go:43 | deleting one IP removes exactly that entry and keeps the registry valid |
| RateLimit.Deny | internal/middleware/ratelimit.go:83-86 | the denial sets status 429, appends the JSON error body, and aborts the chain |
| RateLimit.Registry.Sweep | internal/middleware/ratelimit.go:41-45 | deleting while ranging leaves exactly the clients not idle for longer than the cleanup interval |
| RateLimit.RateLimit | internal/middleware/ratelimit.go:72-91 | with no configuration nothing is touched and the request goes on; otherwise the client's bucket takes one `Allow` step, a denial writes 429 with the fixed JSON error and aborts, an admission leaves the response alone, and other clients' buckets do not change |
| Cache.Key | internal/middleware/cache.go:58 | the key starts with the path, and is longer than the path exactly when a query part follows |
| Cache.Decode | internal/middleware/cache.go:62-68 | a stored value decodes exactly when json.Unmarshal into the envelope struct accepts it, whoever wrote it |
| Cache.Encode | internal/middleware/cache.go:93-104 | decoding the encoded envelope gives back the same status, header and body |
| Cache.Lookup | internal/middleware/cache.go:61 | Get returns an error exactly when the store fails, the stored value exactly when the key is present, and Nil otherwise |
| Cache.Hit | internal/middleware/cache.go:61-68 | only a value both found and accepted by Unmarshal is a hit; a store error, a miss and a value Unmarshal rejects fall through to the handlers |
| Cache.Storable | internal/middleware/cache.go:92 | a response is stored exactly when its status is 2xx and the chain was not aborted |
| Cache.Ttl | internal/middleware/cache.go:112 | the expiry is a whole number of seconds, `Duration` of them |
| Cache.Commit | internal/middleware/cache.go:104-113 | a failed Set changes nothing; otherwise the key then holds a hit for the stored envelope with the given TTL, and every other key is as before |
| Cache.Replay | internal/middleware/cache.go:69-78 | a replay appends every cached header value after those already set, sets the cached status when it is positive (gin's writer ignores 0 or less), and appends the cached body unless the connection is broken |
| Cache.ZeroEnvelopeReplaysNothing | internal/middleware/cache.go:68-78 | a stored `{}` or `null` is a hit whose replay leaves the response as it was, so a fresh writer answers 200 with an empty body |
| Cache.KeyIsExact | internal/middleware/cache.go:58 | two request URLs share a key exactly when the path and the raw query are the same |
| Cache.Store.Get | internal/middleware/cache.go:61 | Get returns the stored value, Nil or an error, and changes nothing |
| Cache.Store.Set | internal/middleware/cache.go:108-113 | Set stores the value under the key with its TTL, and a failed Set changes nothing |
| Cache.ResponseWriter.constructor | internal/middleware/cache.go:83-86 | the capture wraps the connection's writer with an empty buffer |
| Cache.ResponseWriter.Write | internal/middleware/cache.go:38-41 | Write appends the bytes to the buffer, forwards the same bytes and returns the wrapped writer's result |
| Cache.PerformCaptured | internal/middleware/cache.go:87-89 | one handler action with the capture installed reaches the connection as it would without it, and only a body write adds to the buffer |
| Cache.NextCaptured | internal/middleware/cache.go:87-89 | with the capture in place the handlers' response reaches the connection as before, and the buffer holds every byte they wrote |
| Cache.AddValues | internal/middleware/cache.go:71-73 | every cached value of one name is appended in order |
| Cache.ReplayHeaders | internal/middleware/cache.go:70-74 | every cached value is appended after the values the header already had |
| Cache.ReplayHit | internal/middleware/cache.go:69-78 | a hit appends the cached header values, sets the cached status, writes the cached body and aborts without running a handler |
| Cache.Fetch | internal/middleware/cache.go:82-115 | with no hit the handlers run behind the capture, and the envelope is Set exactly when the status is 2xx and the chain was not aborted |
| Cache.Cache | internal/middleware/cache.go:45-116 | a request that is not `Cacheable` (its method is not GET) or a missing client runs the handlers and leaves the store alone; a hit replays the status, header and body, aborts and skips the handlers; otherwise the handlers run through the capture and, exactly when the status is 2xx and the chain was not aborted, the envelope `{status, header, captured body}` is Set with a TTL of `Duration` seconds; store failures never change the response |
| Cache.RepeatedGetReplaysFirstResponse | internal/middleware/cache.go:61-113 | once a 2xx response was stored, the next GET of the same URL replays the same status and body, and with nothing set before the cache the same response in full |
| Cache.ReplayRepeatsPresetValues | internal/middleware/cache.go:70-74 | a header value set before the cache on every request (such as `Vary: Origin`) comes back twice on a hit |
| Server.Serve | internal/server/server.go:87-88 | a request the limiter denies gets 429, never touches the store and never reaches a handler; a cache hit is answered without running the route's handlers, the JWT check included |
| HttpSender.MockKey | internal/utils/http/http_sender.go:51 | the key is the method, a ':' and the path |
| HttpSender.Unmarshal | internal/utils/http/http_sender.go:68 | the target receives the text exactly when it accepts it; otherwise the given error and nothing written |
| HttpSender.Sender.constructor | internal/utils/http/http_sender.go:28-37 | a new sender has mock mode off and an empty table |
| HttpSender.Sender.EnableMockMode | internal/utils/http/http_sender.go:40-42 | turns mock mode on and leaves the table |
| HttpSender.Sender.DisableMockMode | internal/utils/http/http_sender.go:45-47 | turns mock mode off and leaves the table |
| HttpSender.Sender.SetMockResponse | internal/utils/http/http_sender.go:50-53 | overwrites the entry for `method:path` and keeps every other entry |
| HttpSender.MockReply | internal/utils/http/http_sender.go:59-73 | a stored error is returned and nothing is written; otherwise, with both a target and data, data that cannot be marshalled or that the target rejects is an error and data it accepts is written; with no target or no data the result is nil |
| HttpSender.DefaultReply | internal/utils/http/http_sender.go:75-80 | with no entry a target receives `{"message":"default mock response"}`, and with no target the result is nil |
| HttpSender.RealReplyAsWritten | internal/utils/http/http_sender.go:83-119 | as the code stands: an unencodable body is an error, a refused request is an error, a request without a body panics before anything is sent, and a request with a body behaves as `RealReply` |
| HttpSender.RealReply | internal/utils/http/http_sender.go:83-119 | corrected: the request goes to `baseURL + path` with a JSON body and Content-Type only when there is a body; any status of 400 or more is an error; a lower status is decoded into the target |
| HttpSender.BodylessRequestPanics | internal/utils/http/http_sender.go:85-94 | as the code stands no body-less real request is sent, while the corrected path sends it to `baseURL + path` |
| HttpSender.GetUsersPanics | internal/utils/http/http_sender.go:123-125 | `GET /users` through the real path panics as the code stands, and with the correction decodes the upstream's 200 answer |
| HttpSender.Send | internal/utils/http/http_sender.go:56-81 | in mock mode nothing is sent |
| HttpSender.Sender.SendRequest | internal/utils/http/http_sender.go:56-120 | the method's result is `Send` of the sender's state, with the real path corrected |
| HttpSender.MockIgnoresNetwork | internal/utils/http/http_sender.go:57-81 | in mock mode the result does not depend on the request body or the network |
| HttpSender.MockKeyInjective | internal/utils/http/http_sender.go:51 | two method/path pairs share a mock key exactly when they are equal, since a method has no ':' |
| HttpSender.SetThenSend | internal/utils/http/http_sender.go:50-73 | after SetMockResponse the same method and path get that response, and every other pair gets what it got before |
| HttpSender.ModeSwitch | internal/utils/http/http_sender.go:57-83 | with mock mode off the table plays no part and, on the corrected real path, the URL is `baseURL + path` |
| HttpSender.DefaultMessage | internal/utils/http/http_sender.go:75-79 | an unknown key answers the default message to any target that can hold it |
| UserResponses.FromUser | internal/models/responses/user_responses.go:18-26 | id, username, email and both timestamps are copied as they are |
| UserResponses.FromUserForgetsOnlyPassword | internal/models/responses/user_responses.go:18-26 | two users give the same response exactly when they differ at most in the password |
| UserResponses.FromUserOnto | internal/models/responses/user_responses.go:9-15 | every response comes from a user, whatever that user's password |
| UserResponses.FromUsers | internal/models/responses/user_responses.go:29-35 | the result has the input's length and element `i` is `FromUser` of user `i`, so the order is kept and empty maps to empty |

## Findings

| source | as written | input that shows it | evidently intended | confidence | as-written member | corrected member |
|---|---|---|---|---|---|---|
| internal/utils/http/http_sender.go:85-94 | with no body, `reqBody` stays a nil `*bytes.Buffer`, which reaches `http.NewRequestWithContext` as a non-nil `io.Reader`; it calls `Len` on it and the nil dereference panics | `Get(ctx, "/users", &out)` or any `Delete` with mock mode off | a body-less request is sent with no body (an untyped nil reader) to `baseURL + path`, with the 400-and-above rule | high, not executed | HttpSender.RealReplyAsWritten, HttpSender.BodylessRequestPanics, HttpSender.GetUsersPanics | HttpSender.RealReply |

`HttpSender.Send` and `HttpSender.Sender.SendRequest` use the corrected `RealReply`.

## Left out

- The mutex, the cleanup goroutine and its sleep loop. The model is single-threaded; `Sweep` is one pass of the loop body at a given `now`.
- `InitRateLimit`, `InitRedis` and the Redis `Ping`. The middleware's configuration and client are parameters (`Option<Config>`, `Store?`).
- The floating-point arithmetic inside golang.org/x/time/rate. That library's source is not part of this model. The bucket counts whole tokens plus a nanosecond remainder, which agrees with the library up to its rounding.
- Go's 64-bit `time.Duration` overflow. Times are unbounded integers of nanoseconds, and `cleanupInterval * Minute` does not wrap.
- The zero-rate panic. `RateLimit.Registry.GetClientLimiter` and `RateLimit.RateLimit` require a non-zero rate when a new client has to be created, instead of modelling the crash.
- Redis itself: the network round trip, the 100 ms timeout context and TTL expiry. The store is a map whose Get and Set may fail, and the TTL is recorded but never acted on.
- Cache.Encode: JSON is abstract and a round trip is exact. In Go the body travels as a JSON string, so bytes that are not valid UTF-8 would come back as U+FFFD. The model does not capture this loss.
- The details of JSON in the sender. A value either has an encoding or not, and a target accepts a set of texts. A failed Unmarshal that fills part of the target is modelled as writing nothing. `json.Decoder` accepting trailing data after the first value is not modelled.
- gin and net/http internals, except that gin's writer ignores a status of 0 or less (`Gin.StatusAfter`). Not modelled: the "already written" guard that ignores a later WriteHeader, the net/http panic when the status finally written lies outside 100–999 (the model keeps any positive status), the Content-Type that `c.JSON` sets, and header name canonicalisation (names are compared as given).
- URL escaping. Paths are the already-escaped form that `URL.String()` prints, and they hold no `?`.
- The HTTP client's timeout, the request context and the `Get`/`Post`/`Put`/`Delete` wrappers. The wrappers only fix the method and pass no body or no target to `SendRequest`.
- The order in which the header replay walks the cached header's names. It comes from Go's map iteration, which is random. The order of values within one name is modelled.
- The other middleware and routes: Logger, Recovery, CORS, validation, Swagger, the handlers and services, `config.go`, `main.go`, and the server's start and stop logic.
