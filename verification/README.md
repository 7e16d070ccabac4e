# golb core, modelled in Dafny

This project models the three pieces of decision logic in the `golb` load balancer.

- **Server pool** (`pool.dfy`, module `Pool`). The pool is an append-only sequence of upstream servers, each with an alive flag, plus a round-robin cursor.
  - `AddServer` appends a server when its URL parses.
  - `NextIndex` bumps the cursor.
  - `Next` scans circularly, starting one past the cursor, for the first alive server. When it had to skip servers, it moves the cursor onto the one it chose.
  - `ServeHTTP`'s dispatch choice is one of three outcomes:
    - forward to the chosen server;
    - answer 503 when nothing is alive;
    - divide by zero on an empty pool.
- **Per-request retry and fallback** (`proxy.dfy`, module `Proxy`). A request carries a retry counter and an attempt counter in its context.
  - After a transport error, `ErrorHandler` re-forwards to the same server while the retry counter is below 3.
  - Once the retries are used up, it marks the server dead, bumps the attempt counter and calls `FallbackHandler`.
  - `FallbackHandler` answers 503 once the attempt counter reaches 3. Otherwise it bumps the counter again and re-enters the pool.
  - Whether the upstream answers is an oracle `ok: nat -> bool`, indexed by the number of forwards made so far.
  - A run of the chain is a trace of steps (forwarded, retried, marked dead), the final pool and the response.
  - The chain is a set of mutually recursive functions. They terminate on the counters' remaining budgets.
  - `Follows` states the protocol on a trace, independently of the functions:
    - a forward that gets a response ends the trace;
    - a failed forward is followed by `ErrorHandler`'s step for the same server;
    - a retry is followed by a forward to the same server;
    - a dead-marking that uses up the attempts ends the trace;
    - after any other dead-marking, the next forward goes to a server still alive, with the attempt counter two higher.
  - `FallbackHop` adds the pool: the forward right after the first dead-marking goes to the server `Next` picks from the pool with the given-up server marked dead.
  - Every stage's contract says its trace follows the protocol against the oracle.
- **Health records** (`health.dfy`, module `Health`). The record is `InstanceInfo`.
  - `updateStatus` and `runHealthCheck` are modelled with the poll abstracted to its outcome:
    - the request could not be built;
    - a transport error or timeout;
    - a status code;
    - for a 200, a body that did or did not decode.
  - The ticker loop `RunHealthCheckInterval` is a fold over a list of `Tick(time, poll)` and `Cancel` events.

`common.dfy` holds the shared `Option`, `Result`, `Error` and `Url` types. `url.Parse` is a parameter of type `UrlParser`.

Behaviours of the code that the model keeps as written:

- An empty pool makes `NextIndex` divide by zero, so `ServeHTTP` panics instead of answering 503. `Dispatch` returns `EmptyPoolPanic`, and `ServeHTTP` ends in `Panicked`. The atomic increment of the cursor has already happened by then, so the model's cursor is raised too.
- The attempt counter is raised twice per escalation: once in `ErrorHandler` and once in `FallbackHandler`. A fresh request therefore re-enters the pool at most once and gives up on at most two servers (`Proxy.FreshRequestLimits`).
- The retry counter is never reset. A server reached by fallback is given up on at its first transport error (`Proxy.NoRetryAfterGivingUp`).
- `LastError` and `LastErrorUTCTimestamp` are sticky. They are not cleared by a later poll that passes no error (`Health.ErrorSurvivesRecovery`).

## Model

| member | source | states |
|---|---|---|
| Pool.IsAlive | pkg/golb/golb.go:34-38 | A server is alive exactly when its index is among the pool's live indices. |
| Pool.SetAlive | pkg/golb/golb.go:40-44 | Changes the liveness of exactly the one server, adding it to or removing it from the live indices. Every other server, every name and URL, and the cursor are unchanged. |
| Pool.AddServer | pkg/golb/golb.go:105-127 | On a parse error the pool is unchanged and the error is returned. Otherwise exactly one alive server with the given name and parsed URL is appended. Earlier servers and the cursor are unchanged, and no error is returned. |
| Pool.NextIndex | pkg/golb/golb.go:129-131 | Raises the cursor by exactly one. Returns the new cursor modulo the pool size, which lies in `[0, len)`. Needs a non-empty pool. |
| Pool.Scan | pkg/golb/golb.go:138-147 | The loop of `Next`. It finds the first alive circular position at or after `next`, or reports that none of the `len` positions is alive. |
| Pool.Next | pkg/golb/golb.go:133-150 | A chosen server is alive and in range. It is the first alive server in circular order from `NextIndex`'s index. The result is nil exactly when no server is alive. Cursor rules: it stays incremented when the first candidate is alive or nothing is alive, and is set to the chosen index when servers were skipped. |
| Pool.Dispatch | pkg/golb/golb.go:152-160 | Panics exactly on an empty pool, with the cursor already raised by one. Answers 503 exactly when no server is alive. Otherwise it forwards to the server `Next` picks, which is alive. The cursor afterwards is `Next`'s. |
| Pool.RoundRobinAllAlive | pkg/golb/golb.go:129-150 | With every server alive, `k` consecutive `Next` calls return the servers in insertion order, starting one past the cursor. The cursor advances by `k`. |
| Pool.FairRound | pkg/golb/golb.go:129-150 | With every server alive, `len` consecutive calls return every server exactly once, starting one past the cursor. |
| Pool.AllAliveRoundsCover | pkg/golb/golb.go:133-150 | With every server alive, any `k >= len` consecutive calls return every server and never nil. |
| Pool.NoneAliveRounds | pkg/golb/golb.go:138-149 | With no server alive, every one of `k` consecutive `Next` calls returns nil. |
| Pool.MarkingLastAliveDeadEmptiesSelection | pkg/golb/golb.go:40-44 | Once the only alive server is marked dead, every later `Next` call returns nil. |
| Pool.TwoServerScenario | test/golb/golb_test.go:13-53 | Two added servers, the second down: `Next` picks `server1`. With both up, ten calls return both servers and never nil. |
| Proxy.GetRetryCount | pkg/golb/golb.go:46-51 | The stored retry counter, or 0 when the context holds none. |
| Proxy.GetAttemptCount | pkg/golb/golb.go:53-58 | The stored attempt counter, or 0 when the context holds none. |
| Proxy.ServeHTTP | pkg/golb/golb.go:152-160 | Panics exactly on an empty pool and does nothing when no server is alive. Otherwise the first step forwards to the server `Next` picks, at the context's counters. The trace follows the protocol against the oracle. Liveness changes only for servers the trace marks dead. Counters never decrease, and retries and dead-markings stay within their budgets. A response is relayed exactly when the last step is a forward, which was then answered, from that forward's server. A 503 means nothing is alive, or the last dead-marking used up the attempts. The forward after the first dead-marking goes to the server `Next` picks from the pool after dispatch, with the given-up server marked dead. |
| Proxy.ReverseProxy | pkg/golb/golb.go:118-120 | Starts by forwarding to server `i` at the context's counters. If that forward is answered, the run is exactly that forward, relayed from `i`, with the pool unchanged. Otherwise `ErrorHandler`'s step follows. The whole trace follows the protocol. After it marks `i` dead, the next forward, if any, goes to the server `Next` picks from the pool with `i` marked dead. It never relays from a server it marked dead. |
| Proxy.ErrorHandler | pkg/golb/golb.go:73-91 | Its first step is a retry of the same server with the retry counter raised by one while the counter is below 3. Otherwise it is a dead-marking of that server at the current counters, and the next forward, if any, goes to the server `Next` picks from the pool with that server marked dead. The rest of the trace follows the protocol. |
| Proxy.Retry | pkg/golb/golb.go:76-85 | The retry branch: the retry counter goes up by exactly one, and the attempt counter is unchanged. The next step forwards to the same server at the new counters. |
| Proxy.GiveUp | pkg/golb/golb.go:87-90 | The exhaustion branch: the server is marked dead. If that used up the attempts, the run ends there. Otherwise the next forward, if any, goes to the server `Next` picks from the pool with that server marked dead, with the attempt counter two higher. |
| Proxy.GiveUpReentersPool | pkg/golb/golb.go:60-91 | Once the retries are used up, `ErrorHandler` marks the server dead. The next forward, if any, goes to the server `Next` picks from the pool with that server marked dead, not to an arbitrary live server. |
| Proxy.ExhaustedHandlerEnds | pkg/golb/golb.go:60-91 | A transport error with both the retries and the attempts used up: the run is exactly one dead-marking of that server, then 503, and the server is dead. |
| Proxy.Fallback | pkg/golb/golb.go:60-71 | With the attempts used up, the answer is 503 with nothing else done. Otherwise any first step forwards to the server `Next` picks, which is alive, with the attempt counter raised by one. |
| Proxy.AnsweredRequestRelayed | pkg/golb/golb.go:152-157 | A request whose first forward is answered is relayed from the server `Next` picked. There is no retry, no dead-marking, no other forward and no liveness change. |
| Proxy.UnansweredTrace | pkg/golb/golb.go:73-91 | In any trace that follows the protocol while no forward is answered, the server is forwarded to and retried until the retry counter reaches 3, forwarded to once more, then marked dead. Anything after that is a forward to another live server. |
| Proxy.NoRetryAfterGivingUp | pkg/golb/golb.go:73-91 | After a server has been given up on, no later step of the request is a retry, because the retry counter is never reset. |
| Proxy.FreshRequestLimits | pkg/golb/golb.go:60-91 | A fresh request is retried at most 3 times in all and gives up on at most two servers. |
| Proxy.UnreachableSoleServer | test/golb/golb_test.go:96-121 | With a sole server whose upstream never answers again, whatever the request's counters, the trace is exactly: forwards and retries until the retry counter reaches 3, one more forward, one dead-marking. The response is 503 and the server is dead. |
| Proxy.SoleFailingServerScenario | test/golb/golb_test.go:98-120 | The test's setup: `badServer` is added to a fresh pool and set alive, and its reverse proxy gets a fresh request that is never answered. There are exactly four forwards, three retries and one dead-marking, the response is 503, and the server is dead. |
| Health.UpdateStatus | pkg/golb/instance.go:79-89 | Always sets the alive flag and the last timestamp. An error sets the last error and its timestamp. Without an error both keep their previous values. Identity fields and the last payload are unchanged. |
| Health.RunHealthCheck | pkg/golb/instance.go:49-77 | Alive exactly when the poll got a 200 that decoded to a healthy payload. The timestamp is always updated. The error fields are updated only by a build, transport or decode error, never by a non-200 status. The last payload changes only on a successful decode. |
| Health.RunHealthCheckInterval | pkg/golb/instance.go:29-46 | The loop never changes the instance's identity. With no tick before the first cancellation, the record is unchanged. Otherwise it has been stamped. |
| Health.Handled | pkg/golb/instance.go:37-46 | The events the loop reacts to are a cancellation-free prefix of the input, ended by the first `Cancel`. |
| Health.CancelStopsLoop | pkg/golb/instance.go:42-44 | Nothing after the first cancellation changes the record. |
| Health.OnlyHandledEventsMatter | pkg/golb/instance.go:37-46 | The loop's result is determined by the handled events alone. |
| Health.TickAppliesOnePoll | pkg/golb/instance.go:39-41 | A tick applies exactly one poll, after the ticks before it. |
| Health.TicksSummary | pkg/golb/instance.go:29-46 | After a run of ticks, the instance is alive exactly when the last poll was healthy. It carries the last tick's timestamp, the most recent error with its tick's time, and the most recent decoded payload, however old. |
| Health.LoopKeepsConsistent | pkg/golb/instance.go:79-89 | Over ticks whose timestamps never go back, an error and its timestamp stay set together. Neither the error timestamp nor the payload outlives a missing last timestamp. |
| Health.ErrorSurvivesRecovery | pkg/golb/instance.go:83-88 | A failed poll followed by a healthy one leaves the instance alive with the old error and its timestamp still set. |
| Health.HealthyEndpointScenario | test/golb/instanceinfo_test.go:46-85 | After at least one tick answering 200 `{"status": true}`, the instance is alive and its last payload reports healthy. |
| Health.DownEndpointScenario | test/golb/instanceinfo_test.go:88-123 | An endpoint that always answers 503 leaves the instance not alive, with its payload and error untouched. |
| Health.TimeoutScenario | test/golb/instanceinfo_test.go:125-172 | An endpoint that always times out leaves the instance not alive, with the timeout error recorded at the last poll's time and the payload untouched. |

## Left out

- HTTP forwarding, `http.Error` bodies, `http.Client.Do` and JSON decoding are library calls. Forwarding is the `ok` oracle. A poll is its `Poll` outcome. Detail values of the health payload are kept as text.
- `url.Parse` is the `UrlParser` parameter. The health-check URL's `String()` is not modelled; a failure to build the request is a `RequestFailed` outcome.
- Timing is left out: the 10 ms retry pause, the 5 s client timeout and the ticker interval. A timeout is a transport error. A tick's time is carried by the event. Go's `select` choice between a ready tick and a cancellation is the order of the event list.
- Concurrency is left out: atomic cursor operations, the `sync.RWMutex` on servers, and races between requests and health checks. Everything is sequential.
- Pool.NextIndex: the cursor is a `nat` and does not wrap around at 2^64 as the `uint64` does. A wrap would only shift the starting point of a round.
- Proxy.GetRetryCount: a context value of a type other than `int` also reads as 0 in Go. The model's context holds only integers, so that case does not arise.
- Proxy.ServeHTTP: the contracts of the retry and fallback chain do not state the cursor of the final pool. Each dispatch moves it as `Pool.Dispatch` states.
- Proxy.ServeHTTP: only the first fallback hop is pinned to `Next`'s pick. Any later hop is only stated to go to a live server other than the ones given up on. A later hop needs a second give-up that does not use up the attempts, which takes an attempt counter below 0. golb only ever stores counters counted up from 0, so no real request makes a second hop (`Proxy.FreshRequestLimits`).
- Proxy.ReverseProxy: the same holds as for `Proxy.ServeHTTP`. Only the hop after its own dead-marking is pinned to `Next`'s pick.
- The request counters are unbounded integers. Go's `int` never comes near overflow, because a request raises each counter only a few times.
- `log.Printf` calls have no effect on state and are left out.
- `NewServer` ignores its argument and returns an empty pool; it is `EmptyPool`.
- `pkg/golb/registry.go` is a non-functional stub. Its `Register` does not match the interface, appends to a discarded slice copy and writes to a nil map. It is not part of this model.
- The reverse proxy's success path is the `ok` oracle returning true; the response body is not modelled.
