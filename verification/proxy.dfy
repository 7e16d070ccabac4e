/**
 * The per-request retry and fallback protocol of pkg/golb/golb.go.
 *
 * A request carries two counters in its context: "retry-ctx" (re-forwards to
 * the same server) and "attempt-ctx" (hops back through the pool). When a
 * server's reverse proxy reports a transport error, `ErrorHandler` retries
 * the same server until the retry counter reaches `MaxRetryCount`; after
 * that it marks the server dead, bumps the attempt counter and calls
 * `FallbackHandler`, which answers 503 once the attempt counter reaches
 * `MaxAttemptCount` and otherwise bumps it again and re-enters the pool.
 *
 * The network is an oracle: `ok(k)` says whether the k-th forward of this
 * request (counting from 0) got a response back. A run records what
 * happened as a trace of steps, and ends in a response.
 */
module Proxy {
  import opened Common
  import opened Pool

  const MaxRetryCount: int := 3
  const MaxAttemptCount: int := 3

  /** The request context's values under "retry-ctx" and "attempt-ctx"; None when unset. */
  datatype Context = Context(retry: Option<int>, attempt: Option<int>)

  /** The context of a request fresh from a client. */
  const Background := Context(None, None)

  /** Whether the k-th forward of the request gets a response (true) or a transport error (false). */
  type Upstream = nat -> bool

  /** What happened to the request, with the context's counters at that moment. */
  datatype Step =
    | Forwarded(server: nat, retry: int, attempt: int)   // the server's reverse proxy sends the request
    | Retried(server: nat, retry: int, attempt: int)     // `ErrorHandler` stores the incremented retry counter
    | MarkedDead(server: nat, retry: int, attempt: int)  // `ErrorHandler` gives up on the server

  /** What the client finally receives. */
  datatype Response =
    | Proxied(server: nat)   // the upstream's own response, relayed by its reverse proxy
    | ServiceUnavailable     // 503 from `ServeHTTP` or `FallbackHandler`
    | Panicked               // `ServeHTTP` on an empty pool divides by zero

  datatype Run = Run(pool: ServerPool, trace: seq<Step>, response: Response)

  /** `getRetryCount`: a missing value reads as 0. */
  function GetRetryCount(ctx: Context): (r: int)
    ensures ctx.retry.None? ==> r == 0
    ensures ctx.retry.Some? ==> r == ctx.retry.value
  {
    match ctx.retry
    case Some(n) => n
    case None => 0
  }

  /** `getAttemptCount`: a missing value reads as 0. */
  function GetAttemptCount(ctx: Context): (r: int)
    ensures ctx.attempt.None? ==> r == 0
    ensures ctx.attempt.Some? ==> r == ctx.attempt.value
  {
    match ctx.attempt
    case Some(n) => n
    case None => 0
  }

  /** How many more retries `ErrorHandler` grants with this context. */
  function RetryBudget(ctx: Context): nat {
    if GetRetryCount(ctx) >= MaxRetryCount then 0 else MaxRetryCount - GetRetryCount(ctx)
  }

  /** How many more pool hops `FallbackHandler` may still grant with this context. */
  function AttemptBudget(ctx: Context): nat {
    if GetAttemptCount(ctx) >= MaxAttemptCount then 0 else MaxAttemptCount - GetAttemptCount(ctx)
  }

  /**
   * How many servers a request whose attempt counter reads `attempt` can
   * still mark dead: one per escalation, and each escalation raises the
   * counter by two (once in `ErrorHandler`, once in `FallbackHandler`).
   */
  function DeadBudget(attempt: int): nat
    decreases if attempt >= MaxAttemptCount then 0 else MaxAttemptCount - attempt
  {
    if attempt + 1 < MaxAttemptCount then 1 + DeadBudget(attempt + 2) else 1
  }

  function CountRetried(t: seq<Step>): nat {
    if t == [] then 0 else (if t[0].Retried? then 1 else 0) + CountRetried(t[1..])
  }

  function CountMarkedDead(t: seq<Step>): nat {
    if t == [] then 0 else (if t[0].MarkedDead? then 1 else 0) + CountMarkedDead(t[1..])
  }

  /** The servers a trace marks dead. */
  function Killed(t: seq<Step>): set<nat> {
    if t == [] then {} else (if t[0].MarkedDead? then {t[0].server} else {}) + Killed(t[1..])
  }

  function Last(t: seq<Step>): Step
    requires |t| > 0
  {
    t[|t| - 1]
  }

  /** The step `ErrorHandler` takes on a transport error of a forward made at these counters. */
  function HandlerStep(i: nat, retry: int, attempt: int): Step {
    if retry < MaxRetryCount then Retried(i, retry + 1, attempt) else MarkedDead(i, retry, attempt)
  }

  /**
   * The protocol, read off a trace, for a request whose next forward is the
   * `sent`-th and while the servers in `live` are alive: a forward that gets
   * a response ends the trace; one that fails is followed by `ErrorHandler`'s
   * step for the same server; a retry is followed by a forward to the same
   * server at the new counters; a dead-marking that uses up the attempts
   * ends the trace, and after any other the request is next forwarded (if
   * at all) to a server still alive, with the attempt counter two higher.
   */
  predicate Follows(t: seq<Step>, ok: Upstream, sent: nat, live: set<nat>)
    decreases |t|
  {
    if t == [] then true
    else
      match t[0]
      case Forwarded(i, retry, attempt) =>
        if ok(sent) then |t| == 1
        else |t| > 1 && t[1] == HandlerStep(i, retry, attempt) && Follows(t[1..], ok, sent + 1, live)
      case Retried(i, retry, attempt) =>
        |t| > 1 && t[1] == Forwarded(i, retry, attempt) && Follows(t[1..], ok, sent, live)
      case MarkedDead(i, retry, attempt) =>
        && (attempt + 1 >= MaxAttemptCount ==> |t| == 1)
        && (|t| > 1 ==>
              && t[1].Forwarded? && t[1].server in live - {i}
              && t[1].retry == retry && t[1].attempt == attempt + 2)
        && Follows(t[1..], ok, sent, live - {i})
  }

  /**
   * The fallback hop, for a trace that starts on pool `sp`: right after the
   * first dead-marking, the request is forwarded to the server `Next` picks
   * from `sp` with the given-up server marked dead, since `FallbackHandler`
   * re-enters the pool's `ServeHTTP`.
   */
  predicate FallbackHop(sp: ServerPool, t: seq<Step>)
    decreases |t|
  {
    if |t| < 2 then true
    else if t[0].MarkedDead? then
      t[0].server < |sp.servers| ==> Next(SetAlive(sp, t[0].server, false)).peer == Some(t[1].server)
    else FallbackHop(sp, t[1..])
  }

  /** Neither counter ever decreases along a trace. */
  predicate Monotone(t: seq<Step>) {
    forall i, j :: 0 <= i < j < |t| ==> t[i].retry <= t[j].retry && t[i].attempt <= t[j].attempt
  }

  /**
   * The first step carries counters at least those of `ctx`; on a monotone
   * trace, so does every step.
   */
  predicate StartsFrom(t: seq<Step>, ctx: Context) {
    |t| > 0 ==> GetRetryCount(ctx) <= t[0].retry && GetAttemptCount(ctx) <= t[0].attempt
  }

  /** The forward whose transport error made `ErrorHandler` take step `s`. */
  function FailedForward(s: Step): Step
    requires !s.Forwarded?
  {
    Forwarded(s.server, if s.Retried? then s.retry - 1 else s.retry, s.attempt)
  }

  /**
   * From position `from` on, every retry and every dead-marking directly
   * follows the failed forward to the same server that caused it.
   */
  predicate ErrorsFollowForwards(t: seq<Step>, from: nat) {
    forall k :: from <= k < |t| && !t[k].Forwarded? ==> 0 < k && t[k - 1] == FailedForward(t[k])
  }

  /** Retries stop at `MaxRetryCount`; a server is marked dead only once they are used up. */
  predicate WithinRetryLimit(t: seq<Step>) {
    forall k :: 0 <= k < |t| ==>
      && (t[k].Retried? ==> t[k].retry <= MaxRetryCount)
      && (t[k].MarkedDead? ==> t[k].retry >= MaxRetryCount)
  }

  /** A server's flag changes only when the trace marks it dead. */
  predicate LivenessFollowsTrace(sp: ServerPool, r: Run) {
    && SameServersUpToLiveness(sp.servers, r.pool.servers)
    && forall j :: 0 <= j < |sp.servers| ==>
         r.pool.servers[j].alive == (sp.servers[j].alive && j !in Killed(r.trace))
  }

  /** Puts one step in front of a run, with the counting facts that follow. */
  function Cons(s: Step, r: Run): (r': Run)
    ensures r'.pool == r.pool && r'.response == r.response
    ensures r'.trace == [s] + r.trace && r'.trace[0] == s && r'.trace[1..] == r.trace
    ensures |r'.trace| == 1 + |r.trace| && (|r.trace| > 0 ==> Last(r'.trace) == Last(r.trace))
    ensures CountRetried(r'.trace) == (if s.Retried? then 1 else 0) + CountRetried(r.trace)
    ensures CountMarkedDead(r'.trace) == (if s.MarkedDead? then 1 else 0) + CountMarkedDead(r.trace)
    ensures Killed(r'.trace) == (if s.MarkedDead? then {s.server} else {}) + Killed(r.trace)
  {
    var t := [s] + r.trace;
    assert t[1..] == r.trace;
    r.(trace := t)
  }

  /**
   * Putting step `s` in front of trace `t` keeps the trace facts, given that
   * `s` carries counters no larger than `ctx`'s (which bound `t` from below)
   * and no smaller than `lo`'s, and that it is the failed forward `t` starts from.
   */
  lemma ConsTrace(s: Step, t: seq<Step>, ctx: Context, lo: Context)
    requires Monotone(t) && StartsFrom(t, ctx)
    requires s.retry <= GetRetryCount(ctx) && s.attempt <= GetAttemptCount(ctx)
    requires GetRetryCount(lo) <= s.retry && GetAttemptCount(lo) <= s.attempt
    requires WithinRetryLimit(t)
    requires s.Retried? ==> s.retry <= MaxRetryCount
    requires s.MarkedDead? ==> s.retry >= MaxRetryCount
    requires ErrorsFollowForwards(t, 1)
    requires |t| > 0 && !t[0].Forwarded? ==> s == FailedForward(t[0])
    requires s.Forwarded? ==> |t| > 0 && !t[0].Forwarded?
    requires !s.Forwarded? ==> ErrorsFollowForwards(t, 0)
    ensures Monotone([s] + t) && StartsFrom([s] + t, lo) && WithinRetryLimit([s] + t)
    ensures ErrorsFollowForwards([s] + t, if s.Forwarded? then 0 else 1)
    ensures |t| > 0 ==> Last([s] + t) == Last(t)
  {
    var t' := [s] + t;
    forall i, j | 0 <= i < j < |t'|
      ensures t'[i].retry <= t'[j].retry && t'[i].attempt <= t'[j].attempt
    {
      assert t'[j] == t[j - 1];
      if i > 0 {
        assert t'[i] == t[i - 1];
      } else {
        assert t[0].retry <= t[j - 1].retry && t[0].attempt <= t[j - 1].attempt;
      }
    }
    forall k | 0 < k < |t'|
      ensures t'[k] == t[k - 1]
    {
    }
  }

  /** Marking server `i` dead before a run shows up as `i` among the run's killed servers. */
  lemma MarkDeadThenRun(sp: ServerPool, i: nat, s: Step, rest: Run)
    requires i < |sp.servers| && s.MarkedDead? && s.server == i
    requires LivenessFollowsTrace(SetAlive(sp, i, false), rest)
    ensures LivenessFollowsTrace(sp, Cons(s, rest))
  {
    var sp' := SetAlive(sp, i, false);
    assert Killed(Cons(s, rest).trace) == {i} + Killed(rest.trace);
    forall j | 0 <= j < |sp.servers|
      ensures rest.pool.servers[j].alive == (sp.servers[j].alive && j !in {i} + Killed(rest.trace))
    {
      if j != i {
        assert sp'.servers[j] == sp.servers[j];
      }
    }
  }

  /**
   * The facts every stage of the protocol keeps about the run it returns,
   * for a request that reached it with context `ctx` after `sent` forwards:
   * liveness changes only through dead-markings, the counters never
   * decrease and start from the context's, retries stay within the budget
   * and the limit, every retry and dead-marking from position `from` on
   * follows the failed forward behind it, and a response is relayed only if
   * some forward from `sent` on got one.
   */
  ghost predicate RunInvariant(sp: ServerPool, ctx: Context, ok: Upstream, sent: nat, r: Run, from: nat) {
    && LivenessFollowsTrace(sp, r)
    && StartsFrom(r.trace, ctx) && Monotone(r.trace)
    && CountRetried(r.trace) <= RetryBudget(ctx)
    && WithinRetryLimit(r.trace) && ErrorsFollowForwards(r.trace, from)
    && Follows(r.trace, ok, sent, LiveIn(sp.servers))
    && ((forall k :: sent <= k ==> !ok(k)) ==> !r.response.Proxied?)
  }

  /**
   * The run ends by marking a server dead with the attempts used up, and
   * that server is still dead in the final pool.
   */
  predicate GaveUpLast(r: Run) {
    && |r.trace| > 0 && Last(r.trace).MarkedDead? && Last(r.trace).attempt + 1 >= MaxAttemptCount
    && Last(r.trace).server < |r.pool.servers| && !r.pool.servers[Last(r.trace).server].alive
  }

  /**
   * How a stage entered on server `i` ends: it relays a response exactly
   * when its last step is a forward, and then from `i` or from a server
   * still alive, never from one it marked dead; it answers 503 only when
   * nothing is alive or the last dead-marking used up the attempts.
   */
  predicate EndsOn(sp: ServerPool, i: nat, r: Run) {
    && |r.trace| > 0 && !r.response.Panicked? && |r.pool.servers| == |sp.servers|
    && (r.response.Proxied? <==> Last(r.trace).Forwarded?)
    && (r.response.Proxied? ==>
          && r.response.server == Last(r.trace).server
          && r.response.server < |sp.servers| && r.response.server !in Killed(r.trace)
          && (r.response.server == i || r.pool.servers[r.response.server].alive))
    && (r.response.ServiceUnavailable? ==>
          NoneAlive(r.pool.servers) || GaveUpLast(r))
  }

  /** What `ServeHTTP` guarantees about a request's run. */
  ghost predicate ServeOutcome(sp: ServerPool, ctx: Context, ok: Upstream, sent: nat, r: Run) {
    && RunInvariant(sp, ctx, ok, sent, r, 0)
    && CountMarkedDead(r.trace) <= DeadBudget(GetAttemptCount(ctx))
    && (r.response.Panicked? <==> |sp.servers| == 0)
    && (|r.trace| > 0 <==> |sp.servers| > 0 && !NoneAlive(sp.servers))
    && (|r.trace| > 0 ==>
          && r.trace[0] == Forwarded(r.trace[0].server, GetRetryCount(ctx), GetAttemptCount(ctx))
          && Next(sp).peer == Some(r.trace[0].server)
          && FallbackHop(Next(sp).pool, r.trace))
    && (r.response.Proxied? <==> |r.trace| > 0 && Last(r.trace).Forwarded?)
    && (r.response.Proxied? ==>
          && r.response.server == Last(r.trace).server
          && r.response.server < |sp.servers| && r.pool.servers[r.response.server].alive)
    && (r.response.ServiceUnavailable? ==>
          || NoneAlive(r.pool.servers)
          || GaveUpLast(r))
  }

  /** What the reverse proxy of server `i` guarantees: it starts by forwarding to `i`. */
  ghost predicate ProxyOutcome(sp: ServerPool, i: nat, ctx: Context, ok: Upstream, sent: nat, r: Run) {
    && RunInvariant(sp, ctx, ok, sent, r, 0)
    && CountMarkedDead(r.trace) <= DeadBudget(GetAttemptCount(ctx))
    && EndsOn(sp, i, r)
    && r.trace[0] == Forwarded(i, GetRetryCount(ctx), GetAttemptCount(ctx))
    && (ok(sent) ==> r == Run(sp, [Forwarded(i, GetRetryCount(ctx), GetAttemptCount(ctx))], Proxied(i)))
    && FallbackHop(sp, r.trace)
  }

  /**
   * What `ErrorHandler` for server `i` guarantees: it starts with a retry
   * carrying the incremented counter, or, once the retries are used up, by
   * marking `i` dead.
   */
  ghost predicate HandlerOutcome(sp: ServerPool, i: nat, ctx: Context, ok: Upstream, sent: nat, r: Run) {
    && RunInvariant(sp, ctx, ok, sent, r, 1)
    && CountMarkedDead(r.trace) <= DeadBudget(GetAttemptCount(ctx))
    && EndsOn(sp, i, r)
    && r.trace[0] == HandlerStep(i, GetRetryCount(ctx), GetAttemptCount(ctx))
    && FallbackHop(sp, r.trace)
  }

  /**
   * How `FallbackHandler` on pool `sp` ends, for a request whose attempt
   * counter reads `attempt`: with the attempts used up, 503 and nothing
   * else; otherwise it relays a response exactly when its last step is a
   * forward, from a server still alive, and answers 503 only when nothing
   * is alive or the last dead-marking used up the attempts.
   */
  predicate FallbackEnd(sp: ServerPool, attempt: int, r: Run) {
    && (attempt >= MaxAttemptCount ==> r == Run(sp, [], ServiceUnavailable))
    && (attempt < MaxAttemptCount ==> CountMarkedDead(r.trace) <= DeadBudget(attempt + 1))
    && !r.response.Panicked? && |r.pool.servers| == |sp.servers|
    && (r.response.Proxied? <==> |r.trace| > 0 && Last(r.trace).Forwarded?)
    && (r.response.Proxied? ==>
          && r.response.server == Last(r.trace).server
          && r.response.server < |sp.servers| && r.pool.servers[r.response.server].alive)
    && (r.response.ServiceUnavailable? ==>
          || NoneAlive(r.pool.servers)
          || (r.trace == [] && attempt >= MaxAttemptCount)
          || GaveUpLast(r))
  }

  /**
   * What `FallbackHandler` guarantees: it ends as `FallbackEnd` says, and
   * below the limit its first forward goes to the server `Next` picks.
   */
  ghost predicate FallbackOutcome(sp: ServerPool, ctx: Context, ok: Upstream, sent: nat, r: Run) {
    && RunInvariant(sp, ctx, ok, sent, r, 0)
    && FallbackEnd(sp, GetAttemptCount(ctx), r)
    && (|r.trace| > 0 ==>
          && r.trace[0].Forwarded? && r.trace[0].server in LiveIn(sp.servers)
          && r.trace[0].retry == GetRetryCount(ctx) && r.trace[0].attempt == GetAttemptCount(ctx) + 1
          && |sp.servers| > 0 && Next(sp).peer == Some(r.trace[0].server))
  }

  /**
   * `ServerPool.ServeHTTP` for one request: dispatch through `Next` and
   * forward, or answer 503 when no server is alive.
   */
  function ServeHTTP(sp: ServerPool, ctx: Context, ok: Upstream, sent: nat): (r: Run)
    ensures ServeOutcome(sp, ctx, ok, sent, r)
    decreases AttemptBudget(ctx), RetryBudget(ctx), 4
  {
    var (sp', decision) := Dispatch(sp);
    match decision
    case EmptyPoolPanic => Run(sp', [], Panicked)
    case Unavailable => Run(sp', [], ServiceUnavailable)
    case ProxyTo(i) =>
      var r := ReverseProxy(sp', i, ctx, ok, sent);
      DispatchedRun(sp, sp', i, ctx, ok, sent, r);
      r
  }

  /**
   * The reverse proxy of server `i` forwarding the request; a transport
   * error hands over to `ErrorHandler`.
   */
  function ReverseProxy(sp: ServerPool, i: nat, ctx: Context, ok: Upstream, sent: nat): (r: Run)
    requires i < |sp.servers|
    ensures ProxyOutcome(sp, i, ctx, ok, sent, r)
    decreases AttemptBudget(ctx), RetryBudget(ctx), 3
  {
    var step := Forwarded(i, GetRetryCount(ctx), GetAttemptCount(ctx));
    if ok(sent) then
      AnsweredRun(sp, i, ctx, ok, sent);
      Run(sp, [step], Proxied(i))
    else
      var rest := ErrorHandler(sp, i, ctx, ok, sent + 1);
      FailedForwardRun(sp, i, ctx, ok, sent, rest);
      Cons(step, rest)
  }

  /**
   * `ErrorHandler`: retry the same server while the retry counter is below
   * `MaxRetryCount`, with the incremented counter in a new context;
   * otherwise give up on the server.
   */
  function ErrorHandler(sp: ServerPool, i: nat, ctx: Context, ok: Upstream, sent: nat): (r: Run)
    requires i < |sp.servers|
    ensures HandlerOutcome(sp, i, ctx, ok, sent, r)
    decreases AttemptBudget(ctx), RetryBudget(ctx), 2
  {
    if GetRetryCount(ctx) < MaxRetryCount then Retry(sp, i, ctx, ok, sent)
    else GiveUp(sp, i, ctx, ok, sent)
  }

  /**
   * The first branch of `ErrorHandler`: store the incremented retry counter
   * in a new context and let the reverse proxy forward again.
   */
  function Retry(sp: ServerPool, i: nat, ctx: Context, ok: Upstream, sent: nat): (r: Run)
    requires i < |sp.servers|
    requires GetRetryCount(ctx) < MaxRetryCount
    ensures HandlerOutcome(sp, i, ctx, ok, sent, r)
    decreases AttemptBudget(ctx), RetryBudget(ctx), 1
  {
    var rest := ReverseProxy(sp, i, ctx.(retry := Some(GetRetryCount(ctx) + 1)), ok, sent);
    RetriedRun(sp, i, ctx, ok, sent, rest);
    Cons(Retried(i, GetRetryCount(ctx) + 1, GetAttemptCount(ctx)), rest)
  }

  /**
   * The last branch of `ErrorHandler`: mark server `i` dead, bump the
   * attempt counter and hand over to `FallbackHandler`.
   */
  function GiveUp(sp: ServerPool, i: nat, ctx: Context, ok: Upstream, sent: nat): (r: Run)
    requires i < |sp.servers|
    requires GetRetryCount(ctx) >= MaxRetryCount
    ensures HandlerOutcome(sp, i, ctx, ok, sent, r)
    decreases AttemptBudget(ctx), RetryBudget(ctx), 1
  {
    var attempts := GetAttemptCount(ctx);
    var rest := Fallback(SetAlive(sp, i, false), ctx.(attempt := Some(attempts + 1)), ok, sent);
    GaveUpRun(sp, i, ctx, ok, sent, rest);
    Cons(MarkedDead(i, GetRetryCount(ctx), attempts), rest)
  }

  /**
   * `FallbackHandler`: 503 once the attempt counter has reached
   * `MaxAttemptCount`; otherwise bump it and re-enter the pool. The server
   * it runs on always belongs to the pool, so the pool is not empty.
   */
  function Fallback(sp: ServerPool, ctx: Context, ok: Upstream, sent: nat): (r: Run)
    requires |sp.servers| > 0
    ensures FallbackOutcome(sp, ctx, ok, sent, r)
    decreases AttemptBudget(ctx), RetryBudget(ctx), 0
  {
    var attempts := GetAttemptCount(ctx);
    if attempts >= MaxAttemptCount then Run(sp, [], ServiceUnavailable)
    else
      var r := ServeHTTP(sp, ctx.(attempt := Some(attempts + 1)), ok, sent);
      ReenteredRun(sp, ctx, ok, sent, r);
      r
  }

  /** The run of the reverse proxy `Next` chose is the run of `ServeHTTP`. */
  lemma DispatchedRun(sp: ServerPool, sp': ServerPool, i: nat, ctx: Context, ok: Upstream, sent: nat, r: Run)
    requires sp'.servers == sp.servers && i < |sp.servers| && sp.servers[i].alive
    requires Next(sp).peer == Some(i) && sp' == Next(sp).pool
    requires ProxyOutcome(sp', i, ctx, ok, sent, r)
    ensures ServeOutcome(sp, ctx, ok, sent, r)
  {
  }

  /** A forward that gets a response ends the request with it. */
  lemma AnsweredRun(sp: ServerPool, i: nat, ctx: Context, ok: Upstream, sent: nat)
    requires i < |sp.servers| && ok(sent)
    ensures ProxyOutcome(sp, i, ctx, ok, sent,
      Run(sp, [Forwarded(i, GetRetryCount(ctx), GetAttemptCount(ctx))], Proxied(i)))
  {
    var t := [Forwarded(i, GetRetryCount(ctx), GetAttemptCount(ctx))];
    assert t[1..] == [];
  }

  /** A forward that fails, in front of `ErrorHandler`'s run. */
  lemma FailedForwardRun(sp: ServerPool, i: nat, ctx: Context, ok: Upstream, sent: nat, rest: Run)
    requires i < |sp.servers| && !ok(sent)
    requires HandlerOutcome(sp, i, ctx, ok, sent + 1, rest)
    ensures ProxyOutcome(sp, i, ctx, ok, sent,
      Cons(Forwarded(i, GetRetryCount(ctx), GetAttemptCount(ctx)), rest))
  {
    ConsTrace(Forwarded(i, GetRetryCount(ctx), GetAttemptCount(ctx)), rest.trace, ctx, ctx);
  }

  /** A retry, in front of the run of the reverse proxy with the incremented counter. */
  lemma RetriedRun(sp: ServerPool, i: nat, ctx: Context, ok: Upstream, sent: nat, rest: Run)
    requires i < |sp.servers| && GetRetryCount(ctx) < MaxRetryCount
    requires ProxyOutcome(sp, i, ctx.(retry := Some(GetRetryCount(ctx) + 1)), ok, sent, rest)
    ensures HandlerOutcome(sp, i, ctx, ok, sent,
      Cons(Retried(i, GetRetryCount(ctx) + 1, GetAttemptCount(ctx)), rest))
  {
    var ctx' := ctx.(retry := Some(GetRetryCount(ctx) + 1));
    assert GetAttemptCount(ctx') == GetAttemptCount(ctx);
    ConsTrace(Retried(i, GetRetryCount(ctx) + 1, GetAttemptCount(ctx)), rest.trace, ctx', ctx);
  }

  /** Marking server `i` dead, in front of `FallbackHandler`'s run on the pool without it. */
  lemma GaveUpRun(sp: ServerPool, i: nat, ctx: Context, ok: Upstream, sent: nat, rest: Run)
    requires i < |sp.servers| && GetRetryCount(ctx) >= MaxRetryCount
    requires FallbackOutcome(SetAlive(sp, i, false), ctx.(attempt := Some(GetAttemptCount(ctx) + 1)), ok, sent, rest)
    ensures HandlerOutcome(sp, i, ctx, ok, sent,
      Cons(MarkedDead(i, GetRetryCount(ctx), GetAttemptCount(ctx)), rest))
  {
    GaveUpKeepsInvariant(sp, i, ctx, ok, sent, rest);
    assert GetAttemptCount(ctx.(attempt := Some(GetAttemptCount(ctx) + 1))) == GetAttemptCount(ctx) + 1;
    GaveUpEnds(sp, i, ctx, ok, sent, rest);
    GaveUpHop(sp, i, MarkedDead(i, GetRetryCount(ctx), GetAttemptCount(ctx)), rest);
  }

  /** The fallback's first forward, after marking `i` dead, is the fallback hop. */
  lemma GaveUpHop(sp: ServerPool, i: nat, s: Step, rest: Run)
    requires i < |sp.servers| && s.MarkedDead? && s.server == i
    requires |rest.trace| > 0 ==>
      |SetAlive(sp, i, false).servers| > 0 && Next(SetAlive(sp, i, false)).peer == Some(rest.trace[0].server)
    ensures FallbackHop(sp, Cons(s, rest).trace)
  {
  }

  lemma GaveUpKeepsInvariant(sp: ServerPool, i: nat, ctx: Context, ok: Upstream, sent: nat, rest: Run)
    requires i < |sp.servers| && GetRetryCount(ctx) >= MaxRetryCount
    requires FallbackOutcome(SetAlive(sp, i, false), ctx.(attempt := Some(GetAttemptCount(ctx) + 1)), ok, sent, rest)
    ensures RunInvariant(sp, ctx, ok, sent, Cons(MarkedDead(i, GetRetryCount(ctx), GetAttemptCount(ctx)), rest), 1)
  {
    var ctx' := ctx.(attempt := Some(GetAttemptCount(ctx) + 1));
    var step := MarkedDead(i, GetRetryCount(ctx), GetAttemptCount(ctx));
    assert GetRetryCount(ctx') == GetRetryCount(ctx);
    ConsTrace(step, rest.trace, ctx', ctx);
    MarkDeadThenRun(sp, i, step, rest);
    FollowsAfterMarkDead(step, rest.trace, ok, sent, LiveIn(sp.servers));
  }

  lemma GaveUpEnds(sp: ServerPool, i: nat, ctx: Context, ok: Upstream, sent: nat, rest: Run)
    requires i < |sp.servers| && GetRetryCount(ctx) >= MaxRetryCount
    requires LivenessFollowsTrace(SetAlive(sp, i, false), rest)
    requires FallbackEnd(SetAlive(sp, i, false), GetAttemptCount(ctx) + 1, rest)
    ensures var r := Cons(MarkedDead(i, GetRetryCount(ctx), GetAttemptCount(ctx)), rest);
      && CountMarkedDead(r.trace) <= DeadBudget(GetAttemptCount(ctx))
      && EndsOn(sp, i, r)
      && r.trace[0] == HandlerStep(i, GetRetryCount(ctx), GetAttemptCount(ctx))
  {
    var step := MarkedDead(i, GetRetryCount(ctx), GetAttemptCount(ctx));
    var a := GetAttemptCount(ctx);
    MarkDeadThenRun(sp, i, step, rest);
    GaveUpEndsOn(sp, i, step, rest);
    GaveUpCount(a, step, rest.trace);
  }

  /** Marking one more server dead stays within the dead budget of the attempt counter before it. */
  lemma GaveUpCount(a: int, s: Step, rest: seq<Step>)
    requires s.MarkedDead?
    requires a + 1 >= MaxAttemptCount ==> rest == []
    requires a + 1 < MaxAttemptCount ==> CountMarkedDead(rest) <= DeadBudget(a + 1 + 1)
    ensures CountMarkedDead([s] + rest) <= DeadBudget(a)
  {
    assert ([s] + rest)[1..] == rest;
  }

  /** How a run ends after marking server `i` dead, from how the fallback's run ends. */
  lemma GaveUpEndsOn(sp: ServerPool, i: nat, s: Step, rest: Run)
    requires i < |sp.servers| && s.MarkedDead? && s.server == i
    requires LivenessFollowsTrace(sp, Cons(s, rest))
    requires |rest.pool.servers| == |sp.servers| && !rest.response.Panicked?
    requires rest.response.Proxied? <==> |rest.trace| > 0 && Last(rest.trace).Forwarded?
    requires rest.response.Proxied? ==>
      && rest.response.server == Last(rest.trace).server
      && rest.response.server < |sp.servers| && rest.pool.servers[rest.response.server].alive
    requires rest.response.ServiceUnavailable? ==>
      || NoneAlive(rest.pool.servers)
      || (rest.trace == [] && s.attempt + 1 >= MaxAttemptCount)
      || GaveUpLast(rest)
    ensures EndsOn(sp, i, Cons(s, rest))
  {
  }

  /**
   * A dead-marking in front of a trace that is empty once the attempts are
   * used up and otherwise re-enters the pool on a server still alive.
   */
  lemma FollowsAfterMarkDead(s: Step, t: seq<Step>, ok: Upstream, sent: nat, live: set<nat>)
    requires s.MarkedDead? && Follows(t, ok, sent, live - {s.server})
    requires s.attempt + 1 >= MaxAttemptCount ==> t == []
    requires |t| > 0 ==>
      && t[0].Forwarded? && t[0].server in live - {s.server}
      && t[0].retry == s.retry && t[0].attempt == s.attempt + 2
    ensures Follows([s] + t, ok, sent, live)
  {
    assert ([s] + t)[1..] == t;
  }

  /**
   * A transport error once both the retries and, with this escalation, the
   * attempts are used up: `ErrorHandler` marks the server dead and
   * `FallbackHandler` answers 503 at once, without another forward.
   */
  lemma ExhaustedHandlerEnds(sp: ServerPool, i: nat, ctx: Context, ok: Upstream, sent: nat)
    requires i < |sp.servers|
    requires GetRetryCount(ctx) >= MaxRetryCount && GetAttemptCount(ctx) + 1 >= MaxAttemptCount
    ensures var r := ErrorHandler(sp, i, ctx, ok, sent);
      && r.trace == [MarkedDead(i, GetRetryCount(ctx), GetAttemptCount(ctx))]
      && r.response == ServiceUnavailable
      && !r.pool.servers[i].alive
  {
    HandlerRunEnds(sp, i, ctx, ok, sent, ErrorHandler(sp, i, ctx, ok, sent));
  }

  lemma HandlerRunEnds(sp: ServerPool, i: nat, ctx: Context, ok: Upstream, sent: nat, r: Run)
    requires i < |sp.servers|
    requires GetRetryCount(ctx) >= MaxRetryCount && GetAttemptCount(ctx) + 1 >= MaxAttemptCount
    requires HandlerOutcome(sp, i, ctx, ok, sent, r)
    ensures r.trace == [MarkedDead(i, GetRetryCount(ctx), GetAttemptCount(ctx))]
    ensures r.response == ServiceUnavailable && !r.pool.servers[i].alive
  {
    assert |r.trace| == 1;
    assert i in Killed(r.trace);
  }

  /**
   * After giving up on server `i`, the request is forwarded (if at all) to
   * the server `Next` picks from the pool with `i` marked dead: the fallback
   * re-enters the pool's round robin rather than choosing freely.
   */
  lemma GiveUpReentersPool(sp: ServerPool, i: nat, ctx: Context, ok: Upstream, sent: nat)
    requires i < |sp.servers| && GetRetryCount(ctx) >= MaxRetryCount
    ensures var r := ErrorHandler(sp, i, ctx, ok, sent);
      && r.trace[0] == MarkedDead(i, GetRetryCount(ctx), GetAttemptCount(ctx))
      && (|r.trace| > 1 ==> Next(SetAlive(sp, i, false)).peer == Some(r.trace[1].server))
  {
    HandlerHop(sp, i, ctx, ok, sent, ErrorHandler(sp, i, ctx, ok, sent));
  }

  lemma HandlerHop(sp: ServerPool, i: nat, ctx: Context, ok: Upstream, sent: nat, r: Run)
    requires i < |sp.servers| && GetRetryCount(ctx) >= MaxRetryCount
    requires HandlerOutcome(sp, i, ctx, ok, sent, r)
    ensures r.trace[0] == MarkedDead(i, GetRetryCount(ctx), GetAttemptCount(ctx))
    ensures |r.trace| > 1 ==> Next(SetAlive(sp, i, false)).peer == Some(r.trace[1].server)
  {
  }

  /** `ServeHTTP`'s run with the attempt counter bumped is the fallback's run. */
  lemma ReenteredRun(sp: ServerPool, ctx: Context, ok: Upstream, sent: nat, r: Run)
    requires |sp.servers| > 0 && GetAttemptCount(ctx) < MaxAttemptCount
    requires ServeOutcome(sp, ctx.(attempt := Some(GetAttemptCount(ctx) + 1)), ok, sent, r)
    ensures FallbackOutcome(sp, ctx, ok, sent, r)
  {
    assert GetRetryCount(ctx.(attempt := Some(GetAttemptCount(ctx) + 1))) == GetRetryCount(ctx);
  }

  /**
   * A request whose first forward is answered is relayed from the server
   * `Next` picked, with no retry, no dead-marking and no other forward.
   */
  lemma AnsweredRequestRelayed(sp: ServerPool, ctx: Context, ok: Upstream, sent: nat)
    requires |sp.servers| > 0 && !NoneAlive(sp.servers) && ok(sent)
    ensures Next(sp).peer.Some?
    ensures var r := ServeHTTP(sp, ctx, ok, sent);
      && r.trace == [Forwarded(Next(sp).peer.value, GetRetryCount(ctx), GetAttemptCount(ctx))]
      && r.response == Proxied(Next(sp).peer.value)
      && r.pool.servers == sp.servers
  {
    var r := ServeHTTP(sp, ctx, ok, sent);
    assert |r.trace| == 1;
    assert r.trace == [r.trace[0]];
    assert Killed(r.trace) == {};
  }

  /**
   * Once a server has been given up on, no later step of the request is a
   * retry: the retry counter is never reset, so a server reached by fallback
   * is given up on at its first transport error.
   */
  lemma NoRetryAfterGivingUp(sp: ServerPool, ctx: Context, ok: Upstream, sent: nat)
    ensures var t := ServeHTTP(sp, ctx, ok, sent).trace;
      forall i, j :: 0 <= i < j < |t| && t[i].MarkedDead? ==> !t[j].Retried?
  {
    NoRetryAfterMarkedDead(ServeHTTP(sp, ctx, ok, sent).trace);
  }

  lemma NoRetryAfterMarkedDead(t: seq<Step>)
    requires Monotone(t) && WithinRetryLimit(t) && ErrorsFollowForwards(t, 0)
    ensures forall i, j :: 0 <= i < j < |t| && t[i].MarkedDead? ==> !t[j].Retried?
  {
    forall i, j | 0 <= i < j < |t| && t[i].MarkedDead?
      ensures !t[j].Retried?
    {
      assert t[i].retry >= MaxRetryCount;
      assert t[j - 1].retry >= MaxRetryCount;
    }
  }

  /**
   * A request fresh from a client is retried at most `MaxRetryCount` times
   * in all, and gives up on at most two servers: the attempt counter is
   * raised twice per escalation, so it re-enters the pool at most once.
   */
  lemma FreshRequestLimits(sp: ServerPool, ok: Upstream, sent: nat)
    ensures var r := ServeHTTP(sp, Background, ok, sent);
      && CountRetried(r.trace) <= MaxRetryCount
      && CountMarkedDead(r.trace) <= 2
  {
    assert DeadBudget(2) == 1;
    assert DeadBudget(0) == 2;
  }

  /**
   * The trace of a reverse proxy on server `i` whose upstream never answers,
   * from a forward at retry counter `retry`: forward and retry until the
   * counter reaches `MaxRetryCount`, then one last failing forward and the
   * dead-marking.
   */
  function GiveUpTrace(i: nat, retry: int, attempt: int): (t: seq<Step>)
    ensures |t| >= 2 && t[0] == Forwarded(i, retry, attempt)
    decreases if retry < MaxRetryCount then MaxRetryCount - retry else 0
  {
    if retry >= MaxRetryCount then [Forwarded(i, retry, attempt), MarkedDead(i, retry, attempt)]
    else [Forwarded(i, retry, attempt), Retried(i, retry + 1, attempt)] + GiveUpTrace(i, retry + 1, attempt)
  }

  /** `GiveUpTrace` spends the whole retry budget and marks the server dead once, at its end. */
  lemma {:induction false} GiveUpTraceCounts(i: nat, retry: int, attempt: int)
    ensures var t := GiveUpTrace(i, retry, attempt);
      && CountRetried(t) == RetryBudget(Context(Some(retry), None))
      && CountMarkedDead(t) == 1
      && Last(t) == MarkedDead(i, if retry < MaxRetryCount then MaxRetryCount else retry, attempt)
    decreases if retry < MaxRetryCount then MaxRetryCount - retry else 0
  {
    var t := GiveUpTrace(i, retry, attempt);
    if retry >= MaxRetryCount {
      assert t[1..][1..] == [];
      assert CountMarkedDead(t[1..]) == 1 && CountRetried(t[1..]) == 0;
    } else {
      var rest := GiveUpTrace(i, retry + 1, attempt);
      GiveUpTraceCounts(i, retry + 1, attempt);
      assert t[1..][1..] == rest;
      assert CountMarkedDead(t[1..]) == CountMarkedDead(rest);
      assert CountRetried(t[1..]) == 1 + CountRetried(rest);
      assert Last(t) == Last(rest);
    }
  }

  /**
   * A trace that follows the protocol while no forward is ever answered,
   * starting with a forward to server `i`, begins with `GiveUpTrace`; anything
   * after it is a forward to another server that is still alive.
   */
  lemma {:induction false} UnansweredTrace(t: seq<Step>, ok: Upstream, sent: nat, live: set<nat>, i: nat, retry: int, attempt: int)
    requires Follows(t, ok, sent, live) && (forall k :: sent <= k ==> !ok(k))
    requires |t| > 0 && t[0] == Forwarded(i, retry, attempt)
    ensures var g := GiveUpTrace(i, retry, attempt);
      && |g| <= |t| && t[..|g|] == g
      && (|t| > |g| ==> t[|g|].Forwarded? && t[|g|].server in live - {i})
    decreases if retry < MaxRetryCount then MaxRetryCount - retry else 0
  {
    assert !ok(sent);
    assert |t| > 1 && t[1] == HandlerStep(i, retry, attempt) && Follows(t[1..], ok, sent + 1, live);
    var g := GiveUpTrace(i, retry, attempt);
    if retry >= MaxRetryCount {
      assert t[1..][0] == MarkedDead(i, retry, attempt);
      assert t[..2] == g;
    } else {
      var t2 := t[2..];
      assert t[1..][0] == Retried(i, retry + 1, attempt);
      assert t[1..][1..] == t2;
      UnansweredTrace(t2, ok, sent + 1, live, i, retry + 1, attempt);
      var g2 := GiveUpTrace(i, retry + 1, attempt);
      assert g == [t[0], t[1]] + g2;
      assert t[..|g|] == [t[0], t[1]] + t2[..|g2|];
      if |t| > |g| {
        assert t[|g|] == t2[|g2|];
      }
    }
  }

  /** With no other server to fall back on, an unanswered trace is exactly `GiveUpTrace`. */
  lemma SoleServerTrace(t: seq<Step>, ok: Upstream, sent: nat, live: set<nat>, retry: int, attempt: int)
    requires Follows(t, ok, sent, live) && (forall k :: sent <= k ==> !ok(k))
    requires |t| > 0 && t[0] == Forwarded(0, retry, attempt)
    requires forall j :: j in live ==> j == 0
    ensures t == GiveUpTrace(0, retry, attempt)
  {
    UnansweredTrace(t, ok, sent, live, 0, retry, attempt);
    var g := GiveUpTrace(0, retry, attempt);
    if |t| > |g| {
      assert false;
    }
    assert t == t[..|g|];
  }

  /**
   * test/golb/golb_test.go, unreachable sole server: whatever the request's
   * counters, a reverse proxy whose upstream never answers again retries
   * until the retry counter reaches `MaxRetryCount`, marks the server dead
   * and ends with 503: the pool has nothing left to fall back on.
   */
  lemma UnreachableSoleServer(sp: ServerPool, ctx: Context, ok: Upstream, sent: nat)
    requires |sp.servers| == 1
    requires forall k :: sent <= k ==> !ok(k)
    ensures var r := ReverseProxy(sp, 0, ctx, ok, sent);
      && r.trace == GiveUpTrace(0, GetRetryCount(ctx), GetAttemptCount(ctx))
      && r.response == ServiceUnavailable
      && !r.pool.servers[0].alive
  {
    SoleServerRun(sp, ctx, ok, sent, ReverseProxy(sp, 0, ctx, ok, sent));
  }

  lemma SoleServerRun(sp: ServerPool, ctx: Context, ok: Upstream, sent: nat, r: Run)
    requires |sp.servers| == 1
    requires forall k :: sent <= k ==> !ok(k)
    requires ProxyOutcome(sp, 0, ctx, ok, sent, r)
    ensures r.trace == GiveUpTrace(0, GetRetryCount(ctx), GetAttemptCount(ctx))
    ensures r.response == ServiceUnavailable && !r.pool.servers[0].alive
  {
    SoleServerTrace(r.trace, ok, sent, LiveIn(sp.servers), GetRetryCount(ctx), GetAttemptCount(ctx));
    GiveUpTraceCounts(0, GetRetryCount(ctx), GetAttemptCount(ctx));
  }

  /** An upstream that never answers. */
  function NeverAnswers(k: nat): bool {
    false
  }

  /** `GiveUpTrace` for a fresh request: four forwards, three retries, one dead-marking. */
  lemma FreshGiveUpTrace()
    ensures GiveUpTrace(0, 0, 0)
      == [Forwarded(0, 0, 0), Retried(0, 1, 0), Forwarded(0, 1, 0), Retried(0, 2, 0),
          Forwarded(0, 2, 0), Retried(0, 3, 0), Forwarded(0, 3, 0), MarkedDead(0, 3, 0)]
  {
    assert GiveUpTrace(0, 3, 0) == [Forwarded(0, 3, 0), MarkedDead(0, 3, 0)];
    assert GiveUpTrace(0, 2, 0) == [Forwarded(0, 2, 0), Retried(0, 3, 0)] + GiveUpTrace(0, 3, 0);
    assert GiveUpTrace(0, 1, 0) == [Forwarded(0, 1, 0), Retried(0, 2, 0)] + GiveUpTrace(0, 2, 0);
  }

  lemma FreshGiveUpCounts()
    ensures CountRetried(GiveUpTrace(0, 0, 0)) == MaxRetryCount
    ensures CountMarkedDead(GiveUpTrace(0, 0, 0)) == 1
  {
    GiveUpTraceCounts(0, 0, 0);
  }

  /**
   * The test's setup: a fresh pool, one server added and set alive, its
   * reverse proxy called directly with a fresh request. The request is
   * forwarded four times and retried three times, the server is marked dead
   * once, and the client gets 503.
   */
  lemma SoleFailingServerScenario(u: Url, parse: UrlParser)
    requires parse("http://127.0.0.1:1") == Ok(u)
    ensures var sp := SetAlive(AddServer(EmptyPool, "badServer", "http://127.0.0.1:1", parse).0, 0, true);
      var r := ReverseProxy(sp, 0, Background, NeverAnswers, 0);
      && r.trace == [Forwarded(0, 0, 0), Retried(0, 1, 0), Forwarded(0, 1, 0), Retried(0, 2, 0),
                     Forwarded(0, 2, 0), Retried(0, 3, 0), Forwarded(0, 3, 0), MarkedDead(0, 3, 0)]
      && CountRetried(r.trace) == MaxRetryCount && CountMarkedDead(r.trace) == 1
      && r.response == ServiceUnavailable
      && !r.pool.servers[0].alive
  {
    var sp := SetAlive(AddServer(EmptyPool, "badServer", "http://127.0.0.1:1", parse).0, 0, true);
    UnreachableSoleServer(sp, Background, NeverAnswers, 0);
    FreshGiveUpCounts();
    FreshGiveUpTrace();
  }
}
