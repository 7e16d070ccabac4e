/**
 * The health record of pkg/golb/instance.go and its update rules.
 *
 * One poll of the health endpoint is abstracted to its outcome: the request
 * could not be built, the transport failed (including the 5 s timeout and
 * cancellation of the loop's context), the endpoint answered with some
 * status code, and a 200 body either decoded or did not. The ticker loop is
 * a fold over a list of events, each a tick carrying its poll's timestamp
 * and outcome, or the cancellation of the loop's context.
 */
module Health {
  import opened Common

  /** A UTC instant. */
  type Time = int

  const StatusOK := 200

  /** The decoded health payload `{"status": …, "details": …}`; detail values are kept as text. */
  datatype InstanceStatus = InstanceStatus(status: bool, details: map<string, string>)

  /** `InstanceInfo`; the timestamp, error and payload fields, which start out nil, are Options. */
  datatype InstanceInfo = InstanceInfo(
    id: int,
    name: string,
    alive: bool,
    url: Url,
    healthCheckUrl: Url,
    lastTimestamp: Option<Time>,
    lastErrorTimestamp: Option<Time>,
    lastError: Option<Error>,
    lastInstanceStatus: Option<InstanceStatus>)

  /** Decoding the body of a 200 response. */
  datatype Body = DecodeFailed(err: Error) | Decoded(payload: InstanceStatus)

  /** What one poll of the health endpoint came to. */
  datatype Poll =
    | RequestFailed(err: Error)              // `http.NewRequestWithContext` returned an error
    | TransportFailed(err: Error)            // `client.Do` returned an error
    | Responded(statusCode: int, body: Body) // a response came back

  /** The events the loop of `RunHealthCheckInterval` reacts to. */
  datatype Event = Tick(at: Time, poll: Poll) | Cancel

  /** The poll found the instance reachable and reporting itself healthy. */
  predicate Healthy(p: Poll) {
    p.Responded? && p.statusCode == StatusOK && p.body.Decoded? && p.body.payload.status
  }

  /** The payload of a poll that got a 200 response and decoded it. */
  function Payload(p: Poll): Option<InstanceStatus> {
    if p.Responded? && p.statusCode == StatusOK && p.body.Decoded? then Some(p.body.payload) else None
  }

  /**
   * The error value a poll passes on: none for a non-200 status and none for
   * a decoded payload.
   */
  function PollError(p: Poll): Option<Error> {
    match p
    case RequestFailed(e) => Some(e)
    case TransportFailed(e) => Some(e)
    case Responded(code, body) =>
      if code == StatusOK && body.DecodeFailed? then Some(body.err) else None
  }

  /** The identity of a record: the fields no health check touches. */
  predicate SameInstance(a: InstanceInfo, b: InstanceInfo) {
    a.id == b.id && a.name == b.name && a.url == b.url && a.healthCheckUrl == b.healthCheckUrl
  }

  /**
   * `updateStatus`: liveness and the poll timestamp are always overwritten;
   * the error and its timestamp only when there is an error, so they survive
   * a later successful poll.
   */
  function UpdateStatus(inst: InstanceInfo, alive: bool, timestamp: Time, err: Option<Error>): (r: InstanceInfo)
    ensures SameInstance(inst, r) && r.lastInstanceStatus == inst.lastInstanceStatus
    ensures r.alive == alive && r.lastTimestamp == Some(timestamp)
    ensures err.Some? ==> r.lastError == err && r.lastErrorTimestamp == Some(timestamp)
    ensures err.None? ==> r.lastError == inst.lastError && r.lastErrorTimestamp == inst.lastErrorTimestamp
  {
    var r := inst.(alive := alive, lastTimestamp := Some(timestamp));
    if err.Some? then r.(lastError := err, lastErrorTimestamp := Some(timestamp)) else r
  }

  /** `runHealthCheck` with the poll's outcome given. */
  function RunHealthCheck(inst: InstanceInfo, timestamp: Time, poll: Poll): (r: InstanceInfo)
    ensures SameInstance(inst, r)
    ensures r.alive <==> Healthy(poll)
    ensures r.lastTimestamp == Some(timestamp)
    ensures r.lastError == if PollError(poll).Some? then PollError(poll) else inst.lastError
    ensures r.lastErrorTimestamp == if PollError(poll).Some? then Some(timestamp) else inst.lastErrorTimestamp
    ensures r.lastInstanceStatus == if Payload(poll).Some? then Payload(poll) else inst.lastInstanceStatus
  {
    match poll
    case RequestFailed(err) => UpdateStatus(inst, false, timestamp, Some(err))
    case TransportFailed(err) => UpdateStatus(inst, false, timestamp, Some(err))
    case Responded(code, body) =>
      if code != StatusOK then UpdateStatus(inst, false, timestamp, None)
      else
        match body
        case DecodeFailed(err) => UpdateStatus(inst, false, timestamp, Some(err))
        case Decoded(payload) =>
          UpdateStatus(inst, payload.status, timestamp, None).(lastInstanceStatus := Some(payload))
  }

  /** `RunHealthCheckInterval`: one poll per tick, in order, until the first cancellation. */
  function RunHealthCheckInterval(inst: InstanceInfo, events: seq<Event>): (r: InstanceInfo)
    ensures SameInstance(inst, r)
    ensures Handled(events) == [] ==> r == inst
    ensures Handled(events) != [] ==> r.lastTimestamp.Some?
    decreases |events|
  {
    if events == [] then inst
    else
      match events[0]
      case Cancel => inst
      case Tick(at, poll) => RunHealthCheckInterval(RunHealthCheck(inst, at, poll), events[1..])
  }

  predicate NoCancel(events: seq<Event>) {
    forall k :: 0 <= k < |events| ==> events[k].Tick?
  }

  /** The events the loop handles: everything before the first cancellation. */
  function Handled(events: seq<Event>): (r: seq<Event>)
    ensures NoCancel(r) && r <= events
    ensures |r| < |events| ==> events[|r|] == Cancel
  {
    if events == [] || events[0] == Cancel then []
    else [events[0]] + Handled(events[1..])
  }

  /** Once cancelled, the loop has returned: nothing after the first `Cancel` matters. */
  lemma {:induction false} CancelStopsLoop(inst: InstanceInfo, before: seq<Event>, after: seq<Event>)
    ensures RunHealthCheckInterval(inst, before + [Cancel] + after) == RunHealthCheckInterval(inst, before)
    decreases |before|
  {
    if before != [] {
      assert (before + [Cancel] + after)[0] == before[0];
      assert (before + [Cancel] + after)[1..] == before[1..] + [Cancel] + after;
      if before[0].Tick? {
        CancelStopsLoop(RunHealthCheck(inst, before[0].at, before[0].poll), before[1..], after);
      }
    }
  }

  /** The loop's result depends only on the events it handles. */
  lemma {:induction false} OnlyHandledEventsMatter(inst: InstanceInfo, events: seq<Event>)
    ensures RunHealthCheckInterval(inst, events) == RunHealthCheckInterval(inst, Handled(events))
    decreases |events|
  {
    if events != [] && events[0] != Cancel {
      var h := Handled(events);
      assert h[0] == events[0] && h[1..] == Handled(events[1..]);
      OnlyHandledEventsMatter(RunHealthCheck(inst, events[0].at, events[0].poll), events[1..]);
    }
  }

  /** A tick handled after a run of ticks applies exactly one more poll to the result. */
  lemma {:induction false} TickAppliesOnePoll(inst: InstanceInfo, events: seq<Event>, at: Time, poll: Poll)
    requires NoCancel(events)
    ensures RunHealthCheckInterval(inst, events + [Tick(at, poll)])
         == RunHealthCheck(RunHealthCheckInterval(inst, events), at, poll)
    decreases |events|
  {
    if events != [] {
      assert (events + [Tick(at, poll)])[1..] == events[1..] + [Tick(at, poll)];
      TickAppliesOnePoll(RunHealthCheck(inst, events[0].at, events[0].poll), events[1..], at, poll);
    }
  }

  /** The most recent error carried by a run of ticks, or `init` when none carried one. */
  function LatestError(ticks: seq<Event>, init: Option<Error>): Option<Error>
    requires NoCancel(ticks)
  {
    if ticks == [] then init
    else
      var p := ticks[|ticks| - 1].poll;
      if PollError(p).Some? then PollError(p) else LatestError(ticks[..|ticks| - 1], init)
  }

  /** The time of the most recent tick that carried an error, or `init` when none carried one. */
  function LatestErrorTime(ticks: seq<Event>, init: Option<Time>): Option<Time>
    requires NoCancel(ticks)
  {
    if ticks == [] then init
    else
      var last := ticks[|ticks| - 1];
      if PollError(last.poll).Some? then Some(last.at) else LatestErrorTime(ticks[..|ticks| - 1], init)
  }

  /** The most recent decoded payload of a run of ticks, or `init` when none decoded. */
  function LatestPayload(ticks: seq<Event>, init: Option<InstanceStatus>): Option<InstanceStatus>
    requires NoCancel(ticks)
  {
    if ticks == [] then init
    else
      var p := ticks[|ticks| - 1].poll;
      if Payload(p).Some? then Payload(p) else LatestPayload(ticks[..|ticks| - 1], init)
  }

  /**
   * The record after a run of ticks: alive exactly when the last poll was
   * healthy, stamped with the last tick's time, and holding the most recent
   * error with the time of its tick and the most recent decoded payload,
   * however old.
   */
  lemma {:induction false} TicksSummary(inst: InstanceInfo, ticks: seq<Event>)
    requires NoCancel(ticks)
    ensures var r := RunHealthCheckInterval(inst, ticks);
      && SameInstance(inst, r)
      && r.alive == (if ticks == [] then inst.alive else Healthy(ticks[|ticks| - 1].poll))
      && r.lastTimestamp == (if ticks == [] then inst.lastTimestamp else Some(ticks[|ticks| - 1].at))
      && r.lastError == LatestError(ticks, inst.lastError)
      && r.lastErrorTimestamp == LatestErrorTime(ticks, inst.lastErrorTimestamp)
      && r.lastInstanceStatus == LatestPayload(ticks, inst.lastInstanceStatus)
    decreases |ticks|
  {
    if ticks != [] {
      var front := ticks[..|ticks| - 1];
      var last := ticks[|ticks| - 1];
      assert ticks == front + [Tick(last.at, last.poll)];
      TickAppliesOnePoll(inst, front, last.at, last.poll);
      TicksSummary(inst, front);
    }
  }

  /**
   * The bookkeeping invariant of a record: an error and its timestamp are
   * set together, and neither the error nor the payload is newer than the
   * last poll.
   */
  predicate Consistent(inst: InstanceInfo) {
    && (inst.lastError.Some? <==> inst.lastErrorTimestamp.Some?)
    && (inst.lastErrorTimestamp.Some? ==>
          inst.lastTimestamp.Some? && inst.lastErrorTimestamp.value <= inst.lastTimestamp.value)
    && (inst.lastInstanceStatus.Some? ==> inst.lastTimestamp.Some?)
  }

  /** Ticks whose timestamps never go back, and none older than `since`. */
  predicate Chronological(ticks: seq<Event>, since: Option<Time>) {
    && NoCancel(ticks)
    && (forall i, j :: 0 <= i < j < |ticks| ==> ticks[i].at <= ticks[j].at)
    && (since.Some? ==> forall k :: 0 <= k < |ticks| ==> since.value <= ticks[k].at)
  }

  /** A single poll keeps the invariant as long as the clock does not go back. */
  lemma PollKeepsConsistent(inst: InstanceInfo, at: Time, poll: Poll)
    requires Consistent(inst)
    requires inst.lastTimestamp.Some? ==> inst.lastTimestamp.value <= at
    ensures Consistent(RunHealthCheck(inst, at, poll))
  {
  }

  /** The loop keeps the invariant over any chronological run of events. */
  lemma {:induction false} LoopKeepsConsistent(inst: InstanceInfo, events: seq<Event>)
    requires Consistent(inst)
    requires Chronological(Handled(events), inst.lastTimestamp)
    ensures Consistent(RunHealthCheckInterval(inst, events))
  {
    OnlyHandledEventsMatter(inst, events);
    TicksKeepConsistent(inst, Handled(events));
  }

  lemma {:induction false} TicksKeepConsistent(inst: InstanceInfo, ticks: seq<Event>)
    requires Consistent(inst)
    requires Chronological(ticks, inst.lastTimestamp)
    ensures Consistent(RunHealthCheckInterval(inst, ticks))
    decreases |ticks|
  {
    if ticks != [] {
      var next := RunHealthCheck(inst, ticks[0].at, ticks[0].poll);
      PollKeepsConsistent(inst, ticks[0].at, ticks[0].poll);
      assert Chronological(ticks[1..], next.lastTimestamp) by {
        forall k | 0 <= k < |ticks[1..]| ensures ticks[0].at <= ticks[1..][k].at {
          assert ticks[1..][k] == ticks[k + 1];
        }
      }
      TicksKeepConsistent(next, ticks[1..]);
    }
  }

  /**
   * Errors are sticky: a failed poll followed by a healthy one leaves the
   * old error and its timestamp in place on a record that is alive again.
   */
  lemma ErrorSurvivesRecovery(inst: InstanceInfo, t1: Time, err: Error, t2: Time, payload: InstanceStatus)
    requires payload.status
    ensures var r := RunHealthCheckInterval(inst, [Tick(t1, TransportFailed(err)), Tick(t2, Responded(StatusOK, Decoded(payload)))]);
      r.alive && r.lastError == Some(err) && r.lastErrorTimestamp == Some(t1) && r.lastTimestamp == Some(t2)
  {
    var events := [Tick(t1, TransportFailed(err)), Tick(t2, Responded(StatusOK, Decoded(payload)))];
    var r1 := RunHealthCheck(inst, t1, TransportFailed(err));
    assert events[1..] == [Tick(t2, Responded(StatusOK, Decoded(payload)))];
    assert RunHealthCheckInterval(inst, events) == RunHealthCheckInterval(r1, events[1..]);
    assert events[1..][1..] == [];
  }

  /** The events of a loop where every handled tick has the same outcome. */
  predicate EveryTickPolls(events: seq<Event>, poll: Poll) {
    forall k :: 0 <= k < |Handled(events)| ==> Handled(events)[k].poll == poll
  }

  /**
   * test/golb/instanceinfo_test.go, healthy endpoint: after at least one tick
   * answering 200 `{"status": true}` the instance is alive and its last
   * payload reports healthy.
   */
  lemma HealthyEndpointScenario(inst: InstanceInfo, events: seq<Event>, payload: InstanceStatus)
    requires payload.status && |Handled(events)| > 0
    requires EveryTickPolls(events, Responded(StatusOK, Decoded(payload)))
    ensures var r := RunHealthCheckInterval(inst, events);
      r.alive && r.lastInstanceStatus.Some? && r.lastInstanceStatus.value.status
  {
    var h := Handled(events);
    OnlyHandledEventsMatter(inst, events);
    TicksSummary(inst, h);
  }

  /**
   * test/golb/instanceinfo_test.go, endpoint always answering 503: the
   * instance is not alive and keeps whatever payload it had (none, in the test).
   */
  lemma DownEndpointScenario(inst: InstanceInfo, events: seq<Event>, body: Body)
    requires |Handled(events)| > 0 || !inst.alive
    requires EveryTickPolls(events, Responded(503, body))
    ensures var r := RunHealthCheckInterval(inst, events);
      !r.alive && r.lastInstanceStatus == inst.lastInstanceStatus && r.lastError == inst.lastError
  {
    var h := Handled(events);
    OnlyHandledEventsMatter(inst, events);
    TicksSummary(inst, h);
    NoPayloadLatest(h, inst.lastInstanceStatus);
    NoErrorLatest(h, inst.lastError);
  }

  /** When no tick decodes a payload, the initial one stays. */
  lemma {:induction false} NoPayloadLatest(ticks: seq<Event>, p: Option<InstanceStatus>)
    requires NoCancel(ticks)
    requires forall k :: 0 <= k < |ticks| ==> Payload(ticks[k].poll).None?
    ensures LatestPayload(ticks, p) == p
    decreases |ticks|
  {
    if ticks != [] {
      NoPayloadLatest(ticks[..|ticks| - 1], p);
    }
  }

  /** When no tick carries an error, the initial one stays. */
  lemma {:induction false} NoErrorLatest(ticks: seq<Event>, e: Option<Error>)
    requires NoCancel(ticks)
    requires forall k :: 0 <= k < |ticks| ==> PollError(ticks[k].poll).None?
    ensures LatestError(ticks, e) == e
    decreases |ticks|
  {
    if ticks != [] {
      NoErrorLatest(ticks[..|ticks| - 1], e);
    }
  }

  /**
   * test/golb/instanceinfo_test.go, endpoint that never answers in time:
   * every handled tick ends in a transport error (the 5 s timeout, or the
   * cancelled context for the poll in flight), so the instance is not alive
   * and the error and its timestamp are recorded.
   */
  lemma TimeoutScenario(inst: InstanceInfo, events: seq<Event>, timeout: Error)
    requires |Handled(events)| > 0
    requires EveryTickPolls(events, TransportFailed(timeout))
    ensures var r := RunHealthCheckInterval(inst, events);
      && !r.alive && r.lastError == Some(timeout)
      && r.lastErrorTimestamp.Some? && r.lastErrorTimestamp == r.lastTimestamp
      && r.lastInstanceStatus == inst.lastInstanceStatus
  {
    var h := Handled(events);
    OnlyHandledEventsMatter(inst, events);
    TicksSummary(inst, h);
    NoPayloadLatest(h, inst.lastInstanceStatus);
  }
}
