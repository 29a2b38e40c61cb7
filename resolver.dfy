/** The IP resolver, `fetchRealIp` (main.go:41-103): GET the lookup service up
    to three times and return the first response that is a 200 whose trimmed
    body parses as an IP address.

    The network is an oracle `lookup`: `lookup(i)` is what attempt `i`'s request
    comes back with. `net.ParseIP` is the predicate `parseIp`. */
module Resolver {
  import opened Results
  import opened Strings
  import opened Errors
  import opened RetryPolicy

  /** What one GET of the lookup service comes back with. */
  datatype HttpOutcome =
    | TransportError(cause: string)        // client.Do fails
    | ReadError(cause: string)             // reading the body fails
    | Response(status: int, body: string)  // a response with its whole body

  /** `http.StatusOK`. */
  const StatusOK: int := 200

  /** A response the resolver takes as the answer: status 200 and a trimmed
      body that is an IP address. */
  predicate Accepted(o: HttpOutcome, parseIp: string -> bool) {
    o.Response? && o.status == StatusOK && parseIp(TrimSpace(o.body))
  }

  /** One attempt's outcome, classified in the order the loop body tests it:
      transport error, read error, status, IP validity. A 200 whose trimmed
      body is not an IP address is a failed attempt, not a result. */
  function LookupStep(o: HttpOutcome, parseIp: string -> bool): (s: Step<string, LookupError>)
    ensures s.Succeed? <==> Accepted(o, parseIp)
    ensures s.Succeed? ==> s.value == TrimSpace(o.body) && parseIp(s.value)
    ensures o.Response? && o.status == StatusOK && !parseIp(TrimSpace(o.body))
            ==> s == Fail(InvalidIp(TrimSpace(o.body)))
    ensures o.Response? && o.status != StatusOK ==> s == Fail(UnexpectedStatus(o.status, o.body))
    ensures o.TransportError? ==> s == Fail(Transport(o.cause))
    ensures o.ReadError? ==> s == Fail(ReadBody(o.cause))
  {
    match o
    case TransportError(cause) => Fail(Transport(cause))
    case ReadError(cause) => Fail(ReadBody(cause))
    case Response(status, body) =>
      if status != StatusOK then Fail(UnexpectedStatus(status, body))
      else
        var ip := TrimSpace(body);
        if parseIp(ip) then Succeed(ip) else Fail(InvalidIp(ip))
  }

  function LookupSteps(lookup: nat -> HttpOutcome, parseIp: string -> bool): nat -> Step<string, LookupError> {
    (i: nat) => LookupStep(lookup(i), parseIp)
  }

  /** The specification of `fetchRealIp`: an empty service URL is fatal before
      any request; otherwise the retrying run, whose exhaustion is fatal with
      the last attempt's error. */
  function RealIpRun(url: string, lookup: nat -> HttpOutcome, parseIp: string -> bool): (r: Run<string, Fatal>)
    ensures url == "" ==> r == Run(Err(IpServiceUrlNotSet), [])
    ensures url != "" ==> r.trace != [] && r.trace[0] == Call(LookupIp, 0)
    ensures url != "" && r.result.Err? ==>
              LookupStep(lookup(MaxRetries - 1), parseIp).Fail?
              && r.result.error == IpLookupFailed(MaxRetries, LookupStep(lookup(MaxRetries - 1), parseIp).error)
  {
    if url == "" then Run(Err(IpServiceUrlNotSet), [])
    else
      var run := Retry(LookupIp, LookupSteps(lookup, parseIp));
      match run.result
      case Ok(ip) => Run(Ok(ip), run.trace)
      case Err(e) => Run(Err(IpLookupFailed(MaxRetries, e)), run.trace)
  }

  /** `fetchRealIp`. `trace` records each request sent and each pause taken. */
  method FetchRealIp(url: string, lookup: nat -> HttpOutcome, parseIp: string -> bool)
    returns (r: Result<string, Fatal>, ghost trace: seq<Event>)
    ensures url == "" ==> r == Err(IpServiceUrlNotSet) && trace == []
    ensures r == RealIpRun(url, lookup, parseIp).result
    ensures trace == RealIpRun(url, lookup, parseIp).trace
  {
    trace := [];
    if url == "" {
      r := Err(IpServiceUrlNotSet);
      return;
    }
    ghost var steps := LookupSteps(lookup, parseIp);
    var lastErr: Option<LookupError> := None;
    var i: nat := 0;
    LoopStarts(LookupIp, steps);
    while i < MaxRetries
      invariant LoopAt(LookupIp, steps, i, trace, lastErr)
    {
      ghost var before := trace;
      var resp := lookup(i);
      trace := trace + [Call(LookupIp, i)];
      var failure: LookupError;
      if resp.TransportError? {
        failure := Transport(resp.cause);
      } else if resp.ReadError? {
        failure := ReadBody(resp.cause);
      } else if resp.status != StatusOK {
        failure := UnexpectedStatus(resp.status, resp.body);
      } else {
        var ip := TrimSpace(resp.body);
        if parseIp(ip) {
          LoopAfterSuccess(LookupIp, steps, i, before, lastErr);
          r := Ok(ip);
          return;
        }
        failure := InvalidIp(ip);
      }
      assert steps(i) == Fail(failure);
      LoopAfterFailure(LookupIp, steps, i, before, lastErr);
      lastErr := Some(failure);
      if i < MaxRetries - 1 {
        trace := trace + [Sleep(i + 1)];
      }
      i := i + 1;
    }
    r := Err(IpLookupFailed(MaxRetries, lastErr.value));
  }

  /** A resolved IP is the trimmed body of a 200 response to one of the first
      `MaxRetries` requests, and it parses as an IP address. */
  lemma ResolvedIpIsTrimmedValidBody(url: string, lookup: nat -> HttpOutcome, parseIp: string -> bool, ip: string)
    requires RealIpRun(url, lookup, parseIp).result == Ok(ip)
    ensures url != "" && parseIp(ip)
    ensures exists k :: 0 <= k < MaxRetries && lookup(k).Response? && lookup(k).status == StatusOK
                        && ip == TrimSpace(lookup(k).body)
  {
    var steps := LookupSteps(lookup, parseIp);
    RetryFromResult(LookupIp, steps, 0);
    var k :| 0 <= k < MaxRetries && steps(k) == Succeed(ip);
    assert LookupStep(lookup(k), parseIp) == Succeed(ip);
  }

  /** The resolver returns the trimmed body of the first accepted response,
      after `k + 1` requests and the pauses 1, ..., k seconds; later responses
      are never requested. */
  lemma ResolverReturnsFirstAccepted(url: string, lookup: nat -> HttpOutcome, parseIp: string -> bool, k: nat)
    requires url != ""
    requires k < MaxRetries && Accepted(lookup(k), parseIp)
    requires forall j :: 0 <= j < k ==> !Accepted(lookup(j), parseIp)
    ensures var run := RealIpRun(url, lookup, parseIp);
      && run.result == Ok(TrimSpace(lookup(k).body))
      && Calls(run.trace, LookupIp) == k + 1
      && Delays(run.trace) == Backoffs(0, k)
  {
    var steps := LookupSteps(lookup, parseIp);
    forall j | 0 <= j < k ensures steps(j).Fail? {
      assert !Accepted(lookup(j), parseIp);
    }
    RetryReturnsFirstSuccess(LookupIp, steps, k);
  }

  /** When no response is accepted, every kind of failure having counted as one
      attempt, the resolver is fatal with the last attempt's error after
      exactly `MaxRetries` requests, having paused 1 and then 2 seconds. */
  lemma ResolverGivesUp(url: string, lookup: nat -> HttpOutcome, parseIp: string -> bool)
    requires url != ""
    requires forall j :: 0 <= j < MaxRetries ==> !Accepted(lookup(j), parseIp)
    ensures var run := RealIpRun(url, lookup, parseIp);
      && run.result == Err(IpLookupFailed(MaxRetries, LookupStep(lookup(MaxRetries - 1), parseIp).error))
      && Calls(run.trace, LookupIp) == MaxRetries
      && Delays(run.trace) == [1, 2]
  {
    var steps := LookupSteps(lookup, parseIp);
    forall j | 0 <= j < MaxRetries ensures steps(j).Fail? {
      assert !Accepted(lookup(j), parseIp);
    }
    RetryGivesUpAfterMaxRetries(LookupIp, steps);
  }

  /** The resolver calls only the lookup service, at most `MaxRetries` times,
      and never pauses after its final request. */
  lemma ResolverTrace(url: string, lookup: nat -> HttpOutcome, parseIp: string -> bool)
    ensures var run := RealIpRun(url, lookup, parseIp);
      && OnlyCalls(run.trace, LookupIp)
      && Calls(run.trace, LookupIp) <= MaxRetries
      && (run.trace == [] || run.trace[|run.trace| - 1].Call?)
  {
    if url != "" {
      RetryFromTrace(LookupIp, LookupSteps(lookup, parseIp), 0);
    }
  }

  /** Responses to requests the resolver does not send do not matter. */
  lemma ResolverIgnoresLaterResponses(url: string, l1: nat -> HttpOutcome, l2: nat -> HttpOutcome, parseIp: string -> bool)
    requires forall j :: 0 <= j < Calls(RealIpRun(url, l1, parseIp).trace, LookupIp) ==> l1(j) == l2(j)
    ensures RealIpRun(url, l1, parseIp) == RealIpRun(url, l2, parseIp)
  {
    if url != "" {
      var s1, s2 := LookupSteps(l1, parseIp), LookupSteps(l2, parseIp);
      forall j | 0 <= j < Calls(Retry(LookupIp, s1).trace, LookupIp) ensures s1(j) == s2(j) {
        assert l1(j) == l2(j);
      }
      RetryIgnoresLaterSteps(LookupIp, s1, s2);
    }
  }
}
