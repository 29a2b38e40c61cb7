/** The retry-with-linear-backoff discipline that `fetchRealIp` and
    `fetchDnsRecord` both follow (main.go:48-127): at most `MaxRetries`
    attempts, return on the first success, remember the last error, and pause
    `i + 1` seconds after failed attempt `i` unless it was the last one.

    The effects of a run are recorded as a trace of calls to external services
    and of requested pauses; the pure function `Retry` is the specification
    both imperative loops are proved against. */
module RetryPolicy {
  import opened Results

  /** `maxRetries` in both loops: the number of attempts, not of re-tries. */
  const MaxRetries: nat := 3

  /** The external operations the program calls. */
  datatype Op = LookupIp | DescribeRecord | UpdateRecord

  /** One observable effect: a call to an external service (with the index of
      the attempt it belongs to) or a `time.Sleep` of the given seconds. */
  datatype Event = Call(op: Op, attempt: nat) | Sleep(seconds: nat)

  /** What one attempt yielded, once classified by the caller. */
  datatype Step<+T, +E> = Succeed(value: T) | Fail(error: E)

  /** The outcome of a run and the effects it had, in order. */
  datatype Run<+T, +E> = Run(result: Result<T, E>, trace: seq<Event>)

  /** The loop from attempt `i` on, where `steps(i)` is what attempt `i` yields.
      It starts with attempt `i`'s call, and a run that gives up reports the
      error of the last attempt. */
  function RetryFrom<T, E>(op: Op, steps: nat -> Step<T, E>, i: nat): (r: Run<T, E>)
    requires i < MaxRetries
    ensures r.trace != [] && r.trace[0] == Call(op, i)
    ensures r.result.Err? ==> steps(MaxRetries - 1).Fail? && r.result.error == steps(MaxRetries - 1).error
    decreases MaxRetries - i
  {
    match steps(i)
    case Succeed(v) => Run(Ok(v), [Call(op, i)])
    case Fail(e) =>
      if i == MaxRetries - 1 then Run(Err(e), [Call(op, i)])
      else
        var rest := RetryFrom(op, steps, i + 1);
        Run(rest.result, [Call(op, i), Sleep(i + 1)] + rest.trace)
  }

  /** A whole retrying run. */
  function Retry<T, E>(op: Op, steps: nat -> Step<T, E>): Run<T, E> {
    RetryFrom(op, steps, 0)
  }

  /** The trace of attempts `i` to `k - 1`, each failing and followed by its pause. */
  function FailedAttempts(op: Op, i: nat, k: nat): seq<Event>
    decreases k - i
  {
    if k <= i then [] else [Call(op, i), Sleep(i + 1)] + FailedAttempts(op, i + 1, k)
  }

  /** The pauses `i + 1, ..., k` in seconds. */
  function Backoffs(i: nat, k: nat): seq<nat>
    decreases k - i
  {
    if k <= i then [] else [i + 1] + Backoffs(i + 1, k)
  }

  /** How many calls to `op` a trace holds. */
  function Calls(trace: seq<Event>, op: Op): nat {
    if trace == [] then 0
    else (if trace[0].Call? && trace[0].op == op then 1 else 0) + Calls(trace[1..], op)
  }

  /** The pauses a trace requests, in order. */
  function Delays(trace: seq<Event>): seq<nat> {
    if trace == [] then []
    else (if trace[0].Sleep? then [trace[0].seconds] else []) + Delays(trace[1..])
  }

  /** Every call in the trace is a call to `op`. */
  predicate OnlyCalls(trace: seq<Event>, op: Op) {
    forall j :: 0 <= j < |trace| && trace[j].Call? ==> trace[j].op == op
  }

  lemma {:induction false} CallsConcat(a: seq<Event>, b: seq<Event>, op: Op)
    ensures Calls(a + b, op) == Calls(a, op) + Calls(b, op)
  {
    if a != [] {
      assert (a + b)[1..] == a[1..] + b;
      CallsConcat(a[1..], b, op);
    } else {
      assert a + b == b;
    }
  }

  lemma {:induction false} DelaysConcat(a: seq<Event>, b: seq<Event>)
    ensures Delays(a + b) == Delays(a) + Delays(b)
  {
    if a != [] {
      assert (a + b)[1..] == a[1..] + b;
      DelaysConcat(a[1..], b);
    } else {
      assert a + b == b;
    }
  }

  /** A trace that calls only `op` makes no call to any other operation. */
  lemma {:induction false} NoCallsToOthers(trace: seq<Event>, op: Op, other: Op)
    requires OnlyCalls(trace, op) && other != op
    ensures Calls(trace, other) == 0
  {
    if trace != [] {
      assert OnlyCalls(trace[1..], op) by {
        forall j | 0 <= j < |trace[1..]| && trace[1..][j].Call? ensures trace[1..][j].op == op {
          assert trace[1..][j] == trace[j + 1];
        }
      }
      NoCallsToOthers(trace[1..], op, other);
    }
  }

  /** `k - i` failed attempts make `k - i` calls, only to `op`, and pause
      `i + 1, ..., k` seconds. */
  lemma {:induction false} FailedAttemptsEffects(op: Op, i: nat, k: nat)
    requires i <= k
    ensures Calls(FailedAttempts(op, i, k), op) == k - i
    ensures Delays(FailedAttempts(op, i, k)) == Backoffs(i, k)
    ensures OnlyCalls(FailedAttempts(op, i, k), op)
    decreases k - i
  {
    if i < k {
      var head: seq<Event> := [Call(op, i), Sleep(i + 1)];
      var tail := FailedAttempts(op, i + 1, k);
      FailedAttemptsEffects(op, i + 1, k);
      CallsConcat(head, tail, op);
      DelaysConcat(head, tail);
      assert head[1..] == [Sleep(i + 1)];
      assert Delays(head) == [i + 1];
      assert FailedAttempts(op, i, k) == head + tail;
      forall j | 0 <= j < |head + tail| && (head + tail)[j].Call?
        ensures (head + tail)[j].op == op
      {
        if j >= 2 { assert (head + tail)[j] == tail[j - 2]; }
      }
    }
  }

  /** When attempt `k` is the first to succeed, the run returns its value after
      exactly the failed attempts before it. */
  lemma {:induction false} RetryFromFirstSuccess<T, E>(op: Op, steps: nat -> Step<T, E>, i: nat, k: nat)
    requires i <= k < MaxRetries
    requires steps(k).Succeed?
    requires forall j :: i <= j < k ==> steps(j).Fail?
    ensures RetryFrom(op, steps, i) == Run(Ok(steps(k).value), FailedAttempts(op, i, k) + [Call(op, k)])
    decreases k - i
  {
    if i < k {
      RetryFromFirstSuccess(op, steps, i + 1, k);
    }
  }

  /** When every attempt from `i` on fails, the run reports the last attempt's
      error after the last attempt, with no pause after it. */
  lemma {:induction false} RetryFromExhausted<T, E>(op: Op, steps: nat -> Step<T, E>, i: nat)
    requires i < MaxRetries
    requires forall j :: i <= j < MaxRetries ==> steps(j).Fail?
    ensures RetryFrom(op, steps, i)
         == Run(Err(steps(MaxRetries - 1).error), FailedAttempts(op, i, MaxRetries - 1) + [Call(op, MaxRetries - 1)])
    decreases MaxRetries - i
  {
    if i < MaxRetries - 1 {
      RetryFromExhausted(op, steps, i + 1);
    }
  }

  /** The run stops at the first successful attempt `k`: it returns that
      attempt's value after `k + 1` calls and the pauses 1, ..., k seconds, and
      its last effect is the successful call. */
  lemma RetryReturnsFirstSuccess<T, E>(op: Op, steps: nat -> Step<T, E>, k: nat)
    requires k < MaxRetries
    requires steps(k).Succeed?
    requires forall j :: 0 <= j < k ==> steps(j).Fail?
    ensures var run := Retry(op, steps);
      && run.result == Ok(steps(k).value)
      && Calls(run.trace, op) == k + 1
      && Delays(run.trace) == Backoffs(0, k)
      && OnlyCalls(run.trace, op)
      && run.trace[|run.trace| - 1] == Call(op, k)
  {
    RetryFromFirstSuccess(op, steps, 0, k);
    FailedAttemptsEffects(op, 0, k);
    var fa := FailedAttempts(op, 0, k);
    CallsConcat(fa, [Call(op, k)], op);
    DelaysConcat(fa, [Call(op, k)]);
    assert Delays([Call(op, k)]) == [];
  }

  /** When all `MaxRetries` attempts fail, the run reports the error of the
      last attempt after exactly `MaxRetries` calls, and pauses 1 and then 2
      seconds: never after the final attempt. */
  lemma RetryGivesUpAfterMaxRetries<T, E>(op: Op, steps: nat -> Step<T, E>)
    requires forall j :: 0 <= j < MaxRetries ==> steps(j).Fail?
    ensures var run := Retry(op, steps);
      && run.result == Err(steps(MaxRetries - 1).error)
      && Calls(run.trace, op) == MaxRetries
      && Delays(run.trace) == [1, 2]
      && OnlyCalls(run.trace, op)
      && run.trace[|run.trace| - 1] == Call(op, MaxRetries - 1)
  {
    RetryFromExhausted(op, steps, 0);
    FailedAttemptsEffects(op, 0, MaxRetries - 1);
    var fa := FailedAttempts(op, 0, MaxRetries - 1);
    CallsConcat(fa, [Call(op, MaxRetries - 1)], op);
    DelaysConcat(fa, [Call(op, MaxRetries - 1)]);
    assert Delays([Call(op, MaxRetries - 1)]) == [];
    assert Backoffs(2, 2) == [];
    assert Backoffs(1, 2) == [2];
  }

  /** Prepending a failed attempt and its pause to a trace adds one call and
      keeps the trace's last effect. */
  lemma PrependFailedAttempt(op: Op, i: nat, rest: seq<Event>)
    ensures var t := [Call(op, i), Sleep(i + 1)] + rest;
      && Calls(t, op) == 1 + Calls(rest, op)
      && (OnlyCalls(rest, op) ==> OnlyCalls(t, op))
      && (rest != [] ==> t[|t| - 1] == rest[|rest| - 1])
  {
    var head: seq<Event> := [Call(op, i), Sleep(i + 1)];
    var t := head + rest;
    CallsConcat(head, rest, op);
    assert head[1..] == [Sleep(i + 1)];
    if OnlyCalls(rest, op) {
      forall j | 0 <= j < |t| && t[j].Call? ensures t[j].op == op {
        if j >= 2 { assert t[j] == rest[j - 2]; }
      }
    }
  }

  /** Whatever the attempts yield, the run calls only `op`, between 1 and
      `MaxRetries - i` times, and its last effect is a call: it never pauses
      after its final attempt. */
  lemma {:induction false} RetryFromTrace<T, E>(op: Op, steps: nat -> Step<T, E>, i: nat)
    requires i < MaxRetries
    ensures var run := RetryFrom(op, steps, i);
      && OnlyCalls(run.trace, op)
      && 1 <= Calls(run.trace, op) <= MaxRetries - i
      && run.trace != [] && run.trace[|run.trace| - 1].Call?
    decreases MaxRetries - i
  {
    if steps(i).Fail? && i < MaxRetries - 1 {
      RetryFromTrace(op, steps, i + 1);
      PrependFailedAttempt(op, i, RetryFrom(op, steps, i + 1).trace);
    } else {
      var t: seq<Event> := [Call(op, i)];
      assert RetryFrom(op, steps, i).trace == t;
      assert t[1..] == [];
      assert Calls(t, op) == 1;
    }
  }

  /** Whatever the attempts yield, the run succeeds exactly when one of the
      attempts it may make succeeds, and then with the value of such an
      attempt. */
  lemma {:induction false} RetryFromResult<T, E>(op: Op, steps: nat -> Step<T, E>, i: nat)
    requires i < MaxRetries
    ensures var run := RetryFrom(op, steps, i);
      && (run.result.Ok? <==> exists k :: i <= k < MaxRetries && steps(k).Succeed?)
      && (run.result.Ok? ==> exists k :: i <= k < MaxRetries && steps(k) == Succeed(run.result.value))
    decreases MaxRetries - i
  {
    if steps(i).Fail? {
      if i == MaxRetries - 1 {
        forall k | i <= k < MaxRetries ensures steps(k).Fail? {
          assert k == i;
        }
      } else {
        RetryFromResult(op, steps, i + 1);
      }
    }
  }

  /** Outcomes of attempts the run does not make are never consumed: two
      oracles that agree on the attempts made give the same run. */
  lemma {:induction false} RetryFromIgnoresLaterSteps<T, E>(op: Op, s1: nat -> Step<T, E>, s2: nat -> Step<T, E>, i: nat)
    requires i < MaxRetries
    requires forall j :: i <= j < i + Calls(RetryFrom(op, s1, i).trace, op) ==> s1(j) == s2(j)
    ensures RetryFrom(op, s1, i) == RetryFrom(op, s2, i)
    decreases MaxRetries - i
  {
    var run := RetryFrom(op, s1, i);
    RetryFromTrace(op, s1, i);
    assert s1(i) == s2(i);
    if s1(i).Fail? && i < MaxRetries - 1 {
      PrependFailedAttempt(op, i, RetryFrom(op, s1, i + 1).trace);
      RetryFromIgnoresLaterSteps(op, s1, s2, i + 1);
    }
  }

  /** Whole-run form of RetryFromIgnoresLaterSteps. */
  lemma RetryIgnoresLaterSteps<T, E>(op: Op, s1: nat -> Step<T, E>, s2: nat -> Step<T, E>)
    requires forall j :: 0 <= j < Calls(Retry(op, s1).trace, op) ==> s1(j) == s2(j)
    ensures Retry(op, s1) == Retry(op, s2)
  {
    RetryFromIgnoresLaterSteps(op, s1, s2, 0);
  }

  /** The loop invariant of both retrying loops: before attempt `i`, with
      `trace` the effects so far and `lastErr` the last attempt's error, the
      rest of the run is the specification's run from attempt `i` on. */
  ghost predicate LoopAt<T, E>(op: Op, steps: nat -> Step<T, E>, i: nat, trace: seq<Event>, lastErr: Option<E>) {
    && i <= MaxRetries
    && (i < MaxRetries ==>
          && Retry(op, steps).result == RetryFrom(op, steps, i).result
          && Retry(op, steps).trace == trace + RetryFrom(op, steps, i).trace)
    && (i == MaxRetries ==> lastErr.Some? && Retry(op, steps) == Run(Err(lastErr.value), trace))
  }

  lemma LoopStarts<T, E>(op: Op, steps: nat -> Step<T, E>)
    ensures LoopAt(op, steps, 0, [], None)
  {
    assert [] + RetryFrom(op, steps, 0).trace == RetryFrom(op, steps, 0).trace;
  }

  /** A failed attempt `i` records its call, pauses `i + 1` seconds unless it
      was the last attempt, and remembers its error. */
  lemma LoopAfterFailure<T, E>(op: Op, steps: nat -> Step<T, E>, i: nat, trace: seq<Event>, lastErr: Option<E>)
    requires LoopAt(op, steps, i, trace, lastErr)
    requires i < MaxRetries && steps(i).Fail?
    ensures LoopAt(op, steps, i + 1,
                   trace + [Call(op, i)] + (if i < MaxRetries - 1 then [Sleep(i + 1)] else []),
                   Some(steps(i).error))
  {
    if i < MaxRetries - 1 {
      var rest := RetryFrom(op, steps, i + 1);
      assert trace + ([Call(op, i), Sleep(i + 1)] + rest.trace)
          == trace + [Call(op, i)] + [Sleep(i + 1)] + rest.trace;
    }
  }

  /** A successful attempt `i` ends the run with its value. */
  lemma LoopAfterSuccess<T, E>(op: Op, steps: nat -> Step<T, E>, i: nat, trace: seq<Event>, lastErr: Option<E>)
    requires LoopAt(op, steps, i, trace, lastErr)
    requires i < MaxRetries && steps(i).Succeed?
    ensures Retry(op, steps) == Run(Ok(steps(i).value), trace + [Call(op, i)])
  {
  }
}
