/** The DNS record reader, `fetchDnsRecord` (main.go:105-131): describe the
    configured record up to three times with the same backoff as the resolver,
    and return the first successful response. */
module Reader {
  import opened Results
  import opened Errors
  import opened RetryPolicy
  import opened Provider

  function DescribeStep(p: Provider, id: string, attempt: nat): Step<DnsRecord, string> {
    match p.Describe(id, attempt)
    case Ok(record) => Succeed(record)
    case Err(e) => Fail(e)
  }

  function DescribeSteps(p: Provider, id: string): nat -> Step<DnsRecord, string> {
    (i: nat) => DescribeStep(p, id, i)
  }

  /** The specification of `fetchDnsRecord`: an empty record id is fatal before
      any call; otherwise the retrying run of describe calls, whose exhaustion
      is fatal with the last call's error. */
  function RecordRun(p: Provider, id: string): (r: Run<DnsRecord, Fatal>)
    ensures id == "" ==> r == Run(Err(RecordIdNotSet), [])
    ensures id != "" ==> r.trace != [] && r.trace[0] == Call(DescribeRecord, 0)
    ensures id != "" && r.result.Err? ==>
              p.Describe(id, MaxRetries - 1).Err?
              && r.result.error == DescribeFailed(MaxRetries, p.Describe(id, MaxRetries - 1).error)
  {
    if id == "" then Run(Err(RecordIdNotSet), [])
    else
      var run := Retry(DescribeRecord, DescribeSteps(p, id));
      match run.result
      case Ok(record) => Run(Ok(record), run.trace)
      case Err(e) => Run(Err(DescribeFailed(MaxRetries, e)), run.trace)
  }

  /** `fetchDnsRecord`. `trace` records each describe call and each pause. */
  method FetchDnsRecord(p: Provider, id: string) returns (r: Result<DnsRecord, Fatal>, ghost trace: seq<Event>)
    ensures id == "" ==> r == Err(RecordIdNotSet) && trace == []
    ensures r == RecordRun(p, id).result
    ensures trace == RecordRun(p, id).trace
  {
    trace := [];
    if id == "" {
      r := Err(RecordIdNotSet);
      return;
    }
    ghost var steps := DescribeSteps(p, id);
    var lastErr: Option<string> := None;
    var i: nat := 0;
    LoopStarts(DescribeRecord, steps);
    while i < MaxRetries
      invariant LoopAt(DescribeRecord, steps, i, trace, lastErr)
    {
      var resp := p.Describe(id, i);
      if resp.Ok? {
        LoopAfterSuccess(DescribeRecord, steps, i, trace, lastErr);
        trace := trace + [Call(DescribeRecord, i)];
        r := Ok(resp.value);
        return;
      }
      LoopAfterFailure(DescribeRecord, steps, i, trace, lastErr);
      trace := trace + [Call(DescribeRecord, i)];
      lastErr := Some(resp.error);
      if i < MaxRetries - 1 {
        trace := trace + [Sleep(i + 1)];
      }
      i := i + 1;
    }
    r := Err(DescribeFailed(MaxRetries, lastErr.value));
  }

  /** A fetched record is the provider's record stored under the configured id. */
  lemma FetchedRecordIsStored(p: Provider, id: string, record: DnsRecord)
    requires RecordRun(p, id).result == Ok(record)
    ensures id != "" && id in p.records && p.records[id] == record
  {
    var steps := DescribeSteps(p, id);
    RetryFromResult(DescribeRecord, steps, 0);
    var k :| 0 <= k < MaxRetries && steps(k) == Succeed(record);
    assert DescribeStep(p, id, k) == Succeed(record);
  }

  /** The reader returns the record at the first describe call that succeeds,
      after `k + 1` calls and the pauses 1, ..., k seconds. */
  lemma ReaderReturnsFirstSuccess(p: Provider, id: string, k: nat)
    requires id != ""
    requires k < MaxRetries && p.Describe(id, k).Ok?
    requires forall j :: 0 <= j < k ==> p.Describe(id, j).Err?
    ensures var run := RecordRun(p, id);
      && run.result == Ok(p.Describe(id, k).value)
      && Calls(run.trace, DescribeRecord) == k + 1
      && Delays(run.trace) == Backoffs(0, k)
  {
    var steps := DescribeSteps(p, id);
    forall j | 0 <= j < k ensures steps(j).Fail? {
      assert p.Describe(id, j).Err?;
    }
    RetryReturnsFirstSuccess(DescribeRecord, steps, k);
  }

  /** When all describe calls fail the reader is fatal with the last call's
      error, after exactly `MaxRetries` calls and the pauses 1 and 2 seconds. */
  lemma ReaderGivesUp(p: Provider, id: string)
    requires id != ""
    requires forall j :: 0 <= j < MaxRetries ==> p.Describe(id, j).Err?
    ensures var run := RecordRun(p, id);
      && run.result == Err(DescribeFailed(MaxRetries, p.Describe(id, MaxRetries - 1).error))
      && Calls(run.trace, DescribeRecord) == MaxRetries
      && Delays(run.trace) == [1, 2]
  {
    var steps := DescribeSteps(p, id);
    forall j | 0 <= j < MaxRetries ensures steps(j).Fail? {
      assert p.Describe(id, j).Err?;
    }
    RetryGivesUpAfterMaxRetries(DescribeRecord, steps);
  }

  /** The reader calls only the describe operation, at most `MaxRetries` times. */
  lemma ReaderTrace(p: Provider, id: string)
    ensures var run := RecordRun(p, id);
      && OnlyCalls(run.trace, DescribeRecord)
      && Calls(run.trace, DescribeRecord) <= MaxRetries
  {
    if id != "" {
      RetryFromTrace(DescribeRecord, DescribeSteps(p, id), 0);
    }
  }

  /** Two providers that hold the same record under `id` and fail the same
      describe attempts give the same reader run. */
  lemma ReaderDependsOnlyOnRecord(p: Provider, q: Provider, id: string)
    requires p.describeFault == q.describeFault
    requires (id in p.records) == (id in q.records)
    requires id in p.records ==> p.records[id] == q.records[id]
    ensures RecordRun(p, id) == RecordRun(q, id)
  {
    if id != "" {
      var s1, s2 := DescribeSteps(p, id), DescribeSteps(q, id);
      forall j | 0 <= j < Calls(Retry(DescribeRecord, s1).trace, DescribeRecord) ensures s1(j) == s2(j) {
        assert p.Describe(id, j) == q.Describe(id, j);
      }
      RetryIgnoresLaterSteps(DescribeRecord, s1, s2);
    }
  }

  /** The reader's outcome does not depend on a stored record's contents:
      against two providers that fail the same describe attempts and both hold
      a record under `id`, it succeeds in both or in neither, and returns the
      record each one holds. */
  lemma ReaderReturnsCurrentRecord(p: Provider, q: Provider, id: string)
    requires p.describeFault == q.describeFault
    requires id in p.records && id in q.records
    ensures RecordRun(q, id).result.Ok? == RecordRun(p, id).result.Ok?
    ensures RecordRun(q, id).result.Ok? ==> RecordRun(q, id).result == Ok(q.records[id])
  {
    if id != "" {
      var sp, sq := DescribeSteps(p, id), DescribeSteps(q, id);
      RetryFromResult(DescribeRecord, sp, 0);
      RetryFromResult(DescribeRecord, sq, 0);
      forall k | 0 <= k < MaxRetries ensures sp(k).Succeed? == sq(k).Succeed? {
        assert sp(k).Succeed? == p.describeFault(k).None?;
      }
      if RecordRun(q, id).result.Ok? {
        FetchedRecordIsStored(q, id, RecordRun(q, id).result.value);
      }
    }
  }
}
