/** The DNS record writer, `updateDnsRecord` (main.go:133-145): one update call
    that keeps the fetched record's id, type, host label and TTL and replaces
    only its value. A failed update is fatal at once: writes are not retried. */
module Writer {
  import opened Results
  import opened Errors
  import opened RetryPolicy
  import opened Provider

  /** The update request built from the fetched record and the new IP: read as
      a record, it is the original with only its value replaced. */
  function UpdateRequestFor(original: DnsRecord, ip: string): (req: UpdateRequest)
    ensures DnsRecord(req.recordId, req.rtype, req.rr, req.value, req.ttl) == original.(value := ip)
  {
    UpdateRequest(original.recordId, original.rtype, original.rr, ip, original.ttl)
  }

  /** `updateDnsRecord`: a single update call; its error is fatal. On success
      the result is the provider after the write. */
  function UpdateDnsRecord(p: Provider, original: DnsRecord, ip: string): (run: Run<Provider, Fatal>)
    ensures run.trace == [Call(UpdateRecord, 0)]
    ensures run.result.Err? <==> p.Update(UpdateRequestFor(original, ip)).Err?
    ensures run.result.Err? ==> run.result.error == UpdateFailed(p.Update(UpdateRequestFor(original, ip)).error)
  {
    match p.Update(UpdateRequestFor(original, ip))
    case Ok(updated) => Run(Ok(updated), [Call(UpdateRecord, 0)])
    case Err(e) => Run(Err(UpdateFailed(e)), [Call(UpdateRecord, 0)])
  }

  /** Round trip: after a successful update, describing the record again gives
      the original record with only its value replaced by the new IP, and every
      other record is as it was. */
  lemma UpdatedRecordReadsBack(p: Provider, original: DnsRecord, ip: string, attempt: nat)
    requires UpdateDnsRecord(p, original, ip).result.Ok?
    ensures var q := UpdateDnsRecord(p, original, ip).result.value;
      && q.Describe(original.recordId, attempt)
         == (if p.describeFault(attempt).Some? then Err(p.describeFault(attempt).value)
             else Ok(original.(value := ip)))
      && q.records.Keys == p.records.Keys
      && (forall id :: id in p.records && id != original.recordId ==> q.records[id] == p.records[id])
  {
    var req := UpdateRequestFor(original, ip);
    var q := p.Update(req).value;
    assert q.records[original.recordId] == original.(value := ip);
  }

  /** The update fails exactly when the provider refuses the write or has no
      record with the original's id. That a failed update leaves the provider
      as it was is stated for a whole pass by `WritesIffValueDiffers`. */
  lemma UpdateFailsIff(p: Provider, original: DnsRecord, ip: string)
    ensures UpdateDnsRecord(p, original, ip).result.Err?
            <==> p.updateFault.Some? || original.recordId !in p.records
  {
  }
}
