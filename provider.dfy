/** A stub of the DNS provider the SDK client talks to, narrowed to the two
    operations the program uses: describe a record and update a record. */
module Provider {
  import opened Results

  /** A DNS record as the describe operation returns it. */
  datatype DnsRecord = DnsRecord(recordId: string, rtype: string, rr: string, value: string, ttl: int)

  /** The fields of an update request. */
  datatype UpdateRequest = UpdateRequest(recordId: string, rtype: string, rr: string, value: string, ttl: int)

  const RecordNotFound: string := "record not found"

  /** The provider's records by id, and the failures it is scripted to give:
      `describeFault(i)` is the error of the describe call made as attempt `i`
      of a pass, `updateFault` that of an update call. */
  datatype Provider = Provider(
    records: map<string, DnsRecord>,
    describeFault: nat -> Option<string>,
    updateFault: Option<string>)
  {
    /** Every record is stored under its own id, as a real provider keeps them. */
    predicate WellFormed() {
      forall id :: id in records ==> records[id].recordId == id
    }

    /** The describe call made as attempt `attempt`: it answers with the record
        stored under `id` unless the call is scripted to fail or there is no
        such record. */
    function Describe(id: string, attempt: nat): (r: Result<DnsRecord, string>)
      ensures r.Ok? <==> describeFault(attempt).None? && id in records
      ensures r.Ok? ==> r.value == records[id]
      ensures r.Ok? && WellFormed() ==> r.value.recordId == id
      ensures describeFault(attempt).Some? ==> r == Err(describeFault(attempt).value)
    {
      match describeFault(attempt)
      case Some(e) => Err(e)
      case None => if id in records then Ok(records[id]) else Err(RecordNotFound)
    }

    /** The update call: on success the provider stores exactly the request's
        fields under the request's id, and nothing else changes. */
    function Update(req: UpdateRequest): (r: Result<Provider, string>)
      ensures r.Ok? <==> updateFault.None? && req.recordId in records
      ensures r.Ok? ==> r.value.records.Keys == records.Keys
      ensures r.Ok? ==> r.value.records[req.recordId]
                        == DnsRecord(req.recordId, req.rtype, req.rr, req.value, req.ttl)
      ensures r.Ok? ==> forall id :: id in records && id != req.recordId ==> r.value.records[id] == records[id]
      ensures r.Ok? ==> r.value.describeFault == describeFault && r.value.updateFault == updateFault
      ensures r.Ok? && WellFormed() ==> r.value.WellFormed()
    {
      match updateFault
      case Some(e) => Err(e)
      case None =>
        if req.recordId !in records then Err(RecordNotFound)
        else
          var stored := DnsRecord(req.recordId, req.rtype, req.rr, req.value, req.ttl);
          Ok(this.(records := records[req.recordId := stored]))
    }
  }
}
