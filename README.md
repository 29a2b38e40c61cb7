# ddns-ali in Dafny

A model of the dynamic-DNS updater `main.go`: one pass of the program loads
its settings, asks an external lookup service for the host's public IP
address, builds an Alibaba Cloud DNS client, fetches one DNS record, and
rewrites the record's value only when it differs from the public IP. The two
network reads make up to three attempts (two retries), pausing 1 and then 2
seconds between them.
The write is a single call. Every error the program cannot recover from ends
the process through `log.Fatalf`.

The model is split into modules as follows:

- `RetryPolicy` (`retry.dfy`) holds the retry loop both readers share, as a
  pure specification `Retry`. A run is described by its result and by a trace
  of external calls and pauses. It also holds the loop invariant `LoopAt` that
  both imperative loops keep.
- `Resolver` (`resolver.dfy`) models `fetchRealIp`. The method `FetchRealIp` is
  the loop itself. The network is an oracle `lookup`: `lookup(i)` is what the
  request of attempt `i` comes back with. `net.ParseIP` is the predicate
  parameter `parseIp`.
- `Strings` (`strings.dfy`) models Go's `strings.TrimSpace`, using the exact
  white-space set of `unicode.IsSpace`. Like Go, it finds a start index and
  then a stop index.
- `Client` (`client.dfy`) models the settings and `createDnsClient`.
- `Provider` (`provider.dfy`) is a stub of the DNS service. It holds records by
  id, and its describe and update failures are scripted.
- `Reader` (`reader.dfy`) models `fetchDnsRecord`. The method
  `FetchDnsRecord` is its loop.
- `Writer` (`writer.dfy`) models `updateDnsRecord`.
- `Reconciler` (`reconciler.dfy`) models `main`. The method `Reconcile` is
  proved equal to the pure pass `ReconcileSpec`, and the properties of a pass
  are lemmas about `ReconcileSpec`. The two follow the same steps on purpose.
  The method composes the two loop methods, and the function is what lemmas,
  which cannot call methods, reason about.
- `Scenarios` (`scenarios.dfy`) gives the typical runs as lemmas over every
  world that matches them.
- `Errors` and `Results` hold the fatal errors and the usual `Option`/`Result`.

A fatal log call is `Err(...)` with one `Fatal` constructor per modelled
`log.Fatalf` site (the one at main.go:54 is left out, see below). The process exit status is 1 on `Err` and 0 otherwise.

## Model

| member | source | states |
|---|---|---|
| RetryPolicy.RetryFrom | main.go:51-101 | the retrying loop from attempt i: it starts with attempt i's call, and a run that gives up reports the last attempt's error |
| RetryPolicy.RetryReturnsFirstSuccess | main.go:51-99 | when attempt k is the first to succeed, the run returns that attempt's value after exactly k+1 calls, only to that service, with the pauses 1..k seconds, and ends with that call |
| RetryPolicy.RetryGivesUpAfterMaxRetries | main.go:117-129 | when all attempts fail, the run reports the error of the third (last) attempt after exactly 3 calls and pauses of 1 then 2 seconds, never pausing after the last call |
| RetryPolicy.RetryFromTrace | main.go:115-127 | whatever the attempts yield, a run makes between 1 and 3 calls, all to its own service, and its last effect is a call, not a pause |
| RetryPolicy.RetryFromResult | main.go:117-129 | a run succeeds if and only if one of its attempts succeeds, and a successful result is the value of one of those attempts |
| RetryPolicy.RetryIgnoresLaterSteps | main.go:51-98 | the run stops at the first success: outcomes of attempts it does not make have no effect on the run |
| RetryPolicy.RetryFromFirstSuccess | main.go:117-121 | from attempt i, the first success at attempt k gives that attempt's value after the failed attempts i..k-1, each followed by its pause |
| RetryPolicy.RetryFromExhausted | main.go:122-129 | from attempt i, if all attempts fail the run ends with the last attempt's error and no pause after it |
| RetryPolicy.LoopAfterFailure | main.go:122-126 | a failed attempt i records its call, pauses i+1 seconds only when i < 2, and becomes the remembered last error, keeping the loop on the specification |
| RetryPolicy.LoopAfterSuccess | main.go:118-121 | a successful attempt ends the run with its value, the trace ending at that call |
| Resolver.RealIpRun | main.go:41-103 | the resolver's specification: an empty service URL is fatal with no request; otherwise the first request is attempt 0, and giving up is fatal with 3 attempts and the third attempt's error |
| Resolver.FetchRealIp | main.go:41-103 | the loop: an empty service URL is fatal before any request; otherwise the result and the trace of requests and pauses equal the retrying specification `RealIpRun` |
| Resolver.LookupStep | main.go:58-98 | one attempt succeeds if and only if it gets a 200 response whose trimmed body parses as an IP, and then yields that trimmed body; a non-200 fails with the status and body, and an unparsable trimmed body fails with that body |
| Resolver.ResolvedIpIsTrimmedValidBody | main.go:88-98 | a resolved IP parses as an IP and is the trimmed body of a 200 response to one of the first 3 requests, and the service URL was set |
| Resolver.ResolverReturnsFirstAccepted | main.go:51-98 | the resolver returns the trimmed body of the first accepted response k, after k+1 requests and pauses 1..k seconds |
| Resolver.ResolverGivesUp | main.go:51-101 | when no response is accepted, whatever kind of failure each was, the resolver is fatal with the third attempt's error after exactly 3 requests and pauses [1, 2] |
| Resolver.ResolverTrace | main.go:51-99 | the resolver only sends lookup requests, at most 3, and never pauses after its last one |
| Resolver.ResolverIgnoresLaterResponses | main.go:51-98 | answers to requests the resolver never sends do not change its run |
| Strings.TrimStart | main.go:88 | the first index at or after i that does not hold white space, with only white space before it |
| Strings.TrimStop | main.go:88 | the end of the text once its trailing white space is cut, with only white space after it and a non-space just before it |
| Strings.TrimSpace | main.go:88 | the trimmed body is no longer than the body, neither starts nor ends with white space, and is empty exactly when the body is all white space |
| Strings.TrimSpaceIsCore | main.go:88 | the trimmed body is the part of the body between a leading and a trailing run of white space, and it neither starts nor ends with white space |
| Strings.TrimSpaceOfPadded | main.go:88 | a text that neither starts nor ends with white space, padded with white space on both sides, trims back to itself |
| Strings.TrimSpaceIdempotent | main.go:88 | trimming the trimmed body changes nothing |
| Client.CreateDnsClient | main.go:18-39 | a client is built if and only if all three credentials are non-empty and the SDK succeeds; a missing credential is fatal whatever the SDK would do; an SDK error is fatal with its cause; the client gets exactly the three settings |
| Provider.Provider.Describe | main.go:118 | the provider stub's describe answers with the record stored under the id unless the call fails or there is no such record; a well-formed provider answers with a record carrying that id; a scripted failure is returned as the error |
| Provider.Provider.Update | main.go:141 | the provider stub's update succeeds if and only if it is not failing and the id exists; it then stores exactly the request's fields under the id and changes nothing else |
| Reader.RecordRun | main.go:105-131 | the reader's specification: an empty record id is fatal with no call; otherwise the first call is attempt 0, and giving up is fatal with 3 attempts and the third call's error |
| Reader.FetchDnsRecord | main.go:105-131 | the loop: an empty record id is fatal before any call; otherwise the result and the trace of describe calls and pauses equal the retrying specification `RecordRun` |
| Reader.FetchedRecordIsStored | main.go:111-121 | a fetched record is the one the provider stores under the configured id |
| Reader.ReaderReturnsFirstSuccess | main.go:117-121 | the reader returns the record from the first successful describe call k, after k+1 calls and pauses 1..k seconds |
| Reader.ReaderGivesUp | main.go:115-129 | when every describe call fails, the reader is fatal with the third call's error after exactly 3 calls and pauses [1, 2] |
| Reader.ReaderTrace | main.go:115-127 | the reader only calls describe, at most 3 times |
| Reader.ReaderDependsOnlyOnRecord | main.go:111-121 | two providers that hold the same record under the id and fail the same attempts give the same reader run |
| Reader.ReaderReturnsCurrentRecord | main.go:117-121 | against two providers failing the same attempts and both holding the id, the reader succeeds in both or neither, and returns each one's current record |
| Writer.UpdateRequestFor | main.go:134-140 | the update request, read as a record, is the fetched record with only its value replaced by the IP |
| Writer.UpdateDnsRecord | main.go:133-145 | one update call, never retried; it fails if and only if the provider's update fails, and the error is fatal with the provider's cause |
| Writer.UpdatedRecordReadsBack | main.go:134-141 | after a successful update, describing the record gives the original record with only its value replaced by the IP (id, type, host label and TTL kept); other records and the set of ids are unchanged |
| Writer.UpdateFailsIff | main.go:141-144 | the update fails exactly when the provider refuses writes or has no record with the original's id |
| Reconciler.ReconcileSpec | main.go:147-170 | the specification of a pass: an unreadable environment file is fatal before any external call; a failed pass leaves the provider as it was; a completed pass reports the IP the resolver returned |
| Reconciler.Reconcile | main.go:147-170 | the pass, step by step: the exit, the provider afterwards and the trace of calls and pauses equal the pure pass `ReconcileSpec` |
| Reconciler.CallsInPhaseOrder | main.go:155-167 | in every pass, all lookup requests come before all describe calls, which come before any update call |
| Reconciler.PassTraceSplits | main.go:155-167 | the effects of a pass are the resolver's, then the reader's, then the writer's |
| Reconciler.ResolverFailureSkipsProvider | main.go:155-158 | if the resolver fails, the pass is fatal with its error, the provider is unchanged, and no describe or update call is made |
| Reconciler.CredentialsCheckedAfterLookup | main.go:155-158 | missing credentials are noticed only after the IP is resolved: the pass is fatal after at least one lookup request and before any describe call |
| Reconciler.RecordIdCheckedAfterClient | main.go:106-109 | an empty record id is noticed only after the IP is resolved and the client is built: fatal, after at least one lookup request and with no describe call |
| Reconciler.ReaderFailureSkipsWrite | main.go:160-167 | if the reader fails, the pass is fatal with its error, the provider is unchanged and no update call is made |
| Reconciler.WritesIffValueDiffers | main.go:163-169 | with the IP resolved and the record fetched, the pass makes one update call if the two strings differ and none if they are equal; when equal it exits with "unchanged" and the provider is untouched; when they differ it succeeds exactly when the update does, storing the IP in the record and keeping its other fields, or else it is fatal with the update's error and nothing is written |
| Reconciler.SecondPassIsNoOp | main.go:163-169 | after a successful pass, a second pass in the same world finds the record up to date, writes nothing and leaves the provider as the first pass left it |
| Scenarios.FirstAnswerResolves | main.go:79-98 | a first response of 200 with a valid address and no white space around it resolves to that address |
| Scenarios.ScenarioUnchanged | main.go:163-164 | when the record already holds the resolved address, the pass exits 0 with no write and the provider unchanged |
| Scenarios.ScenarioUpdated | main.go:165-168 | when the record holds another address, the pass exits 0 after exactly one write, and the provider then holds the same record with the new address |
| Scenarios.ScenarioLookupDown | main.go:79-101 | three 500 responses, whatever their bodies, make the pass fatal with exit 1 and the third response's status and body, after exactly 3 lookups and no provider call |
| Scenarios.ScenarioProviderDown | main.go:117-129 | when every describe call fails, the pass is fatal with exit 1 and the last describe error, and writes nothing |
| Scenarios.ScenarioPaddedBody | main.go:88-98 | a 200 whose body is a valid address padded with white space resolves to the bare address |

## Left out

- The failure of `http.NewRequest` (main.go:52-55) is not modelled. It only fails on a malformed URL or method, so the model treats every non-empty URL as a valid request target.
- The HTTP transport, the `User-Agent: curl` header and closing the body are left out. Each request's outcome is the `lookup` oracle.
- The response body is a string of characters. Invalid UTF-8 bytes in the body are not modelled.
- `net.ParseIP` is the predicate parameter `parseIp`. IP address syntax is not modelled.
- The Alibaba Cloud SDK and its network calls are replaced by the `Provider` stub. Its describe failures are scripted per attempt and its update failure per pass.
- Nil pointers in the SDK's describe response are not modelled. A nil response body or a nil `Value` makes `main` panic at main.go:161. A nil `RecordId`, `Type`, `RR` or `TTL` is passed unchecked into the update request at main.go:134-140.
- `godotenv.Load` and `os.Getenv` are inputs. The load error is `World.dotenvError` and the variables are the fields of `Config`.
- Logging is left out, apart from `log.Fatalf`, which is an `Err` result with exit status 1. The `log.Printf` and `log.Println` messages and the log prefix are left out.
- `time.Sleep` is a `Sleep(seconds)` event in the ghost trace. Nothing waits.
- The settings are one `Config` value for the whole pass. The source reads each variable at the point of use, which gives the same values because nothing changes the environment during a pass.
