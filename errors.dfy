/** The failures of one reconcile pass. Every `log.Fatalf` of main.go becomes a
    `Fatal` value that ends the pass; `LookupError` is what one failed IP-lookup
    attempt leaves in `lastErr`. */
module Errors {

  /** Why one attempt of `fetchRealIp` failed (main.go:59-96). */
  datatype LookupError =
    | Transport(cause: string)                      // client.Do returned an error
    | ReadBody(cause: string)                       // io.ReadAll returned an error
    | UnexpectedStatus(status: int, body: string)   // the status was not 200
    | InvalidIp(ip: string)                         // the trimmed body is not an IP address

  /** The fatal conditions, in the order main.go can reach them. */
  datatype Fatal =
    | EnvFileUnreadable(cause: string)                  // main.go:151-153
    | IpServiceUrlNotSet                                // main.go:43-45
    | IpLookupFailed(attempts: nat, last: LookupError)  // main.go:101
    | MissingCredentials                                // main.go:23-25
    | ClientNotCreated(cause: string)                   // main.go:34-36
    | RecordIdNotSet                                    // main.go:107-109
    | DescribeFailed(attempts: nat, lastCause: string)  // main.go:129
    | UpdateFailed(cause: string)                       // main.go:142-144
}
