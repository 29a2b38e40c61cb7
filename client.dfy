/** The settings the program reads from its environment and the construction
    of the DNS provider client (`createDnsClient`, main.go:18-39). */
module Client {
  import opened Results
  import opened Errors

  /** The five settings, as the strings `os.Getenv` returns (empty when unset). */
  datatype Config = Config(
    accessKeyId: string,      // BAO_ACCESS_KEY_ID
    accessKeySecret: string,  // BAO_ACCESS_KEY_SECRET
    endpoint: string,         // BAO_ENDPOINT
    ipServiceUrl: string,     // BAO_IP_SERVICE_URL
    recordId: string)         // BAO_RECORD_ID

  /** The SDK configuration a client is built from. */
  datatype ClientConfig = ClientConfig(accessKeyId: string, accessKeySecret: string, endpoint: string)

  predicate HasCredentials(cfg: Config) {
    cfg.accessKeyId != "" && cfg.accessKeySecret != "" && cfg.endpoint != ""
  }

  /** `createDnsClient`: all three provider settings must be non-empty, and
      then the SDK's `NewClient` (whose error, if any, is `newClientError`) must
      succeed. A missing setting is reported whatever `NewClient` would do. */
  function CreateDnsClient(cfg: Config, newClientError: Option<string>): (r: Result<ClientConfig, Fatal>)
    ensures r.Ok? <==> HasCredentials(cfg) && newClientError.None?
    ensures !HasCredentials(cfg) ==> r == Err(MissingCredentials)
    ensures HasCredentials(cfg) && newClientError.Some? ==> r == Err(ClientNotCreated(newClientError.value))
    ensures r.Ok? ==> r.value == ClientConfig(cfg.accessKeyId, cfg.accessKeySecret, cfg.endpoint)
  {
    if cfg.accessKeyId == "" || cfg.accessKeySecret == "" || cfg.endpoint == "" then
      Err(MissingCredentials)
    else match newClientError
      case Some(cause) => Err(ClientNotCreated(cause))
      case None => Ok(ClientConfig(cfg.accessKeyId, cfg.accessKeySecret, cfg.endpoint))
  }
}
