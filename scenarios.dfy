/** The documented reconcile scenarios, each stated over every world that
    matches it and proved from the general lemmas. */
module Scenarios {
  import opened Results
  import opened Strings
  import opened Errors
  import opened RetryPolicy
  import opened Client
  import opened Provider
  import opened Resolver
  import opened Reader
  import opened Reconciler

  /** Settings with every value present. */
  predicate Complete(cfg: Config) {
    HasCredentials(cfg) && cfg.ipServiceUrl != "" && cfg.recordId != ""
  }

  /** The configured record, holding the address `ip`. */
  function Home(cfg: Config, ip: string): DnsRecord {
    DnsRecord(cfg.recordId, "A", "home", ip, 600)
  }

  /** A world where the environment file loads, the client can be built and
      the provider holds `record` under the configured id. */
  predicate Holds(cfg: Config, w: World, record: DnsRecord) {
    && Complete(cfg)
    && w.dotenvError.None? && w.newClientError.None?
    && w.provider.records == map[cfg.recordId := record]
  }

  /** The first lookup answers 200 with the address `ip` and nothing around it. */
  predicate FirstAnswer(w: World, ip: string) {
    w.lookup(0) == Response(StatusOK, ip) && Trimmed(ip) && w.parseIp(ip)
  }

  lemma FirstAnswerResolves(cfg: Config, w: World, ip: string)
    requires cfg.ipServiceUrl != "" && FirstAnswer(w, ip)
    ensures RealIpRun(cfg.ipServiceUrl, w.lookup, w.parseIp).result == Ok(ip)
  {
    TrimSpaceOfPadded([], ip, []);
    assert [] + ip + [] == ip;
    ResolverReturnsFirstAccepted(cfg.ipServiceUrl, w.lookup, w.parseIp, 0);
  }

  /** Scenario A: the first lookup answers with the address the record already
      holds; no write, exit 0. */
  lemma ScenarioUnchanged(cfg: Config, w: World, ip: string)
    requires Holds(cfg, w, Home(cfg, ip)) && w.provider.describeFault(0).None?
    requires FirstAnswer(w, ip)
    ensures var pass := ReconcileSpec(cfg, w);
      && pass.exit == Ok(Unchanged(ip))
      && Calls(pass.trace, UpdateRecord) == 0
      && pass.provider == w.provider
      && ExitStatus(pass) == 0
  {
    FirstAnswerResolves(cfg, w, ip);
    assert RecordRun(w.provider, cfg.recordId).result == Ok(Home(cfg, ip)) by {
      ReaderReturnsFirstSuccess(w.provider, cfg.recordId, 0);
    }
    WritesIffValueDiffers(cfg, w, ip, Home(cfg, ip));
  }

  /** Scenario B: the first lookup answers with a new address; exactly one
      write, which stores the new address and keeps the record's id, type, host
      label and TTL; exit 0. */
  lemma ScenarioUpdated(cfg: Config, w: World, was: string, ip: string)
    requires Holds(cfg, w, Home(cfg, was)) && w.provider.describeFault(0).None? && w.provider.updateFault.None?
    requires FirstAnswer(w, ip) && was != ip
    ensures var pass := ReconcileSpec(cfg, w);
      && pass.exit == Ok(Updated(ip))
      && Calls(pass.trace, UpdateRecord) == 1
      && pass.provider.records == map[cfg.recordId := Home(cfg, ip)]
      && ExitStatus(pass) == 0
  {
    FirstAnswerResolves(cfg, w, ip);
    assert RecordRun(w.provider, cfg.recordId).result == Ok(Home(cfg, was)) by {
      ReaderReturnsFirstSuccess(w.provider, cfg.recordId, 0);
    }
    WritesIffValueDiffers(cfg, w, ip, Home(cfg, was));
    var after := ReconcileSpec(cfg, w).provider.records;
    assert after.Keys == {cfg.recordId};
    assert after == map[cfg.recordId := Home(cfg, ip)];
  }

  /** Scenario C: the lookup service answers 500 three times, whatever the
      bodies; the resolver gives up after three requests with the last body,
      the pass exits non-zero and the provider is never called. */
  lemma ScenarioLookupDown(cfg: Config, w: World)
    requires cfg.ipServiceUrl != "" && w.dotenvError.None?
    requires forall j :: 0 <= j < MaxRetries ==> w.lookup(j).Response? && w.lookup(j).status == 500
    ensures var pass := ReconcileSpec(cfg, w);
      && pass.exit == Err(IpLookupFailed(MaxRetries, UnexpectedStatus(500, w.lookup(MaxRetries - 1).body)))
      && Calls(pass.trace, LookupIp) == 3
      && Calls(pass.trace, DescribeRecord) == 0
      && Calls(pass.trace, UpdateRecord) == 0
      && ExitStatus(pass) == 1
  {
    ResolverGivesUp(cfg.ipServiceUrl, w.lookup, w.parseIp);
    ResolverFailureSkipsProvider(cfg, w);
  }

  /** Scenario D: the IP resolves but every describe call fails; the pass exits
      non-zero with the last describe error after three describe calls and
      never writes. */
  lemma ScenarioProviderDown(cfg: Config, w: World, ip: string)
    requires Holds(cfg, w, Home(cfg, ip))
    requires forall j :: 0 <= j < MaxRetries ==> w.provider.describeFault(j).Some?
    requires FirstAnswer(w, ip)
    ensures var pass := ReconcileSpec(cfg, w);
      && pass.exit == Err(DescribeFailed(MaxRetries, w.provider.describeFault(MaxRetries - 1).value))
      && Calls(pass.trace, UpdateRecord) == 0
      && ExitStatus(pass) == 1
  {
    FirstAnswerResolves(cfg, w, ip);
    var recordErr := DescribeFailed(MaxRetries, w.provider.describeFault(MaxRetries - 1).value);
    assert RecordRun(w.provider, cfg.recordId).result == Err(recordErr) by {
      ReaderGivesUp(w.provider, cfg.recordId);
    }
    ReaderFailureSkipsWrite(cfg, w);
  }

  /** Scenario E: a 200 whose body is an address padded with white space (such
      as " 203.0.113.5\n") resolves to the bare address. */
  lemma ScenarioPaddedBody(url: string, lookup: nat -> HttpOutcome, parseIp: string -> bool,
                           pre: string, ip: string, post: string)
    requires url != "" && AllSpace(pre) && AllSpace(post) && Trimmed(ip) && parseIp(ip)
    requires lookup(0) == Response(StatusOK, pre + ip + post)
    ensures RealIpRun(url, lookup, parseIp).result == Ok(ip)
  {
    TrimSpaceOfPadded(pre, ip, post);
    ResolverReturnsFirstAccepted(url, lookup, parseIp, 0);
  }
}
