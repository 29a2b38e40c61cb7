/** One reconcile pass, `main` (main.go:147-170): load the environment file,
    resolve the public IP, build the provider client, fetch the record, and
    write the new IP only when it differs from the record's value. Every fatal
    condition ends the pass; later steps are then not taken. */
module Reconciler {
  import opened Results
  import opened Errors
  import opened RetryPolicy
  import opened Client
  import opened Provider
  import opened Resolver
  import opened Reader
  import opened Writer

  /** Everything outside the program that a pass depends on: whether the
      `.env` file loads, the lookup service's answers, `net.ParseIP`, whether
      the SDK builds a client, and the DNS provider. */
  datatype World = World(
    dotenvError: Option<string>,
    lookup: nat -> HttpOutcome,
    parseIp: string -> bool,
    newClientError: Option<string>,
    provider: Provider)

  /** How a completed pass ended. */
  datatype Decision = Unchanged(ip: string) | Updated(ip: string)

  /** A pass: how it ended, the provider afterwards, and its effects in order. */
  datatype Pass = Pass(exit: Result<Decision, Fatal>, provider: Provider, trace: seq<Event>)

  /** The process exit status: `log.Fatalf` exits with 1. */
  function ExitStatus(pass: Pass): int {
    if pass.exit.Ok? then 0 else 1
  }

  /** The specification of `main`. An unreadable environment file ends the
      pass before any external call; a pass that fails leaves the provider as
      it was; a pass that completes reports the resolved IP. */
  function ReconcileSpec(cfg: Config, w: World): (r: Pass)
    ensures w.dotenvError.Some? ==> r.exit == Err(EnvFileUnreadable(w.dotenvError.value)) && r.trace == []
    ensures r.exit.Err? ==> r.provider == w.provider
    ensures r.exit.Ok? ==> RealIpRun(cfg.ipServiceUrl, w.lookup, w.parseIp).result == Ok(r.exit.value.ip)
  {
    if w.dotenvError.Some? then Pass(Err(EnvFileUnreadable(w.dotenvError.value)), w.provider, [])
    else
      var ipRun := RealIpRun(cfg.ipServiceUrl, w.lookup, w.parseIp);
      if ipRun.result.Err? then Pass(Err(ipRun.result.error), w.provider, ipRun.trace)
      else
        var ip := ipRun.result.value;
        var client := CreateDnsClient(cfg, w.newClientError);
        if client.Err? then Pass(Err(client.error), w.provider, ipRun.trace)
        else
          var recordRun := RecordRun(w.provider, cfg.recordId);
          var fetched := ipRun.trace + recordRun.trace;
          if recordRun.result.Err? then Pass(Err(recordRun.result.error), w.provider, fetched)
          else
            var record := recordRun.result.value;
            if ip == record.value then Pass(Ok(Unchanged(ip)), w.provider, fetched)
            else
              var updateRun := UpdateDnsRecord(w.provider, record, ip);
              match updateRun.result
              case Err(e) => Pass(Err(e), w.provider, fetched + updateRun.trace)
              case Ok(updated) => Pass(Ok(Updated(ip)), updated, fetched + updateRun.trace)
  }

  /** `main`. */
  method Reconcile(cfg: Config, w: World)
    returns (exit: Result<Decision, Fatal>, provider: Provider, ghost trace: seq<Event>)
    ensures exit == ReconcileSpec(cfg, w).exit && provider == ReconcileSpec(cfg, w).provider
    ensures trace == ReconcileSpec(cfg, w).trace
  {
    provider, trace := w.provider, [];
    if w.dotenvError.Some? {
      exit := Err(EnvFileUnreadable(w.dotenvError.value));
      return;
    }
    var realIp: Result<string, Fatal>;
    ghost var ipTrace: seq<Event>;
    realIp, ipTrace := FetchRealIp(cfg.ipServiceUrl, w.lookup, w.parseIp);
    trace := ipTrace;
    if realIp.Err? {
      exit := Err(realIp.error);
      return;
    }
    var client := CreateDnsClient(cfg, w.newClientError);
    if client.Err? {
      exit := Err(client.error);
      return;
    }
    var record: Result<DnsRecord, Fatal>;
    ghost var recordTrace: seq<Event>;
    record, recordTrace := FetchDnsRecord(provider, cfg.recordId);
    trace := trace + recordTrace;
    if record.Err? {
      exit := Err(record.error);
      return;
    }
    if realIp.value == record.value.value {
      exit := Ok(Unchanged(realIp.value));
    } else {
      var update := UpdateDnsRecord(provider, record.value, realIp.value);
      trace := trace + update.trace;
      if update.result.Err? {
        exit := Err(update.result.error);
        return;
      }
      provider := update.result.value;
      exit := Ok(Updated(realIp.value));
    }
  }

  /** The order in which a pass calls the external services. */
  function Rank(op: Op): nat {
    match op
    case LookupIp => 0
    case DescribeRecord => 1
    case UpdateRecord => 2
  }

  /** All lookups come before all describes, which come before any update. */
  predicate InPhaseOrder(trace: seq<Event>) {
    forall i, j :: 0 <= i < j < |trace| && trace[i].Call? && trace[j].Call? ==> Rank(trace[i].op) <= Rank(trace[j].op)
  }

  lemma PhasesConcat(a: seq<Event>, b: seq<Event>, c: seq<Event>)
    requires OnlyCalls(a, LookupIp) && OnlyCalls(b, DescribeRecord) && OnlyCalls(c, UpdateRecord)
    ensures InPhaseOrder(a + b + c)
  {
    var t := a + b + c;
    forall k | 0 <= k < |t| && t[k].Call?
      ensures Rank(t[k].op) == if k < |a| then 0 else if k < |a| + |b| then 1 else 2
    {
      if k < |a| { assert t[k] == a[k]; }
      else if k < |a| + |b| { assert t[k] == b[k - |a|]; }
      else { assert t[k] == c[k - |a| - |b|]; }
    }
  }

  /** The effects of a pass, split into the resolver's, the reader's and the
      writer's. */
  lemma PassTraceSplits(cfg: Config, w: World)
    ensures var pass := ReconcileSpec(cfg, w);
      exists a, b, c :: pass.trace == a + b + c
        && OnlyCalls(a, LookupIp) && OnlyCalls(b, DescribeRecord) && OnlyCalls(c, UpdateRecord)
  {
    var pass := ReconcileSpec(cfg, w);
    var ipRun := RealIpRun(cfg.ipServiceUrl, w.lookup, w.parseIp);
    var recordRun := RecordRun(w.provider, cfg.recordId);
    ResolverTrace(cfg.ipServiceUrl, w.lookup, w.parseIp);
    ReaderTrace(w.provider, cfg.recordId);
    var none: seq<Event> := [];
    if w.dotenvError.Some? {
      assert pass.trace == none + none + none;
    } else if ipRun.result.Err? || CreateDnsClient(cfg, w.newClientError).Err? {
      assert pass.trace == ipRun.trace + none + none;
    } else if recordRun.result.Err? || ipRun.result.value == recordRun.result.value.value {
      assert pass.trace == ipRun.trace + recordRun.trace + none;
    } else {
      var updateRun := UpdateDnsRecord(w.provider, recordRun.result.value, ipRun.result.value);
      assert OnlyCalls(updateRun.trace, UpdateRecord);
      assert pass.trace == ipRun.trace + recordRun.trace + updateRun.trace;
    }
  }

  /** A pass resolves the IP before it touches the provider, and reads the
      record before it writes it. */
  lemma CallsInPhaseOrder(cfg: Config, w: World)
    ensures InPhaseOrder(ReconcileSpec(cfg, w).trace)
  {
    PassTraceSplits(cfg, w);
    var a, b, c :| ReconcileSpec(cfg, w).trace == a + b + c
      && OnlyCalls(a, LookupIp) && OnlyCalls(b, DescribeRecord) && OnlyCalls(c, UpdateRecord);
    PhasesConcat(a, b, c);
  }

  /** If the resolver fails, the pass is fatal with its error and makes no call
      to the provider, whatever the provider settings are. */
  lemma ResolverFailureSkipsProvider(cfg: Config, w: World)
    requires w.dotenvError.None?
    requires RealIpRun(cfg.ipServiceUrl, w.lookup, w.parseIp).result.Err?
    ensures var pass := ReconcileSpec(cfg, w);
      && pass.exit == Err(RealIpRun(cfg.ipServiceUrl, w.lookup, w.parseIp).result.error)
      && pass.provider == w.provider
      && Calls(pass.trace, DescribeRecord) == 0
      && Calls(pass.trace, UpdateRecord) == 0
  {
    var ipTrace := RealIpRun(cfg.ipServiceUrl, w.lookup, w.parseIp).trace;
    ResolverTrace(cfg.ipServiceUrl, w.lookup, w.parseIp);
    NoCallsToOthers(ipTrace, LookupIp, DescribeRecord);
    NoCallsToOthers(ipTrace, LookupIp, UpdateRecord);
  }

  /** The provider credentials are checked only after the IP has been
      resolved: with the IP resolved and a credential missing, the pass is
      fatal after the lookup requests and before any provider call. */
  lemma CredentialsCheckedAfterLookup(cfg: Config, w: World)
    requires w.dotenvError.None?
    requires RealIpRun(cfg.ipServiceUrl, w.lookup, w.parseIp).result.Ok?
    requires !HasCredentials(cfg)
    ensures var pass := ReconcileSpec(cfg, w);
      && pass.exit == Err(MissingCredentials)
      && pass.provider == w.provider
      && 1 <= Calls(pass.trace, LookupIp)
      && Calls(pass.trace, DescribeRecord) == 0
  {
    var ipRun := RealIpRun(cfg.ipServiceUrl, w.lookup, w.parseIp);
    RetryFromTrace(LookupIp, LookupSteps(w.lookup, w.parseIp), 0);
    NoCallsToOthers(ipRun.trace, LookupIp, DescribeRecord);
  }

  /** The record id is checked only inside the reader, after the IP lookup and
      the client construction: an empty id is fatal with no describe call. */
  lemma RecordIdCheckedAfterClient(cfg: Config, w: World)
    requires w.dotenvError.None?
    requires RealIpRun(cfg.ipServiceUrl, w.lookup, w.parseIp).result.Ok?
    requires CreateDnsClient(cfg, w.newClientError).Ok?
    requires cfg.recordId == ""
    ensures var pass := ReconcileSpec(cfg, w);
      && pass.exit == Err(RecordIdNotSet)
      && pass.provider == w.provider
      && 1 <= Calls(pass.trace, LookupIp)
      && Calls(pass.trace, DescribeRecord) == 0
  {
    var ipRun := RealIpRun(cfg.ipServiceUrl, w.lookup, w.parseIp);
    RetryFromTrace(LookupIp, LookupSteps(w.lookup, w.parseIp), 0);
    NoCallsToOthers(ipRun.trace, LookupIp, DescribeRecord);
    assert ipRun.trace + [] == ipRun.trace;
  }

  /** If the reader fails, the pass is fatal with its error and never writes. */
  lemma ReaderFailureSkipsWrite(cfg: Config, w: World)
    requires w.dotenvError.None?
    requires RealIpRun(cfg.ipServiceUrl, w.lookup, w.parseIp).result.Ok?
    requires CreateDnsClient(cfg, w.newClientError).Ok?
    requires RecordRun(w.provider, cfg.recordId).result.Err?
    ensures var pass := ReconcileSpec(cfg, w);
      && pass.exit == Err(RecordRun(w.provider, cfg.recordId).result.error)
      && pass.provider == w.provider
      && Calls(pass.trace, UpdateRecord) == 0
  {
    var ipTrace := RealIpRun(cfg.ipServiceUrl, w.lookup, w.parseIp).trace;
    var recordTrace := RecordRun(w.provider, cfg.recordId).trace;
    ResolverTrace(cfg.ipServiceUrl, w.lookup, w.parseIp);
    ReaderTrace(w.provider, cfg.recordId);
    NoCallsToOthers(ipTrace, LookupIp, UpdateRecord);
    NoCallsToOthers(recordTrace, DescribeRecord, UpdateRecord);
    CallsConcat(ipTrace, recordTrace, UpdateRecord);
  }

  /** Once the IP is resolved and the record fetched, the pass writes exactly
      when the two differ under string equality: no write call and no change
      when they are equal, one write call otherwise, which stores the IP and
      keeps the record's id, type, host label and TTL. */
  lemma WritesIffValueDiffers(cfg: Config, w: World, ip: string, record: DnsRecord)
    requires w.dotenvError.None?
    requires RealIpRun(cfg.ipServiceUrl, w.lookup, w.parseIp).result == Ok(ip)
    requires CreateDnsClient(cfg, w.newClientError).Ok?
    requires RecordRun(w.provider, cfg.recordId).result == Ok(record)
    ensures var pass := ReconcileSpec(cfg, w);
      && Calls(pass.trace, UpdateRecord) == (if ip == record.value then 0 else 1)
      && (ip == record.value ==> pass.exit == Ok(Unchanged(ip)) && pass.provider == w.provider)
      && (ip != record.value ==>
            (pass.exit.Ok? <==> w.provider.updateFault.None? && record.recordId in w.provider.records))
      && (ip != record.value && pass.exit.Ok? ==>
            && pass.exit == Ok(Updated(ip))
            && pass.provider.records.Keys == w.provider.records.Keys
            && pass.provider.records[record.recordId] == record.(value := ip))
      && (ip != record.value && pass.exit.Err? ==>
            && pass.exit == Err(UpdateFailed(w.provider.Update(UpdateRequestFor(record, ip)).error))
            && pass.provider == w.provider)
  {
    var ipTrace := RealIpRun(cfg.ipServiceUrl, w.lookup, w.parseIp).trace;
    var recordTrace := RecordRun(w.provider, cfg.recordId).trace;
    ResolverTrace(cfg.ipServiceUrl, w.lookup, w.parseIp);
    ReaderTrace(w.provider, cfg.recordId);
    NoCallsToOthers(ipTrace, LookupIp, UpdateRecord);
    NoCallsToOthers(recordTrace, DescribeRecord, UpdateRecord);
    CallsConcat(ipTrace, recordTrace, UpdateRecord);
    if ip != record.value {
      var updateTrace: seq<Event> := [Call(UpdateRecord, 0)];
      CallsConcat(ipTrace + recordTrace, updateTrace, UpdateRecord);
      assert updateTrace[1..] == [];
      assert Calls(updateTrace, UpdateRecord) == 1;
    }
  }

  /** Idempotence: a second pass in the same world, against the provider as the
      first completed pass left it, finds the record up to date and writes
      nothing. */
  lemma SecondPassIsNoOp(cfg: Config, w: World)
    requires w.provider.WellFormed()
    requires ReconcileSpec(cfg, w).exit.Ok?
    ensures var first := ReconcileSpec(cfg, w);
      var second := ReconcileSpec(cfg, w.(provider := first.provider));
      && second.exit == Ok(Unchanged(first.exit.value.ip))
      && second.provider == first.provider
      && Calls(second.trace, UpdateRecord) == 0
  {
    var first := ReconcileSpec(cfg, w);
    var ip := RealIpRun(cfg.ipServiceUrl, w.lookup, w.parseIp).result.value;
    var p := w.provider;
    var record := RecordRun(p, cfg.recordId).result.value;
    FetchedRecordIsStored(p, cfg.recordId, record);
    var w2 := w.(provider := first.provider);
    if ip == record.value {
      assert w2 == w;
      WritesIffValueDiffers(cfg, w, ip, record);
    } else {
      var q := first.provider;
      assert q == p.Update(UpdateRequestFor(record, ip)).value;
      assert q.records[cfg.recordId] == record.(value := ip);
      ReaderReturnsCurrentRecord(p, q, cfg.recordId);
      WritesIffValueDiffers(cfg, w2, ip, record.(value := ip));
    }
  }
}
