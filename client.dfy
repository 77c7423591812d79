/**
 * The enrichment pipeline of `IntegrationClient`: for each integration
 * record, check its audit log and then, only when that is clean, its
 * activity log, and write the outcome into the record's `__health` and
 * `__errorMessage` keys.
 *
 * The two log endpoints are oracles of the client: total functions from
 * the request's arguments to the entries the server returns. A ghost trace
 * records every request the client makes, in order.
 */
module Client {
  import opened Wrappers
  import opened Health

  /** The record's `resyncState` object. */
  datatype ResyncState = ResyncState(lastResyncStart: Option<string>)

  /**
   * An integration record as listed by the management API. The keys the
   * client only reads are constants; `health` and `errorMessage` are the
   * `__health` and `__errorMessage` keys, `None` until enrichment adds them.
   */
  class Integration {
    const id: string
    const installationId: string
    const createdAt: string
    const resyncState: Option<ResyncState>
    var health: Option<HealthState>
    var errorMessage: Option<string>

    constructor (id: string, installationId: string, createdAt: string, resyncState: Option<ResyncState>)
      ensures this.id == id && this.installationId == installationId
      ensures this.createdAt == createdAt && this.resyncState == resyncState
      ensures health == None && errorMessage == None
    {
      this.id := id;
      this.installationId := installationId;
      this.createdAt := createdAt;
      this.resyncState := resyncState;
      health := None;
      errorMessage := None;
    }

    /**
     * `resyncState.get("lastResyncStart") or createdAt`: Python's `or`
     * falls back when the key is missing, null or the empty string.
     */
    function ReferenceTimestamp(): (t: string)
      requires resyncState.Some?
      ensures t == createdAt || (resyncState.value.lastResyncStart == Some(t) && t != "")
      ensures resyncState.value.lastResyncStart.Some? && resyncState.value.lastResyncStart.value != ""
              ==> t == resyncState.value.lastResyncStart.value
    {
      match resyncState.value.lastResyncStart
      case Some(start) => if start != "" then start else createdAt
      case None => createdAt
    }

    /** The enrichment keys hold `report`. */
    predicate Holds(report: HealthReport)
      reads this
    {
      health == Some(report.state) && errorMessage == Some(report.message)
    }
  }

  /** One request to the management API. */
  datatype Fetch =
    | AuditLogFetch(installationId: string, fromDate: string)
    | LogFetch(installationId: string, limit: int)

  class IntegrationClient {
    /** What `GET /v1/audit-log` returns under `audits` for an installation and a start date. */
    const auditLogSource: (string, string) -> seq<AuditLogEntry>
    /** What `GET /v1/integration/{id}/logs` returns under `data` for an installation and a limit. */
    const logSource: (string, int) -> seq<LogEntry>
    /** Every request made so far, oldest first. */
    ghost var fetches: seq<Fetch>

    constructor (auditLogSource: (string, string) -> seq<AuditLogEntry>, logSource: (string, int) -> seq<LogEntry>)
      ensures this.auditLogSource == auditLogSource && this.logSource == logSource
      ensures fetches == []
    {
      this.auditLogSource := auditLogSource;
      this.logSource := logSource;
      fetches := [];
    }

    /** `_get_integration_audit_logs`: one request, its entries returned as the server sent them. */
    method GetIntegrationAuditLogs(installationId: string, fromDate: string) returns (audits: seq<AuditLogEntry>)
      modifies this`fetches
      ensures audits == auditLogSource(installationId, fromDate)
      ensures fetches == old(fetches) + [AuditLogFetch(installationId, fromDate)]
    {
      audits := auditLogSource(installationId, fromDate);
      fetches := fetches + [AuditLogFetch(installationId, fromDate)];
    }

    /** `_get_integration_logs`: one request, its entries returned as the server sent them. */
    method GetIntegrationLogs(installationId: string, limit: int) returns (logs: seq<LogEntry>)
      modifies this`fetches
      ensures logs == logSource(installationId, limit)
      ensures fetches == old(fetches) + [LogFetch(installationId, limit)]
    {
      logs := logSource(installationId, limit);
      fetches := fetches + [LogFetch(installationId, limit)];
    }

    /** The audit-log classification of a record that has been resynced. */
    function AuditReport(integration: Integration): HealthReport
      requires integration.resyncState.Some?
    {
      AuditHealth(auditLogSource(integration.installationId, integration.ReferenceTimestamp()))
    }

    /** The activity-log classification of a record that has been resynced. */
    function LogReport(integration: Integration, logLimit: int): HealthReport
      requires integration.resyncState.Some?
    {
      LogHealth(logSource(integration.installationId, logLimit), integration.ReferenceTimestamp())
    }

    /** The report enrichment stores in a record. */
    function EnrichedReport(integration: Integration, logLimit: int): (r: HealthReport)
      ensures Consistent(r)
      ensures integration.resyncState.None? ==> r == NoActivity
      ensures r.state == Warning ==>
        integration.resyncState.Some? && AuditReport(integration) == Clear
      ensures r.state == Inactive <==>
        || integration.resyncState.None?
        || auditLogSource(integration.installationId, integration.ReferenceTimestamp()) == []
        || (AuditReport(integration) == Clear && logSource(integration.installationId, logLimit) == [])
      ensures r.state == Error && integration.resyncState.Some? && AuditReport(integration).state != Error ==>
        exists i :: 0 <= i < |logSource(integration.installationId, logLimit)|
          && logSource(integration.installationId, logLimit)[i].level == "ERROR"
          && logSource(integration.installationId, logLimit)[i].message == r.message
    {
      if integration.resyncState.None? then NoActivity
      else
        var audit := AuditReport(integration);
        if audit.state != Healthy then audit else LogReport(integration, logLimit)
    }

    /** The requests enrichment of one record makes. */
    function EnrichmentFetches(integration: Integration, logLimit: int): (r: seq<Fetch>)
      ensures |r| == (if integration.resyncState.None? then 0
                      else if AuditReport(integration).state == Healthy then 2
                      else 1)
      ensures r == [] <==> integration.resyncState.None?
      ensures r != [] ==> r[0] == AuditLogFetch(integration.installationId, integration.ReferenceTimestamp())
      ensures (exists k :: 0 <= k < |r| && r[k].LogFetch?) <==>
        integration.resyncState.Some? && AuditReport(integration).state == Healthy
      ensures forall k :: 1 <= k < |r| ==> r[k] == LogFetch(integration.installationId, logLimit)
    {
      if integration.resyncState.None? then []
      else
        var audit := [AuditLogFetch(integration.installationId, integration.ReferenceTimestamp())];
        if AuditReport(integration).state == Healthy then
          var both := audit + [LogFetch(integration.installationId, logLimit)];
          assert both[1].LogFetch?;
          both
        else audit
    }

    /**
     * `_enrich_integration_health`: writes `__health` and `__errorMessage`
     * into the record and returns the same record.
     */
    method EnrichIntegrationHealth(integration: Integration, logLimit: int) returns (enriched: Integration)
      modifies integration, this`fetches
      ensures enriched == integration
      ensures Enriched(integration, logLimit)
      ensures fetches == old(fetches) + EnrichmentFetches(integration, logLimit)
      // never resynced: INACTIVE without a request
      ensures integration.resyncState.None? ==> integration.Holds(NoActivity) && fetches == old(fetches)
      // audit log first; anything but HEALTHY there is final
      ensures integration.resyncState.Some? && AuditReport(integration).state != Healthy ==>
        integration.Holds(AuditReport(integration))
      // a clean audit log defers to the activity log, read against the same reference timestamp
      ensures integration.resyncState.Some? && AuditReport(integration).state == Healthy ==>
        integration.Holds(LogReport(integration, logLimit))
    {
      if integration.resyncState.None? {
        integration.health := Some(Inactive);
        integration.errorMessage := Some("");
        return integration;
      }
      var audits := GetIntegrationAuditLogs(integration.installationId, integration.ReferenceTimestamp());
      var report := AuditHealth(audits);
      if report.state != Healthy {
        integration.health := Some(report.state);
        integration.errorMessage := Some(report.message);
        return integration;
      }
      var logs := GetIntegrationLogs(integration.installationId, logLimit);
      report := LogHealth(logs, integration.ReferenceTimestamp());
      integration.health := Some(report.state);
      integration.errorMessage := Some(report.message);
      return integration;
    }

    /** The record holds what enrichment stores in it. */
    predicate Enriched(integration: Integration, logLimit: int)
      reads integration
    {
      integration.Holds(EnrichedReport(integration, logLimit))
    }

    /**
     * After enrichment both keys are present, and a message is stored only
     * with a WARNING or an ERROR.
     */
    lemma EnrichedRecordIsConsistent(integration: Integration, logLimit: int)
      requires Enriched(integration, logLimit)
      ensures integration.health.Some? && integration.errorMessage.Some?
      ensures integration.errorMessage.value != "" ==>
        integration.health == Some(Warning) || integration.health == Some(Error)
    {
    }

    /** The requests a batch makes: each record's, in list order. */
    function BatchFetches(integrations: seq<Integration>, logLimit: int): (r: seq<Fetch>)
      ensures |r| <= 2 * |integrations|
      ensures r == [] <==> forall k :: 0 <= k < |integrations| ==> integrations[k].resyncState.None?
      decreases |integrations|
    {
      if integrations == [] then []
      else
        var front := integrations[..|integrations| - 1];
        assert forall k :: 0 <= k < |front| ==> front[k] == integrations[k];
        BatchFetches(front, logLimit) + EnrichmentFetches(integrations[|integrations| - 1], logLimit)
    }

    lemma BatchFetchesExtend(integrations: seq<Integration>, i: nat, logLimit: int)
      requires i < |integrations|
      ensures BatchFetches(integrations[..i + 1], logLimit)
              == BatchFetches(integrations[..i], logLimit) + EnrichmentFetches(integrations[i], logLimit)
    {
      assert integrations[..i + 1][..i] == integrations[..i];
    }

    /** One step of the batch loop's trace: enriching record `i` extends the trace of the first `i` records. */
    lemma BatchTraceExtend(start: seq<Fetch>, integrations: seq<Integration>, i: nat, logLimit: int)
      requires i < |integrations|
      ensures (start + BatchFetches(integrations[..i], logLimit)) + EnrichmentFetches(integrations[i], logLimit)
              == start + BatchFetches(integrations[..i + 1], logLimit)
    {
      BatchFetchesExtend(integrations, i, logLimit);
    }

    /**
     * `get_integrations`, given the list `_fetch_integrations` returned:
     * every record is enriched, and the result lists the same records in
     * the same positions.
     */
    method GetIntegrations(integrations: seq<Integration>, logLimit: int) returns (enriched: seq<Integration>)
      modifies integrations, this`fetches
      ensures enriched == integrations
      ensures forall k :: 0 <= k < |enriched| ==> Enriched(enriched[k], logLimit)
      ensures fetches == old(fetches) + BatchFetches(integrations, logLimit)
    {
      var i := 0;
      while i < |integrations|
        invariant 0 <= i <= |integrations|
        invariant forall k :: 0 <= k < i ==> Enriched(integrations[k], logLimit)
        invariant fetches == old(fetches) + BatchFetches(integrations[..i], logLimit)
      {
        label Before:
        var _ := EnrichIntegrationHealth(integrations[i], logLimit);
        forall k | 0 <= k <= i ensures Enriched(integrations[k], logLimit) {
          if integrations[k] != integrations[i] {
            assert old@Before(Enriched(integrations[k], logLimit));
          }
        }
        BatchTraceExtend(old(fetches), integrations, i, logLimit);
        i := i + 1;
      }
      assert integrations[..i] == integrations;
      // each task returns the record it was given, and the results are gathered in launch order
      enriched := integrations;
    }
  }
}
