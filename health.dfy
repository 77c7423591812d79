/**
 * The two health classifiers of the integration client: one reads an
 * integration's audit log, the other its activity log. Both map a list of
 * entries to a `(health, error message)` pair and touch no state.
 */
module Health {
  import TextOrder

  /** The four values of `IntegrationHealth`. */
  datatype HealthState = Healthy | Warning | Error | Inactive

  /** The `(health, error_message)` pair a classifier returns. */
  datatype HealthReport = HealthReport(state: HealthState, message: string)

  /** `("HEALTHY", "")` */
  const Clear := HealthReport(Healthy, "")

  /** `("INACTIVE", "")` */
  const NoActivity := HealthReport(Inactive, "")

  /** A report carries a message only when it is a WARNING or an ERROR. */
  predicate Consistent(r: HealthReport)
  {
    r.message != "" ==> r.state == Warning || r.state == Error
  }

  /** An activity-log entry; entries arrive oldest first. */
  datatype LogEntry = LogEntry(level: string, message: string, timestamp: string)

  /** An audit-log entry; entries arrive in chronological order. */
  datatype AuditLogEntry = AuditLogEntry(status: string, message: string)

  predicate IsFailure(e: AuditLogEntry)
  {
    e.status == "FAILURE"
  }

  // ---------------------------------------------------------------------
  // Audit log
  // ---------------------------------------------------------------------

  /** The forward scan over a list of audits: the first FAILURE is reported as an ERROR. */
  function FirstFailure(audits: seq<AuditLogEntry>): (r: HealthReport)
    ensures r.state == Healthy || r.state == Error
    ensures r.state == Healthy ==> r.message == ""
    ensures r.state == Error <==> exists i :: 0 <= i < |audits| && IsFailure(audits[i])
    ensures r.state == Error ==>
      exists i :: 0 <= i < |audits| && IsFailure(audits[i]) && audits[i].message == r.message
  {
    if audits == [] then Clear
    else if audits[0].status == "FAILURE" then HealthReport(Error, audits[0].message)
    else
      var r := FirstFailure(audits[1..]);
      assert forall i :: 0 <= i < |audits| - 1 ==> audits[1..][i] == audits[i + 1];
      assert forall i :: 1 <= i < |audits| ==> audits[i] == audits[1..][i - 1];
      r
  }

  /** `_determine_integration_health_from_audit_logs` */
  function AuditHealth(audits: seq<AuditLogEntry>): (r: HealthReport)
    ensures r.state == Inactive <==> audits == []
    ensures r.state != Warning
    ensures Consistent(r)
    ensures r.state == Error <==> exists i :: 0 <= i < |audits| && IsFailure(audits[i])
  {
    if audits == [] then NoActivity else FirstFailure(audits)
  }

  lemma {:induction false} FirstFailureAt(audits: seq<AuditLogEntry>, i: nat)
    requires i < |audits| && IsFailure(audits[i])
    requires forall j :: 0 <= j < i ==> !IsFailure(audits[j])
    ensures FirstFailure(audits) == HealthReport(Error, audits[i].message)
  {
    if i != 0 {
      assert !IsFailure(audits[0]);
      FirstFailureAt(audits[1..], i - 1);
    }
  }

  /** The message reported is that of the earliest FAILURE, not of any later one. */
  lemma AuditHealthReportsFirstFailure(audits: seq<AuditLogEntry>, i: nat)
    requires i < |audits| && IsFailure(audits[i])
    requires forall j :: 0 <= j < i ==> !IsFailure(audits[j])
    ensures AuditHealth(audits) == HealthReport(Error, audits[i].message)
  {
    FirstFailureAt(audits, i);
  }

  /** A non-empty audit list without a FAILURE is healthy. */
  lemma AuditHealthWithoutFailure(audits: seq<AuditLogEntry>)
    requires audits != []
    requires forall j :: 0 <= j < |audits| ==> !IsFailure(audits[j])
    ensures AuditHealth(audits) == Clear
  {
  }

  // ---------------------------------------------------------------------
  // Activity log
  // ---------------------------------------------------------------------

  /** The entry was written before the reference timestamp (compared as strings). */
  predicate Stale(e: LogEntry, fromDate: string)
  {
    TextOrder.Less(e.timestamp, fromDate)
  }

  /**
   * The reverse scan over a list of log entries: the most recent entry is
   * looked at first and is tested for ERROR, then WARNING, then age.
   */
  function ScanRecent(logs: seq<LogEntry>, fromDate: string): (r: HealthReport)
    decreases |logs|
    ensures r.state != Inactive
    ensures r.state == Healthy ==> r.message == ""
    ensures r.state == Error ==>
      exists i :: 0 <= i < |logs| && logs[i].level == "ERROR" && logs[i].message == r.message
    ensures r.state == Warning ==>
      exists i :: 0 <= i < |logs| && logs[i].level == "WARNING" && logs[i].message == r.message
  {
    if logs == [] then Clear
    else
      var e := logs[|logs| - 1];
      if e.level == "ERROR" then HealthReport(Error, e.message)
      else if e.level == "WARNING" then HealthReport(Warning, e.message)
      else if Stale(e, fromDate) then Clear
      else
        var r := ScanRecent(logs[..|logs| - 1], fromDate);
        assert forall i :: 0 <= i < |logs| - 1 ==> logs[..|logs| - 1][i] == logs[i];
        r
  }

  /** `_determine_integration_health_from_logs` */
  function LogHealth(logs: seq<LogEntry>, fromDate: string): (r: HealthReport)
    ensures r.state == Inactive <==> logs == []
    ensures Consistent(r)
    ensures r.state == Error ==>
      exists i :: 0 <= i < |logs| && logs[i].level == "ERROR" && logs[i].message == r.message
    ensures r.state == Warning ==>
      exists i :: 0 <= i < |logs| && logs[i].level == "WARNING" && logs[i].message == r.message
  {
    if logs == [] then NoActivity else ScanRecent(logs, fromDate)
  }

  /** An entry at which the reverse scan stops. */
  predicate Decisive(e: LogEntry, fromDate: string)
  {
    e.level == "ERROR" || e.level == "WARNING" || Stale(e, fromDate)
  }

  /** What a decisive entry reports: ERROR is tested before WARNING, both before age. */
  function Verdict(e: LogEntry): HealthReport
  {
    if e.level == "ERROR" then HealthReport(Error, e.message)
    else if e.level == "WARNING" then HealthReport(Warning, e.message)
    else Clear
  }

  lemma {:induction false} ScanRecentAtLatestDecisive(logs: seq<LogEntry>, fromDate: string, i: nat)
    requires i < |logs| && Decisive(logs[i], fromDate)
    requires forall j :: i < j < |logs| ==> !Decisive(logs[j], fromDate)
    ensures ScanRecent(logs, fromDate) == Verdict(logs[i])
    decreases |logs|
  {
    if i != |logs| - 1 {
      assert !Decisive(logs[|logs| - 1], fromDate);
      var front := logs[..|logs| - 1];
      assert forall j :: 0 <= j < |front| ==> front[j] == logs[j];
      ScanRecentAtLatestDecisive(front, fromDate, i);
    }
  }

  /**
   * The classification is decided by the most recent decisive entry, so an
   * ERROR older than the reference timestamp still reports ERROR when
   * nothing later stops the scan.
   */
  lemma LogHealthAtLatestDecisive(logs: seq<LogEntry>, fromDate: string, i: nat)
    requires i < |logs| && Decisive(logs[i], fromDate)
    requires forall j :: i < j < |logs| ==> !Decisive(logs[j], fromDate)
    ensures LogHealth(logs, fromDate) == Verdict(logs[i])
  {
    ScanRecentAtLatestDecisive(logs, fromDate, i);
  }

  lemma {:induction false} ScanRecentWithoutDecisive(logs: seq<LogEntry>, fromDate: string)
    requires forall j :: 0 <= j < |logs| ==> !Decisive(logs[j], fromDate)
    ensures ScanRecent(logs, fromDate) == Clear
    decreases |logs|
  {
    if logs != [] {
      var front := logs[..|logs| - 1];
      assert forall j :: 0 <= j < |front| ==> front[j] == logs[j];
      ScanRecentWithoutDecisive(front, fromDate);
    }
  }

  /** A non-empty log where no entry stops the scan is healthy. */
  lemma LogHealthWithoutDecisive(logs: seq<LogEntry>, fromDate: string)
    requires logs != []
    requires forall j :: 0 <= j < |logs| ==> !Decisive(logs[j], fromDate)
    ensures LogHealth(logs, fromDate) == Clear
  {
    ScanRecentWithoutDecisive(logs, fromDate);
  }

  lemma {:induction false} ScanRecentIgnoresOlder(older: seq<LogEntry>, recent: seq<LogEntry>, fromDate: string, i: nat)
    requires i < |recent| && Decisive(recent[i], fromDate)
    ensures ScanRecent(older + recent, fromDate) == ScanRecent(recent, fromDate)
    decreases |recent|
  {
    var all := older + recent;
    assert all[|all| - 1] == recent[|recent| - 1];
    if i != |recent| - 1 && !Decisive(recent[|recent| - 1], fromDate) {
      assert all[..|all| - 1] == older + recent[..|recent| - 1];
      ScanRecentIgnoresOlder(older, recent[..|recent| - 1], fromDate, i);
    }
  }

  /**
   * Once a recent stretch of the log holds an entry that stops the scan,
   * nothing written before that stretch can change the classification.
   */
  lemma LogHealthIgnoresOlder(older: seq<LogEntry>, recent: seq<LogEntry>, fromDate: string, i: nat)
    requires i < |recent| && Decisive(recent[i], fromDate)
    ensures LogHealth(older + recent, fromDate) == LogHealth(recent, fromDate)
  {
    ScanRecentIgnoresOlder(older, recent, fromDate, i);
  }

  /** The most recent entry is an ERROR, so the older WARNING is never reached. */
  lemma LatestErrorWins()
    ensures LogHealth([LogEntry("INFO", "started", "1"), LogEntry("WARNING", "w", "5"), LogEntry("ERROR", "e", "7")], "0")
            == HealthReport(Error, "e")
  {
  }

  /** The only entry predates the reference timestamp, so the scan stops at it. */
  lemma StaleEntryIsHealthy()
    ensures LogHealth([LogEntry("INFO", "started", "1")], "5") == Clear
  {
  }
}
