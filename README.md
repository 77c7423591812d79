# Integration health check: a Dafny model

The integration health check lists the integrations installed in a Port
organisation and adds a derived health state to each record. For every
record it reads the integration's audit log and, only when that is clean,
its activity log. It classifies the entries as HEALTHY, WARNING, ERROR or
INACTIVE and writes the verdict into the record's `__health` and
`__errorMessage` keys.

This project models that decision logic and proves what it promises:

- `text_order.dfy` (`TextOrder`): Python's `<` on `str`, the order in which
  log timestamps are compared. It is proved to be a strict total order.
- `health.dfy` (`Health`): the two classifiers. The audit classifier scans
  forward for the first `FAILURE`. The log classifier scans newest first
  and stops at the first entry that is an ERROR, a WARNING, or older than
  the reference timestamp.
- `client.dfy` (`Client`): the integration record and the client.
  - The record is a class. The keys the client only reads are constants.
    `__health` and `__errorMessage` are fields the enrichment writes in
    place.
  - The two log endpoints are oracles, total functions held by the client.
  - A ghost trace records every request, so we can state how many
    requests are made and which ones (the short-circuit rules).
  - Enrichment of one record and of the whole list are methods proved
    against specification functions.
- `selector.dfy` (`Selector`): the `logLimit` setting, its default and its
  validator.
- `wrappers.dfy` (`Wrappers`): `Option` and `Result`.

Points where the behaviour of the code is easy to misread, and how the
model follows the code:

- Statuses, levels and messages are strings, compared exactly as the code
  compares them.
- Timestamps are compared as text. This matches time order only when both
  strings have the same format (`TextOrder.TextNotNumber`).
- The reference timestamp is `lastResyncStart` when that is present and
  non-empty, and otherwise `createdAt`. This is Python's `or`, which also
  falls back on `null` and on `""`.
- An old ERROR or WARNING still counts. The age test is checked only after
  the level tests, so the newest entry that stops the scan decides
  (`Health.LogHealthAtLatestDecisive`).

## Model

| member | source | states |
|---|---|---|
| TextOrder.LessIffFirstDifference | client.py:181 | `a < b` on strings holds exactly when the first position where they differ favours `b`, or `a` is a proper prefix of `b` |
| TextOrder.LessIrreflexive | client.py:181 | no timestamp is earlier than itself |
| TextOrder.LessTransitive | client.py:181 | the timestamp order is transitive |
| TextOrder.LessTotal | client.py:181 | any two distinct timestamps are ordered one way or the other |
| TextOrder.LessAsymmetric | client.py:181 | two timestamps are never each earlier than the other |
| TextOrder.ProperPrefixIsLess | client.py:181 | a proper prefix comes first |
| TextOrder.TextNotNumber | client.py:181 | the comparison is textual: "10" comes before "5" |
| Health.FirstFailure | client.py:199-202 | the forward scan gives HEALTHY with an empty message or ERROR; ERROR exactly when some entry has status FAILURE, carrying the message of a FAILURE entry |
| Health.AuditHealth | client.py:185-202 | INACTIVE exactly for an empty list; never WARNING; ERROR exactly when some entry is a FAILURE; a message only with ERROR |
| Health.AuditHealthReportsFirstFailure | client.py:199-201 | if entry `i` is the first FAILURE in forward order, the result is ERROR with entry `i`'s message |
| Health.AuditHealthWithoutFailure | client.py:197-202 | a non-empty list with no FAILURE gives `("HEALTHY", "")` |
| Health.ScanRecent | client.py:176-183 | the reverse scan never gives INACTIVE; HEALTHY comes with an empty message; ERROR or WARNING carries the message of an entry with that level |
| Health.LogHealth | client.py:161-183 | INACTIVE exactly for an empty list; a message only with WARNING or ERROR, and it is the message of an entry with that level |
| Health.LogHealthAtLatestDecisive | client.py:176-182 | if entry `i` is the last one that is ERROR, WARNING or older than the reference, the result is that entry's verdict, tested ERROR first, then WARNING, then age; an old ERROR still gives ERROR |
| Health.LogHealthWithoutDecisive | client.py:176-183 | a non-empty log where no entry is ERROR, WARNING or older than the reference gives `("HEALTHY", "")` |
| Health.LogHealthIgnoresOlder | client.py:176-182 | once a recent stretch of the log holds an entry that stops the scan, entries before that stretch cannot change the result |
| Health.LatestErrorWins | client.py:176-178 | logs INFO, WARNING "w", ERROR "e" with reference "0" give `("ERROR", "e")` |
| Health.StaleEntryIsHealthy | client.py:181-182 | a single INFO entry older than the reference gives `("HEALTHY", "")` |
| Client.Integration.constructor | client.py:221-233 | a listed record holds the keys enrichment reads and has neither `__health` nor `__errorMessage` yet |
| Client.Integration.ReferenceTimestamp | client.py:231-234 | the reference is a non-empty `lastResyncStart` when there is one, and otherwise `createdAt` |
| Client.IntegrationClient.constructor | client.py:26-46 | a new client has made no request |
| Client.IntegrationClient.GetIntegrationAuditLogs | client.py:131-159 | one audit-log request for the installation and start date; returns what the server sends |
| Client.IntegrationClient.GetIntegrationLogs | client.py:106-129 | one activity-log request for the installation and limit; returns what the server sends |
| Client.IntegrationClient.EnrichedReport | client.py:223-254 | the stored pair has a message only with WARNING or ERROR; no `resyncState` gives `("INACTIVE", "")`; WARNING only after a clean audit log; INACTIVE exactly when there is no `resyncState`, no audit entries, or a clean audit followed by no log entries; an ERROR that is not from the audit log carries a log entry's message |
| Client.IntegrationClient.EnrichmentFetches | client.py:223-247 | no request without `resyncState`; otherwise exactly one request when the audit verdict is not HEALTHY and exactly two when it is; the first is the audit request with the reference timestamp, and the second, when made, is the log request with the configured limit |
| Client.IntegrationClient.EnrichIntegrationHealth | client.py:204-255 | returns the same record with the enrichment stored; the requests are appended to the trace; no `resyncState` gives INACTIVE with no request; a non-HEALTHY audit verdict is stored as final; a HEALTHY one defers to the log verdict under the same reference timestamp |
| Client.IntegrationClient.EnrichedRecordIsConsistent | client.py:223-254 | an enriched record has both keys, and a non-empty message only with WARNING or ERROR |
| Client.IntegrationClient.BatchFetches | client.py:267-272 | a batch makes at most two requests per record, and none exactly when no record was ever resynced |
| Client.IntegrationClient.GetIntegrations | client.py:257-273 | returns the listed records in their positions, each holding its own enrichment; the trace grows by each record's requests in list order |
| Selector.ValidateLogLimit | integration.py:23-27 | rejects with "log_limit cannot be greater than 300" exactly when the value exceeds 300; otherwise returns the value unchanged |
| Selector.ValidationIsIdempotent | integration.py:24-27 | validating an accepted value again accepts it, unchanged |
| Selector.DefaultLogLimitIsValid | integration.py:17-21 | the default limit of 300 passes validation |
| Selector.BoundaryValues | integration.py:25-27 | 300 passes and 301 fails; there is no lower bound, so 0 and -1 pass |

## Left out

- HTTP transport, authentication headers and JSON unwrapping (`_send_request`, `_get_headers` and the `["audits"]`, `["data"]`, `["integrations"]` lookups, client.py:48-159). The two log endpoints are oracles of the client.
- `_fetch_integrations` (client.py:93-104) is not modelled. `GetIntegrations` takes the list it returned as a parameter.
- Transport and status errors, and the all-or-nothing failure of a batch. The oracles are total, so no request fails in the model.
- `asyncio.gather` concurrency (client.py:272). The records share no state, so the model enriches them one after another in list order. The order of the ghost trace, with each record's requests kept together in list order, is the model's own: in the program the requests of different records interleave, and no order between records is promised.
- `healthcheck` (client.py:275-285). It is a single remote call.
- Logging through `loguru`. It is observability only.
- The host hooks `on_resync` and `on_start` (main.py) and the pydantic configuration classes (integration.py:29-42). They are lifecycle glue. The rule that a limit above 300 is rejected before any request is made is enforced in `on_resync`, which is not part of this model.
- Malformed log and audit entries are not modelled. Python reads their keys lazily, one test at a time, so each error is raised only on the path that reaches it, and it aborts the whole batch (client.py:272):
  - a log entry without `level` raises KeyError (client.py:177);
  - an ERROR or WARNING entry without `message` raises KeyError (client.py:178, 180);
  - an entry that is neither and has no `timestamp` raises KeyError, and a non-string `timestamp` raises TypeError (client.py:181);
  - an audit entry without `status` raises KeyError (client.py:200), and so does a FAILURE entry without `message` (client.py:201).
  `Health.LogEntry` and `Health.AuditLogEntry` always carry every field as a string, so the model never takes these paths.
- Malformed records are not modelled: a missing `_id`, `installationId` or `createdAt`, a `resyncState` that is `null`, and non-string values. The record class has these keys as typed fields.
- The client's credentials and base URL (client.py:26-46). They only reach the transport.
- `GetIntegrationLogs`: the default `limit` of 100 is not modelled, because enrichment always passes the configured limit. Nothing bounds how many entries the server returns.
- Upstream keys that the client neither reads nor writes. They pass through untouched and are not represented.
