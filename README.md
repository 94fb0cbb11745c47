# Contract events: ingestion and verification core

This project models the part of the stellar-insights backend that follows the
snapshot contract on Stellar. A Soroban contract emits a `SNAP_SUB` event each
time an analytics snapshot is submitted on-chain. Four parts of the backend
handle these events, and a fifth reports on them:

- The **contract event listener** polls a Soroban RPC node ledger range by
  ledger range. It decodes each snapshot submission, stores it in the
  `contract_events` table, and compares the submitted hash with the newest
  local snapshot of that epoch in the `snapshots` table. It then marks every
  snapshot row of that epoch `verified` or `failed`.
- The **event indexer** writes the `contract_events` table (INSERT OR REPLACE
  keyed by `id`, status updates, retention cleanup) and answers queries over
  it: filtered and ordered listings, statistics, and the per-epoch
  verification summary.
- The **API handlers** turn indexer results into HTTP responses.
- The **alert service** builds alerts with a fixed severity per kind and logs
  them at the level that severity calls for.
- The **listener job** computes where a run would resume and reports
  statistics.

How the model is built:

- **The database.** It is one `Storage.Database` object, shared by the
  listener, the indexer and the job, as the `Arc<Database>` is in the source.
  Both tables are sequences of rows.
- **`contract_events`.** The table keeps one row per `id`. `UniqueIds` states
  this and every write preserves it. INSERT OR REPLACE removes the row with
  the same id and appends the new one.
- **`snapshots`.** This is a sequence, not a map from epoch to hash. The table
  can hold several rows per epoch, and verification reads the newest one
  (`ORDER BY created_at DESC LIMIT 1`). When two rows have the same
  `created_at`, the model takes the first in table order. SQLite leaves that
  choice unspecified.
- **Oracles.** Every JSON-RPC call is a parameter of the operation that makes
  it: the latest ledger, the events of a ledger range (a function of the
  range), and the contract's stored hash. Each is either a value or an
  `RpcError`.
- **The clock.** Each state-changing operation takes the current time `now`
  as a parameter.
- **Storage errors in the API handlers.** Each handler takes a `fault`
  argument, which is `Some(message)` when the indexer call failed.
- **SQLite semantics.** The model follows these SQLite rules:
  - a negative `LIMIT` means no limit;
  - a negative `OFFSET` counts as zero;
  - `OFFSET` is only emitted together with `LIMIT`;
  - `BETWEEN` includes both ends;
  - `=` never matches a NULL column;
  - NULL sorts before every number.
- **Rust semantics.** The model follows these Rust rules:
  - `u64::from_str` accepts an optional `+` followed by at least one digit,
    and the value must fit in 64 bits;
  - `serde_json`'s `as_u64` accepts integers in range only;
  - `hex::encode` writes lower-case digits;
  - a `Row::get` of a NULL column panics, and the model returns `Err(NullColumn)`
    for it instead.

## Model

| member | source | states |
|---|---|---|
| Numbers.ParseU64 | backend/src/services/contract_listener.rs:262-264 | a parsed ledger is a nonempty run of decimal digits, after an optional '+', and the result is its value; with a '+' the value is that of the digits after it |
| Numbers.ParseDigitRun | backend/src/services/contract_listener.rs:262-264 | every nonempty digit run parses to its value when below 2^64 and fails otherwise; a leading '+' changes nothing |
| Numbers.ParseToDecimal | backend/src/services/contract_listener.rs:186-187 | the decimal text of every u64 ledger number parses back to that number |
| Hex.CalculateHash | backend/src/services/contract_listener.rs:371-378 | the hex form of a SHA-256 digest has 64 characters, all ASCII hex digits, and decodes back to the digest |
| Hex.DecodeEncode | backend/src/services/contract_listener.rs:377 | hex decoding inverts hex encoding for every byte string |
| Storage.FindById | backend/src/services/event_indexer.rs:213-247 | the lookup finds nothing iff no row has the id; a found event has that id and is stored |
| Storage.FindByIdUnique | backend/src/services/event_indexer.rs:213-247 | with unique ids the lookup returns the one row holding that id |
| Storage.UpsertKeepsOthers | backend/src/services/event_indexer.rs:82-87 | INSERT OR REPLACE of one id leaves the lookup of every other id as it was |
| Storage.Upsert | backend/src/services/event_indexer.rs:82-87 | INSERT OR REPLACE keeps ids unique, the new row is what the id now finds, every other id keeps its rows, at most one row is added |
| EventIndexer.UpsertIdempotent | backend/src/services/contract_listener.rs:292-297 | writing the same row twice leaves the table as writing it once |
| EventIndexer.Matches | backend/src/services/event_indexer.rs:124-159 | the empty query matches every event; an epoch, hash or status filter never matches a NULL column; an empty ledger range matches nothing |
| EventIndexer.SortBy | backend/src/services/event_indexer.rs:162-169 | the result is ordered by the requested key and is a permutation of the input |
| EventIndexer.Page | backend/src/services/event_indexer.rs:171-177 | without a limit nothing is cut; with one the result is the contiguous slice after the clamped offset, of length min(limit, remaining), all remaining when negative |
| EventIndexer.PageOfSorted | backend/src/services/event_indexer.rs:171-177 | LIMIT/OFFSET keep the order and only return rows of the input |
| EventIndexer.PageWithin | backend/src/services/event_indexer.rs:171-177 | the page holds no row more often than the input does |
| EventIndexer.SortedPrefixIsTop | backend/src/services/event_indexer.rs:161-177 | a prefix of a sorted sequence holds the best-ranked rows: every row it leaves out ranks no earlier than every row it keeps |
| EventIndexer.WindowFacts | backend/src/services/event_indexer.rs:161-177 | a page of any sorted permutation is sorted, a sub-multiset of the rows, all of them without a limit, and the top `limit` rows when no offset applies |
| EventIndexer.Select | backend/src/services/event_indexer.rs:161-177 | ORDER BY then LIMIT/OFFSET: the result is the page of some sorted permutation of the matching rows; without a limit all of them; from offset 0 exactly the min(limit, count) best-ranked rows (all when negative); at most `limit` rows |
| EventIndexer.TopRowsFirst | backend/src/services/event_indexer.rs:161-177 | the first of the top rows ranks no later than any row of the input |
| EventIndexer.TopRowsAll | backend/src/services/event_indexer.rs:171-177 | a negative limit or one at least the row count returns every row, with multiplicity |
| EventIndexer.EpochRows | backend/src/services/event_indexer.rs:261-270 | rows with the same multiset as the epoch's filtered rows are exactly the stored events of that epoch |
| EventIndexer.StatusCountsBounded | backend/src/services/event_indexer.rs:335-336 | verified plus failed counts never exceed the number of events |
| EventIndexer.LatestLedger | backend/src/services/event_indexer.rs:338 | MAX(ledger) is None iff there are no events, is the ledger of some event, and bounds every event's ledger |
| EventIndexer.LatestEpoch | backend/src/services/event_indexer.rs:337 | MAX(epoch) is None iff no event has an epoch, and otherwise bounds every epoch present |
| EventIndexer.CountStatus | backend/src/services/event_indexer.rs:335-336 | the count of rows with a status is at most the row count and is zero iff no row has that status |
| EventIndexer.CountCreatedAfter | backend/src/services/event_indexer.rs:339 | the count of rows created after the cutoff is at most the row count and is zero iff no row is newer than the cutoff |
| EventIndexer.SummarizeAll | backend/src/services/event_indexer.rs:388-398 | one summary per row, same order, each carrying its row's fields with a NULL status reported as "pending" |
| EventIndexer.SummariesOf | backend/src/services/event_indexer.rs:374-377 | summaries of rows ordered by epoch descending are ordered by epoch descending and are all SNAP_SUB rows with an epoch |
| EventIndexer.SetStatus | backend/src/services/event_indexer.rs:305-309 | the UPDATE stamps status and time on the rows with that id and leaves every other row unchanged |
| EventIndexer.FindAfterSetStatus | backend/src/services/event_indexer.rs:298-326 | after the update the id finds its event with the new status, and an unknown id still finds nothing |
| EventIndexer.EventIndexer.constructor | backend/src/services/event_indexer.rs:73-75 | the indexer reads and writes the database it is given |
| EventIndexer.EventIndexer.IndexEvent | backend/src/services/event_indexer.rs:79-106 | index_event keeps ids unique, leaves the snapshots alone, and get_event_by_id then returns exactly the indexed event |
| EventIndexer.EventIndexer.QueryEvents | backend/src/services/event_indexer.rs:109-211 | every result is a stored event meeting all supplied filters; the result is the LIMIT/OFFSET page of the matching events sorted in the requested order (created_at descending by default); without a limit every matching event is returned, with multiplicity; without an effective offset exactly the min(limit, count) best-ranked matching events; at most `limit` results |
| EventIndexer.EventIndexer.GetEventById | backend/src/services/event_indexer.rs:213-247 | finds an event iff some row has the id, and that event has the id |
| EventIndexer.EventIndexer.GetLatestSnapshots | backend/src/services/event_indexer.rs:249-259 | stored SNAP_SUB events, highest epoch first: exactly the min(limit, count) SNAP_SUB events of highest epoch (all when negative) |
| EventIndexer.EventIndexer.GetEventsForEpoch | backend/src/services/event_indexer.rs:261-270 | exactly the stored events of the epoch, each as often as stored, newest created first |
| EventIndexer.EventIndexer.GetVerificationHistory | backend/src/services/event_indexer.rs:272-283 | exactly the min(limit, count) verified SNAP_SUB events of highest epoch (all when negative), highest first |
| EventIndexer.EventIndexer.GetFailedVerifications | backend/src/services/event_indexer.rs:285-296 | exactly the min(limit, count) most recently created failed SNAP_SUB events (all when negative), newest first |
| EventIndexer.EventIndexer.UpdateVerificationStatus | backend/src/services/event_indexer.rs:298-326 | only the row with the id changes; its event gets the new status; an unknown id is a successful no-op |
| EventIndexer.SetStatusFacts | backend/src/services/event_indexer.rs:298-326 | the status update keeps ids unique, changes nothing for an unknown id, and afterwards the id finds the same event carrying the new status |
| EventIndexer.EventIndexer.GetEventStats | backend/src/services/event_indexer.rs:329-359 | total is the row count; verified and failed are the counts of rows with that status and add up to at most the total; latest ledger is MAX(ledger), None iff empty; latest epoch is MAX(epoch), an epoch of some row, None iff none present; the last-24h count is the number of rows created after now minus one day |
| EventIndexer.EventIndexer.SummaryRows | backend/src/services/event_indexer.rs:365-386 | exactly the min(epoch_count, count) SNAP_SUB rows with an epoch of highest epoch (all when negative), epoch descending |
| EventIndexer.EventIndexer.GetVerificationSummary | backend/src/services/event_indexer.rs:362-401 | one entry per selected row in epoch-descending order, at most `epoch_count`, each from a SNAP_SUB row with an epoch, NULL status reported as "pending" |
| EventIndexer.EventIndexer.SearchByHashPrefix | backend/src/services/event_indexer.rs:404-445 | exactly the min(limit, count) most recently created events whose hash starts with the prefix, newest first; all of them, with multiplicity, when the limit is negative |
| EventIndexer.EventIndexer.CleanupOldEvents | backend/src/services/event_indexer.rs:448-467 | keeps exactly the rows created at or after now minus the retention period, returns how many rows went, keeps ids unique; a negative period deletes nothing |
| ContractListener.DecodeSnapshotEvent | backend/src/services/contract_listener.rs:246-274 | decoding succeeds iff epoch (u64), hash (string), timestamp (u64) and the ledger text are all valid; a missing epoch is reported first; the result carries those values, transaction hash = event id, type SNAP_SUB |
| ContractListener.DecodeEncodeSnapshot | backend/src/services/contract_listener.rs:246-274 | every SNAP_SUB submission decodes back from the event the RPC node reports for it |
| ContractListener.Outcome | backend/src/services/contract_listener.rs:228-239 | an event without the SNAP_SUB topic succeeds with nothing to do; a SNAP_SUB event succeeds iff it decodes |
| ContractListener.StoredRow | backend/src/services/contract_listener.rs:292-311 | the stored row is keyed by the transaction hash, carries epoch and hash, and has no status or verification time |
| ContractListener.ReadRow | backend/src/services/contract_listener.rs:524-534 | a row converts iff epoch, hash and timestamp are not NULL, and then carries the row's columns |
| ContractListener.ReadStoredRow | backend/src/services/contract_listener.rs:524-534 | a stored submission reads back as the same submission |
| ContractListener.NewestIndex | backend/src/services/contract_listener.rs:322-334 | none iff the epoch has no snapshot row; otherwise a row of the epoch with the greatest created_at, the first such in table order |
| ContractListener.MarkEpoch | backend/src/services/contract_listener.rs:381-397 | every snapshot row of the epoch gets "verified"/"failed" and the time; other rows are unchanged |
| ContractListener.Verify | backend/src/services/contract_listener.rs:336-367 | verified iff a snapshot exists for the epoch and its newest hash equals the on-chain hash; with no snapshot nothing changes; otherwise the epoch's rows are marked with the verdict |
| ContractListener.VerifyMarksEpoch | backend/src/services/contract_listener.rs:359-360 | after verification every row of the epoch carries the verdict and no other row changed |
| ContractListener.ReverifyKeepsVerdict | backend/src/services/contract_listener.rs:318-368 | verifying the same hash again, at any later time, gives the same verdict and changes no row except its verification time; at the same time the table is unchanged |
| ContractListener.ApplyEvent | backend/src/services/contract_listener.rs:228-311 | an ignored or undecodable event changes nothing; a SNAP_SUB event keeps ids unique, adds at most one event row, keeps the number of snapshot rows, and its transaction hash then finds the stored row |
| ContractListener.ApplyBatch | backend/src/services/contract_listener.rs:159-169 | applying a batch in order keeps ids unique, adds at most one event row per event and keeps the number of snapshot rows |
| ContractListener.CountOk | backend/src/services/contract_listener.rs:159-169 | the count of successfully processed events is at most the batch size, and equals it iff every event succeeds |
| ContractListener.IgnoredEventChangesNothing | backend/src/services/contract_listener.rs:232-238 | a non-SNAP_SUB event, or one that fails to decode, leaves both tables unchanged |
| ContractListener.StoredEventIsFound | backend/src/services/contract_listener.rs:282 | after a SNAP_SUB event ids stay unique and its id finds the stored SNAP_SUB record |
| ContractListener.ReprocessEvent | backend/src/services/contract_listener.rs:292-311 | processing the same event again keeps ids unique, leaves every other id's row alone, finds the event's id iff the first pass left it findable, with the row now stamped with the later time, and keeps every snapshot row up to its verification time; at the same time the tables are unchanged |
| ContractListener.PollRange | backend/src/services/contract_listener.rs:151-157 | no range when the latest ledger is not beyond the cursor; otherwise exactly [cursor+1, latest] |
| ContractListener.Advance | backend/src/services/contract_listener.rs:149-171 | the cursor never decreases |
| ContractListener.FetchedIsContiguous | backend/src/services/contract_listener.rs:155-171 | across successive polls the fetched ledgers are exactly those after the start ledger up to the cursor: none skipped |
| ContractListener.NoLedgerFetchedTwice | backend/src/services/contract_listener.rs:155-157 | the next range starts after every ledger already fetched |
| ContractListener.ContractEventListener.constructor | backend/src/services/contract_listener.rs:98-115 | the cursor starts at the configured start ledger, or 0 |
| ContractListener.ContractEventListener.ResolveStartLedger | backend/src/services/contract_listener.rs:121-125 | a zero cursor moves to the latest ledger, stays 0 if that call fails; a nonzero cursor is kept |
| ContractListener.ContractEventListener.PollForEvents | backend/src/services/contract_listener.rs:148-173 | an RPC failure or no new ledger leaves cursor and tables unchanged; otherwise the range [cursor+1, latest] is fetched, every event processed in order, failures skipped, the count of successes returned, and the cursor set to the latest ledger |
| ContractListener.ContractEventListener.ProcessBatch | backend/src/services/contract_listener.rs:159-169 | the fetched events are processed in order: the tables end as the batch effect of all of them and the returned count is the number that succeeded |
| ContractListener.ContractEventListener.ProcessNext | backend/src/services/contract_listener.rs:161-167 | one loop pass extends the batch effect and the success count by exactly the next event |
| ContractListener.BatchStep | backend/src/services/contract_listener.rs:161-167 | the batch effect of one more event is that event applied after the others, and the count grows by one exactly when it succeeds |
| ContractListener.ContractEventListener.ProcessEvent | backend/src/services/contract_listener.rs:228-239 | succeeds iff the event is ignored or decodes; the tables change exactly as that event's effect |
| ContractListener.ContractEventListener.ProcessSnapshotEvent | backend/src/services/contract_listener.rs:242-288 | a decoding error is returned with nothing stored; otherwise the event is stored and then verified |
| ContractListener.ContractEventListener.StoreSnapshotEvent | backend/src/services/contract_listener.rs:291-315 | INSERT OR REPLACE of the decoded event; its transaction hash then finds it |
| ContractListener.ContractEventListener.VerifySnapshotWithBackend | backend/src/services/contract_listener.rs:318-368 | returns the verdict of Verify and leaves the table Verify gives; no snapshot means false and no change |
| ContractListener.ContractEventListener.UpdateVerificationStatus | backend/src/services/contract_listener.rs:381-397 | marks every snapshot row of the epoch and nothing else |
| ContractListener.ContractEventListener.VerifySnapshot | backend/src/services/contract_listener.rs:441-453 | an RPC failure is returned, no on-chain hash gives false, both without changes; a hash is verified against the table |
| ContractListener.ContractEventListener.GetRecentEvents | backend/src/services/contract_listener.rs:507-538 | the newest rows, converted one by one, or the first NULL-column error |
| ContractListener.RecentRows | backend/src/services/contract_listener.rs:508-514 | exactly the min(limit, rows) most recently created stored rows (all when negative), newest first; the first is created no earlier than any stored event |
| ContractListener.ReadAll | backend/src/services/contract_listener.rs:522-537 | succeeds iff every row converts, and then converts each row in order |
| ContractListener.ReadAllFirstError | backend/src/services/contract_listener.rs:524-534 | the error reported is the one of the first unreadable row |
| ContractListener.ReadRows | backend/src/services/contract_listener.rs:522-537 | the push loop computes ReadAll of the rows |
| ContractListener.ReadRecentEvents | backend/src/services/contract_listener.rs:507-538 | reads the recent rows of the shared database as ReadAll does |
| AlertService.SeverityOf | backend/src/services/alert_service.rs:96-161 | hash mismatches and unauthorized submissions are Critical, listener failures Error, missing snapshots Warning, and no kind is Info |
| AlertService.SendAlert | backend/src/services/alert_service.rs:64-93 | always Ok; Critical and Error are logged at error level, Warning at warn level, Info at info level; the record carries the alert |
| AlertService.VerificationFailedAlert | backend/src/services/alert_service.rs:96-117 | a VerificationFailed alert with the given epoch and hashes, severity Critical |
| AlertService.MissingSnapshotAlert | backend/src/services/alert_service.rs:120-129 | a MissingSnapshot alert for the epoch, severity Warning |
| AlertService.ListenerFailureAlert | backend/src/services/alert_service.rs:132-143 | a ListenerFailure alert with the error, severity Error, message naming the error |
| AlertService.UnauthorizedSubmissionAlert | backend/src/services/alert_service.rs:146-161 | an UnauthorizedSubmission alert with epoch and submitter, severity Critical |
| AlertService.MissingSnapshotMessageNamesEpoch | backend/src/services/alert_service.rs:124 | the epoch can be read back from the missing-snapshot message |
| AlertService.AlertLevels | backend/src/services/alert_service.rs:65-85 | the four alerts are logged at error, warn, error and error level |
| ContractEventsApi.SummaryResponse | backend/src/api/contract_events.rs:62-71 | the latest fields come from the first audit-trail entry, each None iff the trail is empty; the trail is passed through |
| ContractEventsApi.LatestIsHighestEpoch | backend/src/api/contract_events.rs:62-65 | the reported latest epoch is the highest epoch in the trail |
| ContractEventsApi.GetVerificationSummary | backend/src/api/contract_events.rs:46-74 | a storage error becomes 500; otherwise the trail is the indexer's summary of 10 epochs, so at most 10 entries |
| ContractEventsApi.ListQuery | backend/src/api/contract_events.rs:83-90 | only the type and status filters are forwarded, limit 50 unless given, offset as given, created_at descending |
| ContractEventsApi.ListContractEvents | backend/src/api/contract_events.rs:77-101 | a storage error becomes 500; otherwise the indexer's answer to the listing query: stored events matching the given type and status, newest first, at most 50 by default or at most the limit |
| ContractEventsApi.ListingIsNewestMatches | backend/src/api/contract_events.rs:77-101 | without an offset the listing is exactly the min(limit, count) newest events matching the filters, limit 50 by default |
| ContractEventsApi.GetContractEvent | backend/src/api/contract_events.rs:104-128 | 404 iff no stored event has the id (storage error: 500); otherwise the stored event with that id |
| ContractEventsApi.GetEventsForEpoch | backend/src/api/contract_events.rs:131-149 | a storage error becomes 500; otherwise the indexer's answer: exactly the epoch's events, each as often as stored, newest first |
| ContractEventsApi.GetEventStats | backend/src/api/contract_events.rs:152-166 | a storage error becomes 500; otherwise exactly the indexer's statistics at that time |
| ListenerJob.DefaultConfig | backend/src/jobs/contract_event_listener.rs:25-39 | enabled, 10-second interval; a set contract id or RPC URL variable is used as is and an unset one gets its default; the start ledger parsed as u64, None when unset |
| ListenerJob.ListenerConfigOf | backend/src/jobs/contract_event_listener.rs:71-76 | the listener gets the job's URL, contract, interval and start ledger |
| ListenerJob.ResumeLedger | backend/src/jobs/contract_event_listener.rs:102-106 | one past the newest event's ledger, else the configured start ledger, else 0 |
| ListenerJob.ContractEventListenerJob.constructor | backend/src/jobs/contract_event_listener.rs:49-51 | the job keeps the database and configuration it is given; the indexer its statistics use reads the same database |
| ListenerJob.ContractEventListenerJob.ResumeFrom | backend/src/jobs/contract_event_listener.rs:98-106 | fails iff reading the newest row through the listener's `get_recent_events` fails; otherwise one past the ledger of a most recently created event, or the start ledger when nothing is stored |
| ListenerJob.NewestResume | backend/src/jobs/contract_event_listener.rs:98-106 | the resume ledger read from the newest row is one past the ledger of a stored event that no other stored event postdates, or the start ledger on an empty store |
| ListenerJob.ContractEventListenerJob.CheckForMissedEvents | backend/src/jobs/contract_event_listener.rs:98-119 | fails exactly when the read fails, with that error; otherwise reports 0 events |
| ListenerJob.ContractEventListenerJob.RunCycle | backend/src/jobs/contract_event_listener.rs:54-58 | a disabled job does nothing; an enabled one runs the check |
| ListenerJob.ContractEventListenerJob.GetStats | backend/src/jobs/contract_event_listener.rs:122-138 | the configuration fields are copied, and every count and latest value equals the indexer's statistics at that time |
| ListenerJob.EmptyStoreResumesAtListenerStart | backend/src/jobs/contract_event_listener.rs:102-106 | on an empty store the job resumes where a listener built from its configuration starts |
| ListenerJob.DefaultStatsOnEmptyStore | backend/src/jobs/contract_event_listener.rs:199-209 | the default job over an empty store reports enabled, interval 10, no events |

## Left out

- JSON-RPC transport (`get_latest_ledger`, `get_events_for_ledger_range`, `get_snapshot_from_contract`, reqwest, envelopes): network I/O; each call's answer is a parameter.
- `start_listening`'s interval loop, `ContractEventListenerJob::start`'s loop and `start_contract_event_listener_job`'s spawn: timers and concurrency; one step of each is modelled (`ResolveStartLedger`, `PollForEvents`, `RunCycle`).
- `from_env` and the process environment: the environment values are parameters of `DefaultConfig`.
- The SQL text and bind-list assembly of `query_events`, and `rebuild_indexes`: only the meaning of each statement is modelled.
- SHA-256: a digest is an opaque 32-byte value; only its hex encoding is modelled.
- EventIndexer.EventIndexer.SearchByHashPrefix: a case-sensitive prefix match; SQLite `LIKE`'s case folding and the `%`/`_` wildcards inside the prefix are not modelled.
- Date arithmetic and text: instants are integers of seconds; RFC 3339 text (`latestSubmitted`, `time_range` bindings) and SQLite's textual comparison of stored datetimes are not modelled.
- u64 values stored in signed 64-bit columns (`as i64` and back): values are kept exact. At or above 2^63 the source's stored value is negative, so the model does not capture how such values order, how MAX(epoch)/MAX(ledger) treat them, or how the `epoch = ?` and `ledger BETWEEN ? AND ?` filters (bound as decimal text) compare with them; `get_events_for_epoch(2^63)` is one such query.
- Redelivery: an event processed again in a later poll is stored again with a new `created_at`, so its row moves to the end of the table and sorts as newer, and its epoch's snapshot rows get a new `verified_at`; only the ids, the other fields and the verdicts stay the same (`ReprocessEvent`, `ReverifyKeepsVerdict`).
- Database failures inside the listener and the job: their statements always succeed; the API handlers take the failure as `fault`.
- A panicking `Row::get` on a NULL column becomes an `Err(NullColumn)` result.
- `reqwest` client construction failure in `ContractEventListener::new`: outside the model.
- ListenerJob.ContractEventListenerJob.ResumeFrom: `check_for_missed_events` calls `get_recent_events(1)` on the `EventIndexer`, which has no such method (backend/src/jobs/contract_event_listener.rs:100). The model resolves the call to the listener's `get_recent_events` (backend/src/services/contract_listener.rs:507-538) over the shared database. So the job fails with `NullColumn` when the newest row has a NULL epoch, hash or timestamp, as a row indexed through `index_event` with no epoch does.
- ListenerJob.ResumeLedger: computed on unbounded integers, so `ledger + 1` at u64::MAX (a panic or wrap in the source) is not modelled.
- Each operation reads the clock once: the source's separate `Utc::now()` calls during one poll are one `now`.
- Log output: only the level and the alert carried by `send_alert`'s record are modelled; the recalculated-hash and other diagnostic log lines are not.
- The listener's TODO alert calls and the `canonical_json` column's only use (a logged recalculated hash) have no effect on state and are not modelled.
- backend/src/api/export.rs (CSV/Excel export, float formatting), the `mod.rs` files and axum routing are not part of this model.
