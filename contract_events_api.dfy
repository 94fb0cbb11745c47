/** The HTTP handlers over the event indexer: each makes one indexer call
    and maps its result. `fault` stands for a failed database call: `Some(e)`
    when the indexer reported error `e`. */
module ContractEventsApi {
  import opened Wrappers
  import opened Numbers
  import opened Seqs
  import opened Storage
  import opened EventIndexer

  const INTERNAL_SERVER_ERROR: nat := 500
  const NOT_FOUND: nat := 404

  datatype HttpError = HttpError(status: nat, message: string)

  /** The audit trail covers this many epochs. */
  const AUDIT_TRAIL_EPOCHS: int := 10

  /** Page size when the request names none. */
  const DEFAULT_LIST_LIMIT: int := 50

  /** `VerificationSummaryResponse`; `latestSubmitted` is the creation time
      of the newest entry. */
  datatype VerificationSummaryResponse = VerificationSummaryResponse(
    latestEpoch: Option<U64>,
    latestStatus: Option<string>,
    latestHash: Option<string>,
    latestLedger: Option<U64>,
    latestSubmitted: Option<Time>,
    auditTrail: seq<VerificationSummary>)

  /** `EventListQuery`: the query-string parameters of the listing. */
  datatype EventListQuery = EventListQuery(
    limit: Option<int>,
    offset: Option<int>,
    eventType: Option<string>,
    verificationStatus: Option<string>)

  /** The response built from an audit trail: the `latest*` fields come from
      its first entry. */
  function SummaryResponse(summaries: seq<VerificationSummary>): (r: VerificationSummaryResponse)
    ensures r.auditTrail == summaries
    ensures r.latestEpoch.None? <==> summaries == []
    ensures r.latestStatus.None? <==> summaries == []
    ensures r.latestLedger.None? <==> summaries == []
    ensures r.latestSubmitted.None? <==> summaries == []
    ensures summaries != [] ==>
      && r.latestEpoch == Some(summaries[0].epoch)
      && r.latestStatus == Some(summaries[0].verificationStatus)
      && r.latestHash == summaries[0].hash
      && r.latestLedger == Some(summaries[0].ledger)
      && r.latestSubmitted == Some(summaries[0].createdAt)
    ensures summaries == [] ==> r.latestHash.None?
  {
    if summaries == [] then VerificationSummaryResponse(None, None, None, None, None, [])
    else
      var latest := summaries[0];
      VerificationSummaryResponse(Some(latest.epoch), Some(latest.verificationStatus), latest.hash,
                                  Some(latest.ledger), Some(latest.createdAt), summaries)
  }

  /** The epoch the response reports as latest is the highest of the trail. */
  lemma LatestIsHighestEpoch(indexer: EventIndexer, i: nat)
    requires i < |indexer.GetVerificationSummary(AUDIT_TRAIL_EPOCHS)|
    ensures SummaryResponse(indexer.GetVerificationSummary(AUDIT_TRAIL_EPOCHS)).latestEpoch.Some?
    ensures indexer.GetVerificationSummary(AUDIT_TRAIL_EPOCHS)[i].epoch
         <= SummaryResponse(indexer.GetVerificationSummary(AUDIT_TRAIL_EPOCHS)).latestEpoch.value
  {
    var trail := indexer.GetVerificationSummary(AUDIT_TRAIL_EPOCHS);
    if i > 0 {
      assert trail[0].epoch >= trail[i].epoch;
    }
  }

  /** `get_verification_summary` (handler): the indexer's summary of the last
      ten epochs, passed through unchanged. */
  function GetVerificationSummary(indexer: EventIndexer, fault: Option<string>): (r: Result<VerificationSummaryResponse, HttpError>)
    reads indexer.db
    ensures fault.Some? <==> r.Err?
    ensures r.Err? ==> r.error.status == INTERNAL_SERVER_ERROR
    ensures r.Ok? ==> r.value.auditTrail == indexer.GetVerificationSummary(AUDIT_TRAIL_EPOCHS)
    ensures r.Ok? ==> |r.value.auditTrail| <= AUDIT_TRAIL_EPOCHS
    ensures r.Ok? ==> r.value == SummaryResponse(r.value.auditTrail)
  {
    match fault
    case Some(e) => Err(HttpError(INTERNAL_SERVER_ERROR, "Failed to fetch verification summary: " + e))
    case None => Ok(SummaryResponse(indexer.GetVerificationSummary(AUDIT_TRAIL_EPOCHS)))
  }

  /** The indexer query the listing runs: only the type and status filters,
      fifty rows unless a limit is given, newest first. */
  function ListQuery(params: EventListQuery): (q: EventQuery)
    ensures q.eventType == params.eventType && q.verificationStatus == params.verificationStatus
    ensures q.contractId.None? && q.epoch.None? && q.hash.None? && q.ledgerRange.None? && q.timeRange.None?
    ensures q.limit == Some(params.limit.GetOr(DEFAULT_LIST_LIMIT))
    ensures q.offset == params.offset
    ensures OrderOf(q) == CreatedAtDesc
  {
    NoFilters.(eventType := params.eventType, verificationStatus := params.verificationStatus,
               limit := Some(params.limit.GetOr(DEFAULT_LIST_LIMIT)), offset := params.offset,
               orderBy := Some(CreatedAtDesc))
  }

  /** `list_contract_events`. */
  function ListContractEvents(indexer: EventIndexer, params: EventListQuery, fault: Option<string>)
    : (r: Result<seq<IndexedEvent>, HttpError>)
    reads indexer.db
    ensures fault.Some? <==> r.Err?
    ensures r.Err? ==> r.error.status == INTERNAL_SERVER_ERROR
    ensures r.Ok? ==> r.value == indexer.QueryEvents(ListQuery(params))
    ensures r.Ok? ==> forall e :: e in r.value ==>
      && e in Events(indexer.db.contractEvents)
      && (params.eventType.Some? ==> e.eventType == params.eventType.value)
      && (params.verificationStatus.Some? ==> e.verificationStatus == params.verificationStatus)
    ensures r.Ok? ==> SortedBy(r.value, CreatedAtDesc)
    ensures r.Ok? && params.limit.None? ==> |r.value| <= DEFAULT_LIST_LIMIT
    ensures r.Ok? && params.limit.Some? && params.limit.value >= 0 ==> |r.value| <= params.limit.value
  {
    match fault
    case Some(e) => Err(HttpError(INTERNAL_SERVER_ERROR, "Failed to query events: " + e))
    case None => Ok(indexer.QueryEvents(ListQuery(params)))
  }

  /** With no offset, the listing is the newest rows that pass its filters:
      none left out is newer than one returned. */
  lemma ListingIsNewestMatches(indexer: EventIndexer, params: EventListQuery)
    requires params.offset.None?
    ensures IsTopRows(indexer.QueryEvents(ListQuery(params)),
                      Filter(Events(indexer.db.contractEvents), Matching(ListQuery(params))),
                      CreatedAtDesc, params.limit.GetOr(DEFAULT_LIST_LIMIT))
  {
  }

  /** `get_contract_event`: 404 exactly when no stored event has the id. */
  function GetContractEvent(indexer: EventIndexer, id: string, fault: Option<string>)
    : (r: Result<IndexedEvent, HttpError>)
    reads indexer.db
    ensures fault.Some? ==> r.Err? && r.error.status == INTERNAL_SERVER_ERROR
    ensures fault.None? ==>
      (r.Err? <==> forall e :: e in Events(indexer.db.contractEvents) ==> e.id != id)
    ensures r.Err? ==> r.error.status == INTERNAL_SERVER_ERROR || r.error.status == NOT_FOUND
    ensures fault.None? && r.Err? ==> r.error == HttpError(NOT_FOUND, "Event not found: " + id)
    ensures r.Ok? ==> r.value.id == id && r.value in Events(indexer.db.contractEvents)
  {
    match fault
    case Some(e) => Err(HttpError(INTERNAL_SERVER_ERROR, "Failed to get event: " + e))
    case None =>
      match indexer.GetEventById(id)
      case None =>
        assert forall e :: e in Events(indexer.db.contractEvents) ==> e.id != id;
        Err(HttpError(NOT_FOUND, "Event not found: " + id))
      case Some(ev) => Ok(ev)
  }

  /** `get_events_for_epoch` (handler). */
  function GetEventsForEpoch(indexer: EventIndexer, epoch: U64, fault: Option<string>)
    : (r: Result<seq<IndexedEvent>, HttpError>)
    reads indexer.db
    ensures fault.Some? <==> r.Err?
    ensures r.Err? ==> r.error.status == INTERNAL_SERVER_ERROR
    ensures r.Ok? ==> r.value == indexer.GetEventsForEpoch(epoch)
    ensures r.Ok? ==> forall e :: e in r.value <==> e in Events(indexer.db.contractEvents) && e.epoch == Some(epoch)
    ensures r.Ok? ==> multiset(r.value) == multiset(Filter(Events(indexer.db.contractEvents), OfEpoch(epoch)))
    ensures r.Ok? ==> SortedBy(r.value, CreatedAtDesc)
  {
    match fault
    case Some(e) => Err(HttpError(INTERNAL_SERVER_ERROR, "Failed to get events for epoch: " + e))
    case None => Ok(indexer.GetEventsForEpoch(epoch))
  }

  /** `get_event_stats` (handler). */
  function GetEventStats(indexer: EventIndexer, now: Time, fault: Option<string>)
    : (r: Result<EventStats, HttpError>)
    reads indexer.db
    ensures fault.Some? <==> r.Err?
    ensures r.Err? ==> r.error.status == INTERNAL_SERVER_ERROR
    ensures r.Ok? ==> r.value == indexer.GetEventStats(now)
    ensures r.Ok? ==> r.value.totalEvents == |indexer.db.contractEvents|
    ensures r.Ok? ==> r.value.verifiedSnapshots + r.value.failedVerifications <= r.value.totalEvents
    ensures r.Ok? ==> (r.value.latestLedger.None? <==> indexer.db.contractEvents == [])
  {
    match fault
    case Some(e) => Err(HttpError(INTERNAL_SERVER_ERROR, "Failed to get event stats: " + e))
    case None => Ok(indexer.GetEventStats(now))
  }
}
