/** `ContractEventListenerJob`: the background job that checks for missed
    contract events and reports listener statistics. One run of the job's
    timer loop is modelled; the database is the shared one. */
module ListenerJob {
  import opened Wrappers
  import opened Numbers
  import opened Storage
  import opened EventIndexer
  import opened ContractListener

  /** `ContractEventListenerConfig`. */
  datatype JobConfig = JobConfig(
    enabled: bool,
    intervalSeconds: U64,
    contractId: string,
    rpcUrl: string,
    startLedger: Option<U64>)

  const DEFAULT_INTERVAL_SECONDS: U64 := 10
  const DEFAULT_CONTRACT_ID: string := "default-contract-id"
  const DEFAULT_RPC_URL: string := "https://soroban-testnet.stellar.org"

  /** `ContractEventListenerConfig::default`. The three arguments are the
      process environment's `SNAPSHOT_CONTRACT_ID`, `SOROBAN_RPC_URL` and
      `CONTRACT_EVENT_START_LEDGER`, `None` when unset. */
  function DefaultConfig(contractIdVar: Option<string>, rpcUrlVar: Option<string>, startLedgerVar: Option<string>)
    : (c: JobConfig)
    ensures c.enabled && c.intervalSeconds == 10
    ensures contractIdVar.None? ==> c.contractId == DEFAULT_CONTRACT_ID
    ensures rpcUrlVar.None? ==> c.rpcUrl == DEFAULT_RPC_URL
    ensures contractIdVar.Some? ==> c.contractId == contractIdVar.value
    ensures rpcUrlVar.Some? ==> c.rpcUrl == rpcUrlVar.value
    ensures startLedgerVar.None? ==> c.startLedger.None?
    ensures startLedgerVar.Some? ==> c.startLedger == ParseU64(startLedgerVar.value)
  {
    var startLedger := match startLedgerVar
      case None => None
      case Some(text) => ParseU64(text);
    JobConfig(true, DEFAULT_INTERVAL_SECONDS, contractIdVar.GetOr(DEFAULT_CONTRACT_ID),
              rpcUrlVar.GetOr(DEFAULT_RPC_URL), startLedger)
  }

  /** The listener configuration `start` derives from the job's. */
  function ListenerConfigOf(c: JobConfig): (l: ListenerConfig)
    ensures l.rpcUrl == c.rpcUrl && l.contractId == c.contractId
    ensures l.pollIntervalSecs == c.intervalSeconds && l.startLedger == c.startLedger
  {
    ListenerConfig(c.rpcUrl, c.contractId, c.intervalSeconds, c.startLedger)
  }

  /** The ledger to resume from: one past the ledger of the most recently
      created stored event; with nothing stored, the configured start
      ledger, else 0. */
  function ResumeLedger(recent: seq<SnapshotEvent>, startLedger: Option<U64>): (l: int)
    ensures recent != [] ==> l == recent[0].ledger + 1
    ensures recent == [] ==> l == startLedger.GetOr(0)
    ensures l >= 0
  {
    if recent != [] then recent[0].ledger + 1 else startLedger.GetOr(0)
  }

  /** `ContractEventListenerStats`. */
  datatype ListenerStats = ListenerStats(
    enabled: bool,
    intervalSeconds: U64,
    contractId: string,
    rpcUrl: string,
    totalEvents: nat,
    verifiedSnapshots: nat,
    failedVerifications: nat,
    latestEpoch: Option<U64>,
    latestLedger: Option<U64>,
    eventsLast24h: nat)

  class ContractEventListenerJob {
    const db: Database
    const config: JobConfig
    /** The indexer `get_stats` builds over the same database. */
    const indexer: EventIndexer

    /** `ContractEventListenerJob::new`. */
    constructor(db: Database, config: JobConfig)
      ensures this.db == db && this.config == config && indexer.db == db
    {
      this.db := db;
      this.config := config;
      indexer := new EventIndexer(db);
    }

    /** The resume ledger `check_for_missed_events` computes from the newest
        stored event, or the read error that aborts it. The source calls
        `get_recent_events(1)` on the indexer, which defines no such method;
        the one read that exists is the listener's, over the same database,
        so the newest row is read as `ReadRecentEvents` reads it and a NULL
        epoch, hash or timestamp in it aborts the check. */
    function ResumeFrom(): (r: Result<int, ReadError>)
      reads db
      ensures r.Err? <==> ReadAll(RecentRows(db, 1)).Err?
      ensures r.Ok? && db.contractEvents == [] ==> r.value == config.startLedger.GetOr(0)
      ensures r.Ok? && db.contractEvents != [] ==>
        exists e :: e in Events(db.contractEvents) && r.value == e.ledger + 1
          && forall x :: x in Events(db.contractEvents) ==> x.createdAt <= e.createdAt
    {
      var rows := RecentRows(db, 1);
      match ReadAll(rows)
      case Err(e) => Err(e)
      case Ok(recent) =>
        NewestResume(rows, Events(db.contractEvents), recent, config.startLedger);
        Ok(ResumeLedger(recent, config.startLedger))
    }

    /** `check_for_missed_events`: reads the newest stored event to find
        where to resume, then reports that nothing was processed. */
    method CheckForMissedEvents() returns (r: Result<nat, ReadError>)
      ensures r.Err? <==> ResumeFrom().Err?
      ensures r.Err? ==> r.error == ResumeFrom().error
      ensures r.Ok? ==> r.value == 0
    {
      var recent := ReadRecentEvents(db, 1);
      if recent.Err? {
        return Err(recent.error);
      }
      var _ := ResumeLedger(recent.value, config.startLedger);
      return Ok(0);
    }

    /** One tick of `start`: a disabled job does nothing; an enabled one
        checks for missed events. */
    method RunCycle() returns (checked: Option<Result<nat, ReadError>>)
      ensures !config.enabled <==> checked.None?
      ensures checked.Some? ==> (checked.value.Err? <==> ResumeFrom().Err?)
      ensures checked.Some? && checked.value.Ok? ==> checked.value.value == 0
    {
      if !config.enabled {
        return None;
      }
      var r := CheckForMissedEvents();
      return Some(r);
    }

    /** `get_stats`: the configuration and the indexer's counts, copied. */
    function GetStats(now: Time): (s: ListenerStats)
      requires indexer.db == db
      reads db
      ensures s.enabled == config.enabled && s.intervalSeconds == config.intervalSeconds
      ensures s.contractId == config.contractId && s.rpcUrl == config.rpcUrl
      ensures var st := indexer.GetEventStats(now);
        && s.totalEvents == st.totalEvents && s.verifiedSnapshots == st.verifiedSnapshots
        && s.failedVerifications == st.failedVerifications && s.latestEpoch == st.latestEpoch
        && s.latestLedger == st.latestLedger && s.eventsLast24h == st.eventsLast24h
      ensures s.totalEvents == |db.contractEvents|
      ensures s.verifiedSnapshots + s.failedVerifications <= s.totalEvents
      ensures s.latestLedger.None? <==> db.contractEvents == []
      ensures s.eventsLast24h <= s.totalEvents
    {
      var st := indexer.GetEventStats(now);
      ListenerStats(config.enabled, config.intervalSeconds, config.contractId, config.rpcUrl,
                    st.totalEvents, st.verifiedSnapshots, st.failedVerifications,
                    st.latestEpoch, st.latestLedger, st.eventsLast24h)
    }
  }

  /** The resume ledger read from the newest row is one past the ledger of
      an event no other stored event postdates. */
  lemma NewestResume(rows: seq<IndexedEvent>, all: seq<IndexedEvent>, recent: seq<SnapshotEvent>, startLedger: Option<U64>)
    requires forall e :: e in rows ==> e in all
    requires rows != [] ==> forall e :: e in all ==> e.createdAt <= rows[0].createdAt
    requires |rows| == 0 <==> |all| == 0
    requires ReadAll(rows) == Ok(recent)
    ensures all == [] ==> ResumeLedger(recent, startLedger) == startLedger.GetOr(0)
    ensures all != [] ==>
      exists e :: e in all && ResumeLedger(recent, startLedger) == e.ledger + 1
        && forall x :: x in all ==> x.createdAt <= e.createdAt
  {
    if all != [] {
      assert rows[0] in rows;
      assert ReadRow(rows[0]) == Ok(recent[0]);
    }
  }

  /** On an empty store the job resumes exactly where a fresh listener built
      from its configuration starts. */
  lemma EmptyStoreResumesAtListenerStart(job: ContractEventListenerJob)
    requires job.db.contractEvents == []
    ensures job.ResumeFrom() == Ok(job.config.startLedger.GetOr(0))
    ensures job.ResumeFrom().value == ListenerConfigOf(job.config).startLedger.GetOr(0)
  {
    assert RecentRows(job.db, 1) == [];
  }

  /** A freshly created job with the default configuration over an empty
      store reports it enabled, a 10-second interval and no events. */
  lemma DefaultStatsOnEmptyStore(job: ContractEventListenerJob, contractIdVar: Option<string>,
                                 rpcUrlVar: Option<string>, startLedgerVar: Option<string>, now: Time)
    requires job.config == DefaultConfig(contractIdVar, rpcUrlVar, startLedgerVar)
    requires job.indexer.db == job.db && job.db.contractEvents == []
    ensures job.GetStats(now).enabled && job.GetStats(now).intervalSeconds == 10
    ensures job.GetStats(now).totalEvents == 0 && job.GetStats(now).latestLedger.None?
  {
  }
}
