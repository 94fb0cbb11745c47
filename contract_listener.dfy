/** `ContractEventListener`: follows the snapshot contract's events ledger by
    ledger, stores every snapshot submission in `contract_events` and checks
    the submitted hash against the newest local snapshot of that epoch.
    The JSON-RPC calls are parameters: each is the value the node returned
    or the failure it reported. */
module ContractListener {
  import opened Wrappers
  import opened Numbers
  import opened Json
  import opened Storage
  import opened EventIndexer

  /** `ListenerConfig`. */
  datatype ListenerConfig = ListenerConfig(
    rpcUrl: string,
    contractId: string,
    pollIntervalSecs: U64,
    startLedger: Option<U64>)

  /** `SnapshotEvent`: a decoded snapshot submission. */
  datatype SnapshotEvent = SnapshotEvent(
    epoch: U64,
    hash: string,
    timestamp: U64,
    ledger: U64,
    transactionHash: string,
    contractId: string,
    eventType: string)

  /** `ContractEvent`: one entry of a `getEvents` result; the ledger number
      arrives as text. */
  datatype ContractEvent = ContractEvent(
    eventType: string,
    ledger: string,
    ledgerClosedAt: string,
    contractId: string,
    id: string,
    pagingToken: string,
    topic: seq<string>,
    value: Value)

  /** A failed JSON-RPC call (transport, envelope `error`, or a malformed result). */
  datatype RpcError = RpcError(message: string)

  /** Why a snapshot submission was rejected, in the order the fields are read. */
  datatype ProcessError = MissingEpoch | MissingHash | MissingTimestamp | InvalidLedger

  /** A `Row::get` on a NULL column, which panics in the source. */
  datatype ReadError = NullColumn(column: string)

  // ---------------------------------------------------------------------
  // Decoding

  /** `process_snapshot_event`, lines that read the payload: `epoch`, `hash`
      and `timestamp` from the JSON value, then the ledger text; the first
      missing piece is the error. */
  function DecodeSnapshotEvent(ev: ContractEvent): (r: Result<SnapshotEvent, ProcessError>)
    ensures r.Ok? <==>
      && U64Field(ev.value, "epoch").Some?
      && StrField(ev.value, "hash").Some?
      && U64Field(ev.value, "timestamp").Some?
      && ParseU64(ev.ledger).Some?
    ensures r == Err(MissingEpoch) <==> U64Field(ev.value, "epoch").None?
    ensures r.Ok? ==>
      && r.value.epoch == U64Field(ev.value, "epoch").value
      && r.value.hash == StrField(ev.value, "hash").value
      && r.value.timestamp == U64Field(ev.value, "timestamp").value
      && r.value.ledger == ParseU64(ev.ledger).value
      && r.value.transactionHash == ev.id
      && r.value.contractId == ev.contractId
      && r.value.eventType == SNAP_SUB
  {
    match U64Field(ev.value, "epoch")
    case None => Err(MissingEpoch)
    case Some(epoch) =>
      match StrField(ev.value, "hash")
      case None => Err(MissingHash)
      case Some(hash) =>
        match U64Field(ev.value, "timestamp")
        case None => Err(MissingTimestamp)
        case Some(timestamp) =>
          match ParseU64(ev.ledger)
          case None => Err(InvalidLedger)
          case Some(ledger) => Ok(SnapshotEvent(epoch, hash, timestamp, ledger, ev.id, ev.contractId, SNAP_SUB))
  }

  /** The event a contract emits for a submission, as the RPC node reports it. */
  function EncodeSnapshotEvent(s: SnapshotEvent, ledgerClosedAt: string, pagingToken: string): ContractEvent {
    var payload := map["epoch" := Int(s.epoch), "hash" := Str(s.hash), "timestamp" := Int(s.timestamp)];
    ContractEvent("contract", ToDecimal(s.ledger), ledgerClosedAt, s.contractId, s.transactionHash,
                  pagingToken, [SNAP_SUB], Object(payload))
  }

  /** Every snapshot submission survives the trip through the RPC encoding. */
  lemma DecodeEncodeSnapshot(s: SnapshotEvent, ledgerClosedAt: string, pagingToken: string)
    requires s.eventType == SNAP_SUB
    ensures DecodeSnapshotEvent(EncodeSnapshotEvent(s, ledgerClosedAt, pagingToken)) == Ok(s)
  {
    ParseToDecimal(s.ledger);
  }

  /** What `process_event` does with one event: `Ok(None)` when it is not a
      snapshot submission (ignored), `Ok(Some(s))` when it is one and decodes,
      the decoding error otherwise. */
  function Outcome(ev: ContractEvent): (r: Result<Option<SnapshotEvent>, ProcessError>)
    ensures r == Ok(None) <==> SNAP_SUB !in ev.topic
    ensures SNAP_SUB in ev.topic ==> (r.Ok? <==> DecodeSnapshotEvent(ev).Ok?)
    ensures r.Ok? && r.value.Some? ==> Ok(r.value.value) == DecodeSnapshotEvent(ev)
  {
    if SNAP_SUB !in ev.topic then Ok(None)
    else
      match DecodeSnapshotEvent(ev)
      case Err(e) => Err(e)
      case Ok(s) => Ok(Some(s))
  }

  /** The row `store_snapshot_event` writes: the transaction hash is also the
      primary key, `created_at` is the current time, and the columns the
      statement does not name are NULL. */
  function StoredRow(s: SnapshotEvent, now: Time): (row: EventRow)
    ensures row.event.id == s.transactionHash && row.event.transactionHash == s.transactionHash
    ensures row.event.epoch == Some(s.epoch) && row.event.hash == Some(s.hash)
    ensures row.event.verificationStatus.None? && row.verifiedAt.None?
  {
    EventRow(IndexedEvent(s.transactionHash, s.contractId, s.eventType, Some(s.epoch), Some(s.hash),
                          Some(s.timestamp), s.ledger, s.transactionHash, now, None), None)
  }

  /** One row of `get_recent_events`: the NOT NULL columns always read, the
      nullable ones fail on NULL, in the order the struct literal reads them. */
  function ReadRow(e: IndexedEvent): (r: Result<SnapshotEvent, ReadError>)
    ensures r.Ok? <==> e.epoch.Some? && e.hash.Some? && e.timestamp.Some?
    ensures r.Ok? ==>
      && Some(r.value.epoch) == e.epoch && Some(r.value.hash) == e.hash
      && Some(r.value.timestamp) == e.timestamp && r.value.ledger == e.ledger
      && r.value.transactionHash == e.transactionHash && r.value.contractId == e.contractId
      && r.value.eventType == e.eventType
  {
    if e.epoch.None? then Err(NullColumn("epoch"))
    else if e.hash.None? then Err(NullColumn("hash"))
    else if e.timestamp.None? then Err(NullColumn("timestamp"))
    else Ok(SnapshotEvent(e.epoch.value, e.hash.value, e.timestamp.value, e.ledger,
                          e.transactionHash, e.contractId, e.eventType))
  }

  /** A stored submission reads back as the submission. */
  lemma ReadStoredRow(s: SnapshotEvent, now: Time)
    ensures ReadRow(StoredRow(s, now).event) == Ok(s)
  {
  }

  // ---------------------------------------------------------------------
  // Verification against the snapshots table

  /** `SELECT ... FROM snapshots WHERE epoch = ? ORDER BY created_at DESC LIMIT 1`:
      the position of the newest row of the epoch; among rows created at the
      same instant the first in table order is taken. */
  function NewestIndex(snaps: seq<SnapshotRow>, epoch: U64): (r: Option<nat>)
    ensures r.None? <==> forall i :: 0 <= i < |snaps| ==> snaps[i].epoch != epoch
    ensures r.Some? ==> r.value < |snaps| && snaps[r.value].epoch == epoch
    ensures r.Some? ==> forall i :: 0 <= i < |snaps| && snaps[i].epoch == epoch ==>
      snaps[i].createdAt <= snaps[r.value].createdAt
    ensures r.Some? ==> forall i :: 0 <= i < r.value && snaps[i].epoch == epoch ==>
      snaps[i].createdAt < snaps[r.value].createdAt
  {
    if snaps == [] then None
    else
      var n := |snaps| - 1;
      var prev := NewestIndex(snaps[..n], epoch);
      if snaps[n].epoch == epoch && (prev.None? || snaps[prev.value].createdAt < snaps[n].createdAt)
      then Some(n)
      else prev
  }

  /** The newest row only depends on the epochs and creation times. */
  lemma NewestIndexByKeys(a: seq<SnapshotRow>, b: seq<SnapshotRow>, epoch: U64)
    requires |a| == |b|
    requires forall i :: 0 <= i < |a| ==> a[i].epoch == b[i].epoch && a[i].createdAt == b[i].createdAt
    ensures NewestIndex(a, epoch) == NewestIndex(b, epoch)
  {
  }

  function StatusText(verified: bool): string {
    if verified then "verified" else "failed"
  }

  /** `UPDATE snapshots SET verification_status = ?, verified_at = ? WHERE epoch = ?`. */
  function MarkEpoch(snaps: seq<SnapshotRow>, epoch: U64, verified: bool, now: Time): (r: seq<SnapshotRow>)
    ensures |r| == |snaps|
    ensures forall i :: 0 <= i < |r| && snaps[i].epoch == epoch ==>
      r[i] == snaps[i].(verificationStatus := Some(StatusText(verified)), verifiedAt := Some(now))
    ensures forall i :: 0 <= i < |r| && snaps[i].epoch != epoch ==> r[i] == snaps[i]
  {
    seq(|snaps|, i requires 0 <= i < |snaps| =>
      if snaps[i].epoch == epoch
      then snaps[i].(verificationStatus := Some(StatusText(verified)), verifiedAt := Some(now))
      else snaps[i])
  }

  /** `verify_snapshot_with_backend` on the table: the verdict, and the table
      after it. */
  function Verify(snaps: seq<SnapshotRow>, epoch: U64, onChainHash: string, now: Time): (r: (seq<SnapshotRow>, bool))
    ensures r.1 <==> exists i :: 0 <= i < |snaps| && NewestIndex(snaps, epoch) == Some(i) && snaps[i].hash == onChainHash
    ensures NewestIndex(snaps, epoch).None? ==> r.0 == snaps
    ensures NewestIndex(snaps, epoch).Some? ==> r.0 == MarkEpoch(snaps, epoch, r.1, now)
  {
    match NewestIndex(snaps, epoch)
    case None => (snaps, false)
    case Some(i) =>
      var verified := snaps[i].hash == onChainHash;
      (MarkEpoch(snaps, epoch, verified, now), verified)
  }

  /** After a verification with a snapshot present, every row of the epoch
      carries the verdict, and no other row changed. */
  lemma VerifyMarksEpoch(snaps: seq<SnapshotRow>, epoch: U64, onChainHash: string, now: Time)
    requires exists i :: 0 <= i < |snaps| && snaps[i].epoch == epoch
    ensures var (after, ok) := Verify(snaps, epoch, onChainHash, now);
      && |after| == |snaps|
      && (forall i :: 0 <= i < |snaps| && snaps[i].epoch == epoch ==>
            after[i].verificationStatus == Some(if ok then "verified" else "failed"))
      && (forall i :: 0 <= i < |snaps| && snaps[i].epoch != epoch ==> after[i] == snaps[i])
  {
  }

  /** Verifying the same hash again, at the same or a later instant, gives
      the same verdict and leaves every row as the first verification left it
      except for `verified_at`, which is stamped anew; at the same instant
      nothing changes at all. */
  lemma {:induction false} ReverifyKeepsVerdict(snaps: seq<SnapshotRow>, epoch: U64, onChainHash: string,
                                                now1: Time, now2: Time)
    ensures var (once, ok) := Verify(snaps, epoch, onChainHash, now1);
      var (twice, ok2) := Verify(once, epoch, onChainHash, now2);
      && ok2 == ok
      && |twice| == |once|
      && (forall i :: 0 <= i < |once| ==> twice[i].(verifiedAt := once[i].verifiedAt) == once[i])
      && (now1 == now2 ==> twice == once)
  {
    var (once, ok) := Verify(snaps, epoch, onChainHash, now1);
    if NewestIndex(snaps, epoch).Some? {
      NewestIndexByKeys(snaps, once, epoch);
      var twice := MarkEpoch(once, epoch, ok, now2);
      forall i | 0 <= i < |once| ensures twice[i].(verifiedAt := once[i].verifiedAt) == once[i] {
      }
      if now1 == now2 {
        assert twice == once;
      }
    }
  }

  // ---------------------------------------------------------------------
  // Effects of a batch on the tables

  /** The tables after `process_event(ev)`: an ignored or undecodable event
      changes nothing; a decoded submission is stored under its id, which
      keeps ids unique, and its epoch verified. */
  function ApplyEvent(t: Tables, ev: ContractEvent, now: Time): (r: Tables)
    ensures Outcome(ev).Err? || Outcome(ev) == Ok(None) ==> r == t
    ensures UniqueIds(t.contractEvents) ==> UniqueIds(r.contractEvents)
    ensures |r.contractEvents| <= |t.contractEvents| + 1 && |r.snapshots| == |t.snapshots|
    ensures Outcome(ev).Ok? && Outcome(ev).value.Some? ==>
      FindById(r.contractEvents, ev.id) == Some(StoredRow(Outcome(ev).value.value, now).event)
  {
    match Outcome(ev)
    case Err(_) => t
    case Ok(None) => t
    case Ok(Some(s)) =>
      Tables(Upsert(t.contractEvents, StoredRow(s, now)), Verify(t.snapshots, s.epoch, s.hash, now).0)
  }

  /** The tables after processing `evs` in order: ids stay unique, each event
      adds at most one row, and the snapshots table keeps its rows. */
  function ApplyBatch(t: Tables, evs: seq<ContractEvent>, now: Time): (r: Tables)
    ensures UniqueIds(t.contractEvents) ==> UniqueIds(r.contractEvents)
    ensures |r.contractEvents| <= |t.contractEvents| + |evs|
    ensures |r.snapshots| == |t.snapshots|
  {
    if evs == [] then t
    else ApplyEvent(ApplyBatch(t, evs[..|evs| - 1], now), evs[|evs| - 1], now)
  }

  /** How many events of `evs` were processed without an error. */
  function CountOk(evs: seq<ContractEvent>): (n: nat)
    ensures n <= |evs|
    ensures n == |evs| <==> forall i :: 0 <= i < |evs| ==> Outcome(evs[i]).Ok?
  {
    if evs == [] then 0
    else
      var init := evs[..|evs| - 1];
      var n := CountOk(init) + (if Outcome(evs[|evs| - 1]).Ok? then 1 else 0);
      assert forall i :: 0 <= i < |init| ==> init[i] == evs[i];
      n
  }

  /** One more event: the batch effect and the success count extend by that
      event's effect and outcome. */
  lemma BatchStep(t: Tables, evs: seq<ContractEvent>, i: nat, now: Time,
                  pre: Tables, post: Tables, ok: bool, n: nat)
    requires i < |evs|
    requires pre == ApplyBatch(t, evs[..i], now) && post == ApplyEvent(pre, evs[i], now)
    requires ok == Outcome(evs[i]).Ok? && n == CountOk(evs[..i])
    ensures post == ApplyBatch(t, evs[..i + 1], now)
    ensures n + (if ok then 1 else 0) == CountOk(evs[..i + 1])
  {
    assert evs[..i + 1][..i] == evs[..i];
  }

  /** An event that is not a snapshot submission, or one that does not decode,
      leaves both tables as they were. */
  lemma IgnoredEventChangesNothing(t: Tables, ev: ContractEvent, now: Time)
    requires SNAP_SUB !in ev.topic || DecodeSnapshotEvent(ev).Err?
    ensures ApplyEvent(t, ev, now) == t
  {
  }

  /** A stored submission is what `get_event_by_id` then finds under its id,
      and the table keeps one row per id. */
  lemma StoredEventIsFound(t: Tables, ev: ContractEvent, now: Time)
    requires UniqueIds(t.contractEvents)
    requires SNAP_SUB in ev.topic && DecodeSnapshotEvent(ev).Ok?
    ensures var after := ApplyEvent(t, ev, now);
      && UniqueIds(after.contractEvents)
      && FindById(after.contractEvents, ev.id) == Some(StoredRow(DecodeSnapshotEvent(ev).value, now).event)
      && FindById(after.contractEvents, ev.id).value.eventType == SNAP_SUB
  {
  }

  /** Processing an event again at a later poll: every id finds what it
      found before, except the event's own id, whose row is written anew with
      the later time; ids stay unique; the snapshots keep their statuses and
      only `verified_at` is stamped anew. At the same instant nothing changes. */
  lemma ReprocessEvent(t: Tables, ev: ContractEvent, now1: Time, now2: Time)
    ensures var once := ApplyEvent(t, ev, now1);
      var twice := ApplyEvent(once, ev, now2);
      && (UniqueIds(t.contractEvents) ==> UniqueIds(twice.contractEvents))
      && (forall id :: id != ev.id ==> FindById(twice.contractEvents, id) == FindById(once.contractEvents, id))
      && (FindById(twice.contractEvents, ev.id).Some? <==> FindById(once.contractEvents, ev.id).Some?)
      && (Outcome(ev).Ok? && Outcome(ev).value.Some? ==>
            FindById(twice.contractEvents, ev.id) == Some(StoredRow(Outcome(ev).value.value, now2).event))
      && |twice.snapshots| == |once.snapshots|
      && (forall i :: 0 <= i < |once.snapshots| ==>
            twice.snapshots[i].(verifiedAt := once.snapshots[i].verifiedAt) == once.snapshots[i])
      && (now1 == now2 ==> twice == once)
  {
    match Outcome(ev)
    case Err(_) =>
    case Ok(None) =>
    case Ok(Some(s)) =>
      var once := ApplyEvent(t, ev, now1);
      forall id | id != ev.id
        ensures FindById(ApplyEvent(once, ev, now2).contractEvents, id) == FindById(once.contractEvents, id)
      {
        UpsertKeepsOthers(once.contractEvents, StoredRow(s, now2), id);
      }
      ReverifyKeepsVerdict(t.snapshots, s.epoch, s.hash, now1, now2);
      if now1 == now2 {
        UpsertIdempotent(t.contractEvents, StoredRow(s, now1));
      }
  }

  // ---------------------------------------------------------------------
  // The ledger cursor

  /** The range `poll_for_events` asks for when the node reports `current`:
      none when there is no new ledger. */
  function PollRange(last: U64, current: U64): (r: Option<(U64, U64)>)
    ensures r.None? <==> current <= last
    ensures r.Some? ==> r.value.0 == last + 1 && r.value.1 == current && r.value.0 <= r.value.1
  {
    if current <= last then None else Some((last + 1, current))
  }

  /** The cursor after one poll that saw `poll` as the latest ledger (`None`
      when one of its RPC calls failed): it moves forward only. */
  function Advance(last: U64, poll: Option<U64>): (next: U64)
    ensures next >= last
  {
    match poll
    case None => last
    case Some(current) => if current <= last then last else current
  }

  /** The cursor after a run of polls. `polls[k]` is the latest ledger seen
      by a poll whose two RPC calls both succeeded, `None` for one that failed. */
  function CursorAfter(start: U64, polls: seq<Option<U64>>): (c: U64)
    ensures c >= start
  {
    if polls == [] then start
    else Advance(CursorAfter(start, polls[..|polls| - 1]), polls[|polls| - 1])
  }

  /** Whether ledger `l` was in a range fetched by one of the polls. */
  predicate WasFetched(start: U64, polls: seq<Option<U64>>, l: int) {
    if polls == [] then false
    else
      var init := polls[..|polls| - 1];
      var before := CursorAfter(start, init);
      var poll := polls[|polls| - 1];
      || WasFetched(start, init, l)
      || (poll.Some? && PollRange(before, poll.value).Some? && before + 1 <= l <= poll.value)
  }

  /** The polls fetch every ledger after the start up to the cursor, and no
      other: no ledger is skipped. */
  lemma {:induction false} FetchedIsContiguous(start: U64, polls: seq<Option<U64>>, l: int)
    ensures WasFetched(start, polls, l) <==> start < l <= CursorAfter(start, polls)
  {
    if polls != [] {
      FetchedIsContiguous(start, polls[..|polls| - 1], l);
    }
  }

  /** The next poll's range lies wholly beyond everything fetched so far:
      no ledger is fetched twice. */
  lemma NoLedgerFetchedTwice(start: U64, polls: seq<Option<U64>>, current: U64, l: int)
    requires PollRange(CursorAfter(start, polls), current).Some?
    requires PollRange(CursorAfter(start, polls), current).value.0 <= l
    ensures !WasFetched(start, polls, l)
  {
    FetchedIsContiguous(start, polls, l);
  }

  // ---------------------------------------------------------------------
  // The listener

  class ContractEventListener {
    const config: ListenerConfig
    const db: Database
    var lastLedger: U64

    /** `ContractEventListener::new`: the cursor starts at the configured
        start ledger, or 0. */
    constructor(config: ListenerConfig, db: Database)
      ensures this.config == config && this.db == db
      ensures lastLedger == config.startLedger.GetOr(0)
    {
      this.config := config;
      this.db := db;
      lastLedger := config.startLedger.GetOr(0);
    }

    ghost predicate Valid()
      reads db
    {
      UniqueIds(db.contractEvents)
    }

    /** The opening step of `start_listening`: a cursor still at 0 moves to
        the latest ledger; if that call fails the cursor stays at 0. */
    method ResolveStartLedger(latest: Result<U64, RpcError>) returns (r: Result<U64, RpcError>)
      modifies this
      ensures old(lastLedger) != 0 ==> lastLedger == old(lastLedger) && r == Ok(lastLedger)
      ensures old(lastLedger) == 0 && latest.Ok? ==> lastLedger == latest.value && r == latest
      ensures old(lastLedger) == 0 && latest.Err? ==> lastLedger == 0 && r == latest
    {
      if lastLedger == 0 {
        if latest.Err? {
          return Err(latest.error);
        }
        lastLedger := latest.value;
      }
      return Ok(lastLedger);
    }

    /** `poll_for_events`. `latest` is the answer to `getLatestLedger`;
        `fetch(start, end)` the answer to `getEvents` for that range. */
    method PollForEvents(latest: Result<U64, RpcError>,
                         fetch: (U64, U64) -> Result<seq<ContractEvent>, RpcError>,
                         now: Time)
      returns (r: Result<nat, RpcError>)
      requires Valid()
      modifies this, db
      ensures Valid()
      ensures lastLedger >= old(lastLedger)
      ensures latest.Err? ==>
        r == Err(latest.error) && lastLedger == old(lastLedger) && db.Contents() == old(db.Contents())
      ensures latest.Ok? && latest.value <= old(lastLedger) ==>
        r == Ok(0) && lastLedger == old(lastLedger) && db.Contents() == old(db.Contents())
      ensures latest.Ok? && latest.value > old(lastLedger) ==>
        var fetched := fetch(old(lastLedger) + 1, latest.value);
        && (fetched.Err? ==>
              r == Err(fetched.error) && lastLedger == old(lastLedger) && db.Contents() == old(db.Contents()))
        && (fetched.Ok? ==>
              && r == Ok(CountOk(fetched.value))
              && lastLedger == latest.value
              && db.Contents() == ApplyBatch(old(db.Contents()), fetched.value, now))
      ensures r.Ok? ==> lastLedger == Advance(old(lastLedger), Some(latest.value))
    {
      if latest.Err? {
        return Err(latest.error);
      }
      var current := latest.value;
      if current <= lastLedger {
        return Ok(0);
      }
      var range := PollRange(lastLedger, current);
      var fetched := fetch(range.value.0, range.value.1);
      if fetched.Err? {
        return Err(fetched.error);
      }
      var processed := ProcessBatch(fetched.value, now);
      lastLedger := current;
      return Ok(processed);
    }

    /** The loop of `poll_for_events`: every event is processed in order; a
        failing event is skipped and the others still run. */
    method ProcessBatch(events: seq<ContractEvent>, now: Time) returns (processed: nat)
      requires Valid()
      modifies db
      ensures Valid()
      ensures processed == CountOk(events)
      ensures db.Contents() == ApplyBatch(old(db.Contents()), events, now)
    {
      ghost var before := db.Contents();
      processed := 0;
      var i := 0;
      while i < |events|
        invariant 0 <= i <= |events|
        invariant Valid()
        invariant db.Contents() == ApplyBatch(before, events[..i], now)
        invariant processed == CountOk(events[..i])
      {
        processed := ProcessNext(events, i, processed, before, now);
        i := i + 1;
      }
      assert events[..i] == events;
    }

    /** One pass of the batch loop: event `i` is processed and counted when
        it succeeds. */
    method ProcessNext(events: seq<ContractEvent>, i: nat, processed: nat, ghost before: Tables, now: Time)
      returns (count: nat)
      requires i < |events| && Valid()
      requires db.Contents() == ApplyBatch(before, events[..i], now)
      requires processed == CountOk(events[..i])
      modifies db
      ensures Valid()
      ensures db.Contents() == ApplyBatch(before, events[..i + 1], now)
      ensures count == CountOk(events[..i + 1])
    {
      ghost var pre := db.Contents();
      var res := ProcessEvent(events[i], now);
      BatchStep(before, events, i, now, pre, db.Contents(), res.Ok?, processed);
      count := if res.Ok? then processed + 1 else processed;
    }

    /** `process_event`: snapshot submissions are decoded, stored and
        verified; any other event is skipped successfully. */
    method ProcessEvent(ev: ContractEvent, now: Time) returns (r: Result<(), ProcessError>)
      requires Valid()
      modifies db
      ensures Valid()
      ensures r.Ok? <==> Outcome(ev).Ok?
      ensures db.Contents() == ApplyEvent(old(db.Contents()), ev, now)
    {
      if SNAP_SUB in ev.topic {
        r := ProcessSnapshotEvent(ev, now);
      } else {
        r := Ok(());
      }
    }

    /** `process_snapshot_event`: decode; on success store, then verify. */
    method ProcessSnapshotEvent(ev: ContractEvent, now: Time) returns (r: Result<(), ProcessError>)
      requires Valid()
      requires SNAP_SUB in ev.topic
      modifies db
      ensures Valid()
      ensures r.Ok? <==> DecodeSnapshotEvent(ev).Ok?
      ensures DecodeSnapshotEvent(ev).Err? ==> r == Err(DecodeSnapshotEvent(ev).error)
      ensures db.Contents() == ApplyEvent(old(db.Contents()), ev, now)
    {
      var decoded := DecodeSnapshotEvent(ev);
      if decoded.Err? {
        return Err(decoded.error);
      }
      var s := decoded.value;
      StoreSnapshotEvent(s, now);
      var _ := VerifySnapshotWithBackend(s.epoch, s.hash, now);
      return Ok(());
    }

    /** `store_snapshot_event`: INSERT OR REPLACE keyed by the transaction hash. */
    method StoreSnapshotEvent(s: SnapshotEvent, now: Time)
      requires Valid()
      modifies db
      ensures Valid()
      ensures db.contractEvents == Upsert(old(db.contractEvents), StoredRow(s, now))
      ensures db.snapshots == old(db.snapshots)
      ensures FindById(db.contractEvents, s.transactionHash) == Some(StoredRow(s, now).event)
    {
      db.contractEvents := Upsert(db.contractEvents, StoredRow(s, now));
    }

    /** `verify_snapshot_with_backend`: true iff the epoch has a snapshot and
        the newest one's hash equals the on-chain hash exactly; with a
        snapshot present every row of the epoch is stamped, without one
        nothing changes. */
    method VerifySnapshotWithBackend(epoch: U64, onChainHash: string, now: Time) returns (verified: bool)
      modifies db
      ensures (db.snapshots, verified) == Verify(old(db.snapshots), epoch, onChainHash, now)
      ensures db.contractEvents == old(db.contractEvents)
      ensures NewestIndex(old(db.snapshots), epoch).None? ==> !verified && db.snapshots == old(db.snapshots)
    {
      var newest := NewestIndex(db.snapshots, epoch);
      if newest.None? {
        return false;
      }
      verified := db.snapshots[newest.value].hash == onChainHash;
      UpdateVerificationStatus(epoch, verified, now);
    }

    /** `update_verification_status` (of the listener): stamps every
        snapshot row of the epoch. */
    method UpdateVerificationStatus(epoch: U64, verified: bool, now: Time)
      modifies db
      ensures db.snapshots == MarkEpoch(old(db.snapshots), epoch, verified, now)
      ensures db.contractEvents == old(db.contractEvents)
    {
      db.snapshots := MarkEpoch(db.snapshots, epoch, verified, now);
    }

    /** `verify_snapshot`: `onChain` is the answer of the contract's
        `get_snapshot` (a hash, none, or a failure). */
    method VerifySnapshot(epoch: U64, onChain: Result<Option<string>, RpcError>, now: Time)
      returns (r: Result<bool, RpcError>)
      modifies db
      ensures onChain.Err? ==> r == Err(onChain.error) && db.snapshots == old(db.snapshots)
      ensures onChain == Ok(None) ==> r == Ok(false) && db.snapshots == old(db.snapshots)
      ensures onChain.Ok? && onChain.value.Some? ==>
        r.Ok? && (db.snapshots, r.value) == Verify(old(db.snapshots), epoch, onChain.value.value, now)
      ensures db.contractEvents == old(db.contractEvents)
    {
      if onChain.Err? {
        return Err(onChain.error);
      }
      if onChain.value.None? {
        return Ok(false);
      }
      var verified := VerifySnapshotWithBackend(epoch, onChain.value.value, now);
      return Ok(verified);
    }

    /** `get_recent_events`. */
    method GetRecentEvents(limit: int) returns (r: Result<seq<SnapshotEvent>, ReadError>)
      ensures r == ReadAll(RecentRows(db, limit))
    {
      r := ReadRecentEvents(db, limit);
    }
  }

  /** The rows `get_recent_events` selects: the `limit` most recently created
      rows (all when negative), newest first. */
  function RecentRows(db: Database, limit: int): (rows: seq<IndexedEvent>)
    reads db
    ensures forall e :: e in rows ==> e in Events(db.contractEvents)
    ensures IsTopRows(rows, Events(db.contractEvents), CreatedAtDesc, limit)
    ensures rows != [] ==> forall e :: e in Events(db.contractEvents) ==> e.createdAt <= rows[0].createdAt
  {
    var all := Events(db.contractEvents);
    var rows := Select(all, CreatedAtDesc, Some(limit), None);
    if rows != [] then
      TopRowsFirst(rows, all, CreatedAtDesc, limit);
      rows
    else rows
  }

  /** Converting rows one by one: the first row with a NULL in a nullable
      column ends the call with that error. */
  function ReadAll(rows: seq<IndexedEvent>): (r: Result<seq<SnapshotEvent>, ReadError>)
    ensures r.Ok? <==> forall i :: 0 <= i < |rows| ==> ReadRow(rows[i]).Ok?
    ensures r.Ok? ==> |r.value| == |rows| && forall i :: 0 <= i < |rows| ==> ReadRow(rows[i]) == Ok(r.value[i])
  {
    if rows == [] then Ok([])
    else
      match ReadRow(rows[0])
      case Err(e) => Err(e)
      case Ok(first) =>
        match ReadAll(rows[1..])
        case Err(e) =>
          assert !forall i :: 0 <= i < |rows| - 1 ==> ReadRow(rows[1..][i]).Ok?;
          Err(e)
        case Ok(more) =>
          assert forall i :: 1 <= i < |rows| ==> rows[i] == rows[1..][i - 1];
          Ok([first] + more)
  }

  /** The error reported is the one of the first unreadable row. */
  lemma {:induction false} ReadAllFirstError(rows: seq<IndexedEvent>, i: nat)
    requires i < |rows| && ReadRow(rows[i]).Err?
    requires forall k :: 0 <= k < i ==> ReadRow(rows[k]).Ok?
    ensures ReadAll(rows) == Err(ReadRow(rows[i]).error)
  {
    if i > 0 {
      assert ReadRow(rows[0]).Ok?;
      ReadAllFirstError(rows[1..], i - 1);
    }
  }

  /** `get_recent_events` on the shared database. */
  method ReadRecentEvents(db: Database, limit: int) returns (r: Result<seq<SnapshotEvent>, ReadError>)
    ensures r == ReadAll(RecentRows(db, limit))
  {
    r := ReadRows(RecentRows(db, limit));
  }

  /** The row loop of `get_recent_events`: converts and pushes each row. */
  method ReadRows(rows: seq<IndexedEvent>) returns (r: Result<seq<SnapshotEvent>, ReadError>)
    ensures r == ReadAll(rows)
  {
    var events: seq<SnapshotEvent> := [];
    var i := 0;
    while i < |rows|
      invariant 0 <= i <= |rows|
      invariant |events| == i
      invariant forall k :: 0 <= k < i ==> ReadRow(rows[k]) == Ok(events[k])
    {
      var read := ReadRow(rows[i]);
      if read.Err? {
        ReadAllFirstError(rows, i);
        return Err(read.error);
      }
      events := events + [read.value];
      i := i + 1;
    }
    var all := ReadAll(rows);
    assert all.Ok?;
    assert forall k :: 0 <= k < |rows| ==> all.value[k] == events[k];
    assert all.value == events;
    return Ok(events);
  }
}
