/** The two SQLite tables the core reads and writes, as in-memory state:
    `contract_events` (rows keyed by `id`) and `snapshots` (rows written by the
    snapshot pipeline, several per epoch possible). */
module Storage {
  import opened Wrappers
  import opened Numbers
  import opened Seqs

  /** An instant, in seconds (chrono's `DateTime<Utc>`). */
  type Time = int

  const SECONDS_PER_DAY: int := 86400

  /** `IndexedEvent`: one row of `contract_events` as the indexer reads it. */
  datatype IndexedEvent = IndexedEvent(
    id: string,
    contractId: string,
    eventType: string,
    epoch: Option<U64>,
    hash: Option<string>,
    timestamp: Option<U64>,
    ledger: U64,
    transactionHash: string,
    createdAt: Time,
    verificationStatus: Option<string>)

  /** A stored row: the event's columns plus `verified_at`, which only the
      status update writes and no read returns. */
  datatype EventRow = EventRow(event: IndexedEvent, verifiedAt: Option<Time>)

  /** One row of `snapshots`. */
  datatype SnapshotRow = SnapshotRow(
    epoch: U64,
    hash: string,
    canonicalJson: string,
    createdAt: Time,
    verificationStatus: Option<string>,
    verifiedAt: Option<Time>)

  datatype Tables = Tables(contractEvents: seq<EventRow>, snapshots: seq<SnapshotRow>)

  /** The shared database handle (`Arc<Database>`): both the listener and the
      indexer hold the same object. */
  class Database {
    var contractEvents: seq<EventRow>
    var snapshots: seq<SnapshotRow>

    function Contents(): Tables
      reads this
    {
      Tables(contractEvents, snapshots)
    }
  }

  /** `id` is the primary key of `contract_events`. */
  ghost predicate UniqueIds(rows: seq<EventRow>) {
    forall i, j :: 0 <= i < j < |rows| ==> rows[i].event.id != rows[j].event.id
  }

  /** The events of the table, in table order. */
  function Events(rows: seq<EventRow>): (es: seq<IndexedEvent>)
    ensures |es| == |rows|
    ensures forall i :: 0 <= i < |rows| ==> es[i] == rows[i].event
  {
    seq(|rows|, i requires 0 <= i < |rows| => rows[i].event)
  }

  /** `SELECT ... WHERE id = ?`. */
  function FindById(rows: seq<EventRow>, id: string): (r: Option<IndexedEvent>)
    ensures r.None? <==> forall i :: 0 <= i < |rows| ==> rows[i].event.id != id
    ensures r.Some? ==> r.value.id == id && r.value in Events(rows)
  {
    if rows == [] then None
    else if rows[0].event.id == id then Some(rows[0].event)
    else
      var r := FindById(rows[1..], id);
      assert r.Some? ==> r.value in Events(rows) by {
        if r.Some? {
          var k :| 0 <= k < |rows[1..]| && Events(rows[1..])[k] == r.value;
          assert Events(rows)[k + 1] == r.value;
        }
      }
      r
  }

  /** With unique ids the row found is the only one with that id. */
  lemma FindByIdUnique(rows: seq<EventRow>, i: nat)
    requires UniqueIds(rows) && i < |rows|
    ensures FindById(rows, rows[i].event.id) == Some(rows[i].event)
  {
    if i > 0 {
      assert rows[0].event.id != rows[i].event.id;
      FindByIdUnique(rows[1..], i - 1);
    }
  }

  /** A row appended after rows of other ids is the one found by its id. */
  lemma {:induction false} FindAppended(rows: seq<EventRow>, row: EventRow)
    requires forall i :: 0 <= i < |rows| ==> rows[i].event.id != row.event.id
    ensures FindById(rows + [row], row.event.id) == Some(row.event)
  {
    if rows != [] {
      FindAppended(rows[1..], row);
      assert (rows + [row])[1..] == rows[1..] + [row];
    }
  }

  /** The rows whose id differs from `id`, as a filter condition. */
  function OtherId(id: string): EventRow -> bool {
    (r: EventRow) => r.event.id != id
  }

  function Without(rows: seq<EventRow>, id: string): seq<EventRow> {
    Filter(rows, OtherId(id))
  }

  lemma {:induction false} FilterKeepsUniqueIds(rows: seq<EventRow>, p: EventRow -> bool)
    requires UniqueIds(rows)
    ensures UniqueIds(Filter(rows, p))
  {
    if rows != [] {
      var tail := rows[1..];
      FilterKeepsUniqueIds(tail, p);
      var t := Filter(tail, p);
      if p(rows[0]) {
        var r := Filter(rows, p);
        assert r == [rows[0]] + t;
        forall j | 0 < j < |r| ensures r[0].event.id != r[j].event.id {
          assert r[j] in tail;
          var k :| 0 <= k < |tail| && tail[k] == r[j];
          assert rows[k + 1] == r[j];
        }
      }
    }
  }

  /** `INSERT OR REPLACE` keyed by the primary key: the row with the same id,
      if any, is deleted and the new row is added. */
  function Upsert(rows: seq<EventRow>, row: EventRow): (r: seq<EventRow>)
    ensures UniqueIds(rows) ==> UniqueIds(r)
    ensures FindById(r, row.event.id) == Some(row.event)
    ensures forall x :: x in r <==> x == row || (x in rows && x.event.id != row.event.id)
    ensures |r| <= |rows| + 1
  {
    var kept := Without(rows, row.event.id);
    UpsertFacts(rows, row);
    kept + [row]
  }

  /** Dropping the rows of id `k` leaves what any other id finds unchanged. */
  lemma {:induction false} FindWithout(rows: seq<EventRow>, k: string, id: string)
    requires id != k
    ensures FindById(Without(rows, k), id) == FindById(rows, id)
  {
    if rows != [] {
      var w, tail := Without(rows, k), Without(rows[1..], k);
      FindWithout(rows[1..], k, id);
      if rows[0].event.id == k {
        assert w == tail;
      } else {
        assert w == [rows[0]] + tail;
        assert w[0] == rows[0] && w[1..] == tail;
      }
    }
  }

  /** A row appended after the others is not what a different id finds. */
  lemma {:induction false} FindBeforeAppended(rows: seq<EventRow>, row: EventRow, id: string)
    requires id != row.event.id
    ensures FindById(rows + [row], id) == FindById(rows, id)
  {
    if rows != [] {
      FindBeforeAppended(rows[1..], row, id);
      assert (rows + [row])[1..] == rows[1..] + [row];
    }
  }

  /** Writing a row leaves what every other id finds unchanged. */
  lemma UpsertKeepsOthers(rows: seq<EventRow>, row: EventRow, id: string)
    requires id != row.event.id
    ensures FindById(Upsert(rows, row), id) == FindById(rows, id)
  {
    FindWithout(rows, row.event.id, id);
    FindBeforeAppended(Without(rows, row.event.id), row, id);
  }

  lemma UpsertFacts(rows: seq<EventRow>, row: EventRow)
    ensures UniqueIds(rows) ==> UniqueIds(Without(rows, row.event.id) + [row])
    ensures FindById(Without(rows, row.event.id) + [row], row.event.id) == Some(row.event)
  {
    var kept := Without(rows, row.event.id);
    forall i | 0 <= i < |kept| ensures kept[i].event.id != row.event.id { assert kept[i] in kept; }
    FindAppended(kept, row);
    if UniqueIds(rows) {
      FilterKeepsUniqueIds(rows, OtherId(row.event.id));
    }
  }
}
