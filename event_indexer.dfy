/** `EventIndexer`: writes to and reads from the `contract_events` table.
    Writes are methods on the shared database; reads are functions of the
    table's contents (filter, ORDER BY, LIMIT/OFFSET). */
module EventIndexer {
  import opened Wrappers
  import opened Numbers
  import opened Seqs
  import opened Storage

  const SNAP_SUB: string := "SNAP_SUB"

  datatype EventOrderBy = CreatedAtAsc | CreatedAtDesc | LedgerAsc | LedgerDesc | EpochAsc | EpochDesc

  /** `EventQuery`: optional filters, pagination and ordering. Ranges are
      (start, end) pairs. */
  datatype EventQuery = EventQuery(
    contractId: Option<string>,
    eventType: Option<string>,
    epoch: Option<U64>,
    hash: Option<string>,
    ledgerRange: Option<(U64, U64)>,
    timeRange: Option<(Time, Time)>,
    verificationStatus: Option<string>,
    limit: Option<int>,
    offset: Option<int>,
    orderBy: Option<EventOrderBy>)

  /** `EventQuery::default()`. */
  const NoFilters: EventQuery := EventQuery(None, None, None, None, None, None, None, None, None, None)

  /** The WHERE clause of `query_events`: every filter given must hold; SQL
      equality with a NULL column never holds; BETWEEN includes both ends. */
  predicate Matches(e: IndexedEvent, q: EventQuery): (b: bool)
    ensures q == NoFilters ==> b
    ensures q.epoch.Some? && e.epoch.None? ==> !b
    ensures q.hash.Some? && e.hash.None? ==> !b
    ensures q.verificationStatus.Some? && e.verificationStatus.None? ==> !b
    ensures q.ledgerRange.Some? && q.ledgerRange.value.1 < q.ledgerRange.value.0 ==> !b
  {
    && (q.contractId.Some? ==> e.contractId == q.contractId.value)
    && (q.eventType.Some? ==> e.eventType == q.eventType.value)
    && (q.epoch.Some? ==> e.epoch == Some(q.epoch.value))
    && (q.hash.Some? ==> e.hash == Some(q.hash.value))
    && (q.ledgerRange.Some? ==> q.ledgerRange.value.0 <= e.ledger <= q.ledgerRange.value.1)
    && (q.timeRange.Some? ==> q.timeRange.value.0 <= e.createdAt <= q.timeRange.value.1)
    && (q.verificationStatus.Some? ==> e.verificationStatus == Some(q.verificationStatus.value))
  }

  /** The WHERE clause as a filter condition. */
  function Matching(q: EventQuery): IndexedEvent -> bool {
    (e: IndexedEvent) => Matches(e, q)
  }

  /** The WHERE clauses of the preset queries. */
  predicate IsSnapshot(e: IndexedEvent) {
    e.eventType == SNAP_SUB
  }

  function SnapshotWithStatus(status: string): IndexedEvent -> bool {
    (e: IndexedEvent) => e.eventType == SNAP_SUB && e.verificationStatus == Some(status)
  }

  function OfEpoch(epoch: U64): IndexedEvent -> bool {
    (e: IndexedEvent) => e.epoch == Some(epoch)
  }

  function HashStartsWith(prefix: string): IndexedEvent -> bool {
    (e: IndexedEvent) => e.hash.Some? && prefix <= e.hash.value
  }

  /** The ordering applied when the query names none. */
  function OrderOf(q: EventQuery): EventOrderBy {
    q.orderBy.GetOr(CreatedAtDesc)
  }

  /** SQLite sorts NULL before every integer. */
  function EpochKey(e: IndexedEvent): int {
    match e.epoch
    case None => -1
    case Some(n) => n
  }

  /** Sort key: ascending orders use the column, descending ones its negation. */
  function Rank(e: IndexedEvent, order: EventOrderBy): int {
    match order
    case CreatedAtAsc => e.createdAt
    case CreatedAtDesc => 0 - e.createdAt
    case LedgerAsc => e.ledger
    case LedgerDesc => 0 - (e.ledger as int)
    case EpochAsc => EpochKey(e)
    case EpochDesc => 0 - EpochKey(e)
  }

  predicate SortedBy(s: seq<IndexedEvent>, order: EventOrderBy) {
    forall i, j :: 0 <= i < j < |s| ==> Rank(s[i], order) <= Rank(s[j], order)
  }

  function Insert(x: IndexedEvent, s: seq<IndexedEvent>, order: EventOrderBy): (r: seq<IndexedEvent>)
    requires SortedBy(s, order)
    ensures SortedBy(r, order)
    ensures multiset(r) == multiset(s) + multiset{x}
    ensures forall y :: y in r ==> y == x || y in s
  {
    if s == [] then [x]
    else if Rank(x, order) <= Rank(s[0], order) then [x] + s
    else
      var t := Insert(x, s[1..], order);
      InsertAfterHead(x, s, t, order);
      [s[0]] + t
  }

  lemma InsertAfterHead(x: IndexedEvent, s: seq<IndexedEvent>, t: seq<IndexedEvent>, order: EventOrderBy)
    requires s != [] && SortedBy(s, order) && SortedBy(t, order)
    requires Rank(s[0], order) < Rank(x, order)
    requires forall y :: y in t ==> y == x || y in s[1..]
    requires multiset(t) == multiset(s[1..]) + multiset{x}
    ensures SortedBy([s[0]] + t, order)
    ensures multiset([s[0]] + t) == multiset(s) + multiset{x}
    ensures forall y :: y in [s[0]] + t ==> y == x || y in s
  {
    assert s == [s[0]] + s[1..];
    var r := [s[0]] + t;
    forall i, j | 0 <= i < j < |r| ensures Rank(r[i], order) <= Rank(r[j], order) {
      if i == 0 {
        assert r[j] in t;
        if r[j] != x {
          var k :| 0 <= k < |s[1..]| && s[1..][k] == r[j];
          assert s[k + 1] == r[j];
        }
      } else {
        assert r[i] == t[i - 1] && r[j] == t[j - 1];
      }
    }
  }

  /** ORDER BY: a sorted permutation (insertion sort; rows of equal key keep no
      particular order, as in SQL). */
  function SortBy(s: seq<IndexedEvent>, order: EventOrderBy): (r: seq<IndexedEvent>)
    ensures SortedBy(r, order)
    ensures multiset(r) == multiset(s)
  {
    if s == [] then []
    else
      assert s == [s[0]] + s[1..];
      Insert(s[0], SortBy(s[1..], order), order)
  }

  /** Rows skipped by OFFSET: a negative offset counts as zero. */
  function PageStart(n: nat, offset: Option<int>): (o: nat)
    ensures o <= n
  {
    if offset.Some? && offset.value > 0 then Min(offset.value, n) else 0
  }

  /** `LIMIT l [OFFSET o]`; without a limit no offset is applied, and a
      negative limit means no upper bound. */
  function Page<T>(s: seq<T>, limit: Option<int>, offset: Option<int>): (r: seq<T>)
    ensures limit.None? ==> r == s
    ensures limit.Some? ==>
      var o := PageStart(|s|, offset);
      && o + |r| <= |s|
      && r == s[o..o + |r|]
      && |r| == (if limit.value < 0 then |s| - o else Min(limit.value, |s| - o))
  {
    if limit.None? then s
    else
      var o := PageStart(|s|, offset);
      var n := if limit.value < 0 then |s| - o else Min(limit.value, |s| - o);
      s[o..o + n]
  }

  lemma PageOfSorted(s: seq<IndexedEvent>, limit: Option<int>, offset: Option<int>, order: EventOrderBy)
    requires SortedBy(s, order)
    ensures SortedBy(Page(s, limit, offset), order)
    ensures forall x :: x in Page(s, limit, offset) ==> x in s
  {
    var r := Page(s, limit, offset);
    if limit.Some? {
      var o := PageStart(|s|, offset);
      forall x | x in r ensures x in s {
        var k :| 0 <= k < |r| && r[k] == x;
        assert s[o + k] == x;
      }
    }
  }

  /** What `ORDER BY order LIMIT limit` may return from the rows `m`, stated
      without an algorithm: in order, no row more often than `m` holds it, as
      many rows as the limit allows (all of them when it is negative), and no
      row left out sorts before a returned one. */
  ghost predicate IsTopRows(r: seq<IndexedEvent>, m: seq<IndexedEvent>, order: EventOrderBy, limit: int) {
    && SortedBy(r, order)
    && multiset(r) <= multiset(m)
    && |r| == (if limit < 0 then |m| else Min(limit, |m|))
    && forall x, y :: y in r && multiset(r)[x] < multiset(m)[x] ==> Rank(y, order) <= Rank(x, order)
  }

  /** What `ORDER BY order LIMIT limit OFFSET offset` may return from the rows
      `m`: the page of some arrangement of `m` the ORDER BY allows (rows with
      equal keys may come in any order). */
  ghost predicate IsWindow(r: seq<IndexedEvent>, m: seq<IndexedEvent>, order: EventOrderBy,
                           limit: Option<int>, offset: Option<int>) {
    exists s :: SortedBy(s, order) && multiset(s) == multiset(m) && r == Page(s, limit, offset)
  }

  /** A page holds no row more often than the sequence it is cut from. */
  lemma PageWithin<T>(s: seq<T>, limit: Option<int>, offset: Option<int>)
    ensures multiset(Page(s, limit, offset)) <= multiset(s)
  {
    if limit.Some? {
      var r := Page(s, limit, offset);
      var o := PageStart(|s|, offset);
      assert s == s[..o] + r + s[o + |r|..];
      assert multiset(s) == multiset(s[..o]) + multiset(r) + multiset(s[o + |r|..]);
    }
  }

  /** In a sorted sequence, no element after the first `n` sorts before one
      of them. */
  lemma SortedPrefixIsTop(s: seq<IndexedEvent>, n: nat, order: EventOrderBy)
    requires SortedBy(s, order) && n <= |s|
    ensures forall x, y :: y in s[..n] && multiset(s[..n])[x] < multiset(s)[x] ==> Rank(y, order) <= Rank(x, order)
  {
    var r, rest := s[..n], s[n..];
    assert s == r + rest;
    assert multiset(s) == multiset(r) + multiset(rest);
    forall x, y | y in r && multiset(r)[x] < multiset(s)[x]
      ensures Rank(y, order) <= Rank(x, order)
    {
      assert x in multiset(rest);
      var k :| 0 <= k < |rest| && rest[k] == x;
      var j :| 0 <= j < n && r[j] == y;
      assert s[j] == y && s[n + k] == x;
    }
  }

  /** A page of a sorted arrangement of `m` draws on `m` without repeating a
      row, holds all of `m` without a limit, and from the start it holds the
      top rows. */
  lemma WindowFacts(m: seq<IndexedEvent>, s: seq<IndexedEvent>, limit: Option<int>, offset: Option<int>,
                    order: EventOrderBy)
    requires SortedBy(s, order) && multiset(s) == multiset(m)
    ensures |s| == |m|
    ensures SortedBy(Page(s, limit, offset), order)
    ensures multiset(Page(s, limit, offset)) <= multiset(m)
    ensures limit.None? ==> multiset(Page(s, limit, offset)) == multiset(m)
    ensures limit.Some? && PageStart(|m|, offset) == 0 ==> IsTopRows(Page(s, limit, offset), m, order, limit.value)
  {
    assert |s| == |m| by { assert |multiset(s)| == |multiset(m)|; }
    PageOfSorted(s, limit, offset, order);
    PageWithin(s, limit, offset);
    if limit.Some? && PageStart(|m|, offset) == 0 {
      var r := Page(s, limit, offset);
      assert r == s[..|r|];
      SortedPrefixIsTop(s, |r|, order);
    }
  }

  /** `ORDER BY order LIMIT limit OFFSET offset` over the rows `m`. */
  function Select(m: seq<IndexedEvent>, order: EventOrderBy, limit: Option<int>, offset: Option<int>)
    : (r: seq<IndexedEvent>)
    ensures IsWindow(r, m, order, limit, offset)
    ensures SortedBy(r, order)
    ensures multiset(r) <= multiset(m)
    ensures forall x :: x in r ==> x in m
    ensures limit.None? ==> multiset(r) == multiset(m)
    ensures limit.Some? && PageStart(|m|, offset) == 0 ==> IsTopRows(r, m, order, limit.value)
    ensures limit.Some? && limit.value >= 0 ==> |r| <= limit.value
  {
    var s := SortBy(m, order);
    WindowFacts(m, s, limit, offset, order);
    var r := Page(s, limit, offset);
    SubMultisetMembers(r, m);
    r
  }

  lemma SubMultisetMembers<T>(r: seq<T>, m: seq<T>)
    requires multiset(r) <= multiset(m)
    ensures forall x :: x in r ==> x in m
  {
    forall x | x in r ensures x in m { assert x in multiset(r); }
  }

  /** The first of the top rows sorts no later than any row of `m`. */
  lemma TopRowsFirst(r: seq<IndexedEvent>, m: seq<IndexedEvent>, order: EventOrderBy, limit: int)
    requires IsTopRows(r, m, order, limit) && r != []
    ensures forall x :: x in m ==> Rank(r[0], order) <= Rank(x, order)
  {
    forall x | x in m ensures Rank(r[0], order) <= Rank(x, order) {
      assert r[0] in r;
      if multiset(r)[x] >= multiset(m)[x] {
        assert x in multiset(r);
        var j :| 0 <= j < |r| && r[j] == x;
        if j > 0 {
          assert Rank(r[0], order) <= Rank(r[j], order);
        }
      }
    }
  }

  /** A negative limit, or one no smaller than the number of rows, returns
      every row as often as `m` holds it. */
  lemma TopRowsAll(r: seq<IndexedEvent>, m: seq<IndexedEvent>, order: EventOrderBy, limit: int)
    requires IsTopRows(r, m, order, limit) && (limit < 0 || limit >= |m|)
    ensures multiset(r) == multiset(m)
  {
    var d := multiset(m) - multiset(r);
    assert multiset(m) == multiset(r) + d;
    assert |multiset(m)| == |multiset(r)| + |d|;
    assert d == multiset{};
  }

  /** Rows holding exactly the rows of an epoch, with their multiplicities,
      contain an event iff it is of that epoch. */
  lemma EpochRows(r: seq<IndexedEvent>, es: seq<IndexedEvent>, epoch: U64)
    requires multiset(r) == multiset(Filter(es, OfEpoch(epoch)))
    ensures forall e :: e in r <==> e in es && e.epoch == Some(epoch)
  {
    forall e ensures e in r <==> e in Filter(es, OfEpoch(epoch)) {
      assert e in r <==> e in multiset(r);
    }
  }

  /** `EventStats`. */
  datatype EventStats = EventStats(
    totalEvents: nat,
    verifiedSnapshots: nat,
    failedVerifications: nat,
    latestEpoch: Option<U64>,
    latestLedger: Option<U64>,
    eventsLast24h: nat)

  /** `VerificationSummary`: one audit-trail entry. */
  datatype VerificationSummary = VerificationSummary(
    epoch: U64,
    hash: Option<string>,
    ledger: U64,
    verificationStatus: string,
    createdAt: Time,
    transactionHash: string)

  /** `COUNT(CASE WHEN verification_status = s THEN 1 END)`. */
  function CountStatus(es: seq<IndexedEvent>, status: string): (n: nat)
    ensures n <= |es|
    ensures n == 0 <==> forall e :: e in es ==> e.verificationStatus != Some(status)
  {
    if es == [] then 0
    else
      assert es == [es[0]] + es[1..];
      (if es[0].verificationStatus == Some(status) then 1 else 0) + CountStatus(es[1..], status)
  }

  /** No record is both verified and failed, so the two counts never exceed the total. */
  lemma {:induction false} StatusCountsBounded(es: seq<IndexedEvent>)
    ensures CountStatus(es, "verified") + CountStatus(es, "failed") <= |es|
  {
    if es != [] {
      StatusCountsBounded(es[1..]);
    }
  }

  /** `MAX(ledger)`: NULL on an empty table. */
  function LatestLedger(es: seq<IndexedEvent>): (r: Option<U64>)
    ensures r.None? <==> es == []
    ensures r.Some? ==> exists e :: e in es && e.ledger == r.value
    ensures r.Some? ==> forall e :: e in es ==> e.ledger <= r.value
  {
    if es == [] then None
    else
      var rest := LatestLedger(es[1..]);
      assert es == [es[0]] + es[1..];
      if rest.None? || es[0].ledger >= rest.value then Some(es[0].ledger) else rest
  }

  /** `MAX(epoch)`: NULL epochs are ignored; NULL when no record has an epoch. */
  function LatestEpoch(es: seq<IndexedEvent>): (r: Option<U64>)
    ensures r.None? <==> forall e :: e in es ==> e.epoch.None?
    ensures r.Some? ==> exists e :: e in es && e.epoch == Some(r.value)
    ensures r.Some? ==> forall e :: e in es && e.epoch.Some? ==> e.epoch.value <= r.value
  {
    if es == [] then None
    else
      var rest := LatestEpoch(es[1..]);
      assert es == [es[0]] + es[1..];
      match es[0].epoch
      case None => rest
      case Some(n) => if rest.None? || n >= rest.value then Some(n) else rest
  }

  /** `COUNT(CASE WHEN created_at > cutoff THEN 1 END)`. */
  function CountCreatedAfter(es: seq<IndexedEvent>, cutoff: Time): (n: nat)
    ensures n <= |es|
    ensures n == 0 <==> forall e :: e in es ==> e.createdAt <= cutoff
  {
    if es == [] then 0
    else
      assert es == [es[0]] + es[1..];
      (if es[0].createdAt > cutoff then 1 else 0) + CountCreatedAfter(es[1..], cutoff)
  }

  predicate IsSummaryCandidate(e: IndexedEvent) {
    e.eventType == SNAP_SUB && e.epoch.Some?
  }

  /** One row of the summary query; a NULL status reads as "pending". */
  function Summarize(e: IndexedEvent): VerificationSummary
    requires e.epoch.Some?
  {
    VerificationSummary(e.epoch.value, e.hash, e.ledger, e.verificationStatus.GetOr("pending"),
                        e.createdAt, e.transactionHash)
  }

  function SummarizeAll(es: seq<IndexedEvent>): (r: seq<VerificationSummary>)
    requires forall e :: e in es ==> e.epoch.Some?
    ensures |r| == |es|
    ensures forall i :: 0 <= i < |es| ==> r[i] == Summarize(es[i])
  {
    if es == [] then [] else [Summarize(es[0])] + SummarizeAll(es[1..])
  }

  lemma SummariesOf(es: seq<IndexedEvent>)
    requires SortedBy(es, EpochDesc)
    requires forall e :: e in es ==> IsSummaryCandidate(e)
    requires forall e :: e in es ==> e.epoch.Some?
    ensures forall i, j :: 0 <= i < j < |es| ==> SummarizeAll(es)[i].epoch >= SummarizeAll(es)[j].epoch
    ensures forall i :: 0 <= i < |es| ==>
      var e, s := es[i], SummarizeAll(es)[i];
      && e.eventType == SNAP_SUB && e.epoch == Some(s.epoch)
      && s.verificationStatus == e.verificationStatus.GetOr("pending")
      && s.hash == e.hash && s.ledger == e.ledger
      && s.createdAt == e.createdAt && s.transactionHash == e.transactionHash
  {
    var r := SummarizeAll(es);
    forall i, j | 0 <= i < j < |es| ensures r[i].epoch >= r[j].epoch {
      assert es[i] in es && es[j] in es;
      assert Rank(es[i], EpochDesc) <= Rank(es[j], EpochDesc);
    }
    forall i | 0 <= i < |es| ensures IsSummaryCandidate(es[i]) {
      assert es[i] in es;
    }
  }

  /** `verification_status = ?, verified_at = ?` on the row `r`. */
  function Stamp(r: EventRow, status: string, now: Time): EventRow {
    EventRow(r.event.(verificationStatus := Some(status)), Some(now))
  }

  /** `UPDATE contract_events SET verification_status = ?, verified_at = ? WHERE id = ?`. */
  function SetStatus(rows: seq<EventRow>, id: string, status: string, now: Time): (r: seq<EventRow>)
    ensures |r| == |rows|
    ensures forall i :: 0 <= i < |rows| && rows[i].event.id == id ==> r[i] == Stamp(rows[i], status, now)
    ensures forall i :: 0 <= i < |rows| && rows[i].event.id != id ==> r[i] == rows[i]
  {
    if rows == [] then []
    else
      var head := if rows[0].event.id == id then Stamp(rows[0], status, now) else rows[0];
      [head] + SetStatus(rows[1..], id, status, now)
  }

  lemma {:induction false} FindAfterSetStatus(rows: seq<EventRow>, id: string, status: string, now: Time)
    ensures FindById(SetStatus(rows, id, status, now), id)
         == (match FindById(rows, id)
             case None => None
             case Some(e) => Some(e.(verificationStatus := Some(status))))
  {
    if rows != [] {
      var r := SetStatus(rows, id, status, now);
      assert r[1..] == SetStatus(rows[1..], id, status, now);
      FindAfterSetStatus(rows[1..], id, status, now);
    }
  }

  /** The status update keeps ids unique, and an unknown id leaves the table as it was. */
  lemma SetStatusFacts(rows: seq<EventRow>, id: string, status: string, now: Time)
    ensures UniqueIds(rows) ==> UniqueIds(SetStatus(rows, id, status, now))
    ensures FindById(rows, id).None? ==> SetStatus(rows, id, status, now) == rows
    ensures FindById(SetStatus(rows, id, status, now), id)
         == (match FindById(rows, id)
             case None => None
             case Some(e) => Some(e.(verificationStatus := Some(status))))
  {
    var r := SetStatus(rows, id, status, now);
    FindAfterSetStatus(rows, id, status, now);
    if FindById(rows, id).None? {
      assert r == rows;
    }
  }

  /** Indexing the same event twice leaves the table as indexing it once. */
  lemma UpsertIdempotent(rows: seq<EventRow>, row: EventRow)
    ensures Upsert(Upsert(rows, row), row) == Upsert(rows, row)
  {
    var id := row.event.id;
    var kept := Without(rows, id);
    FilterConcat(kept, [row], OtherId(id));
    FilterTwice(rows, OtherId(id));
    assert Without([row], id) == [];
  }

  class EventIndexer {
    const db: Database

    /** `EventIndexer::new`. */
    constructor(db: Database)
      ensures this.db == db
    {
      this.db := db;
    }

    ghost predicate Valid()
      reads db
    {
      UniqueIds(db.contractEvents)
    }

    /** `index_event`: INSERT OR REPLACE keyed by `event.id`. */
    method IndexEvent(e: IndexedEvent)
      requires Valid()
      modifies db
      ensures Valid()
      ensures db.contractEvents == Upsert(old(db.contractEvents), EventRow(e, None))
      ensures db.snapshots == old(db.snapshots)
      ensures GetEventById(e.id) == Some(e)
    {
      db.contractEvents := Upsert(db.contractEvents, EventRow(e, None));
    }

    /** `query_events`: the stored events that satisfy every supplied filter,
        in the requested order, then LIMIT and OFFSET. */
    function QueryEvents(q: EventQuery): (r: seq<IndexedEvent>)
      reads db
      ensures forall e :: e in r ==> e in Events(db.contractEvents) && Matches(e, q)
      ensures IsWindow(r, Filter(Events(db.contractEvents), Matching(q)), OrderOf(q), q.limit, q.offset)
      ensures SortedBy(r, OrderOf(q))
      ensures q.limit.None? ==> multiset(r) == multiset(Filter(Events(db.contractEvents), Matching(q)))
      ensures q.limit.Some? && PageStart(|Filter(Events(db.contractEvents), Matching(q))|, q.offset) == 0 ==>
        IsTopRows(r, Filter(Events(db.contractEvents), Matching(q)), OrderOf(q), q.limit.value)
      ensures q.limit.Some? && q.limit.value >= 0 ==> |r| <= q.limit.value
    {
      Select(Filter(Events(db.contractEvents), Matching(q)), OrderOf(q), q.limit, q.offset)
    }

    /** `get_event_by_id`. */
    function GetEventById(id: string): (r: Option<IndexedEvent>)
      reads db
      ensures r.Some? <==> exists i :: 0 <= i < |db.contractEvents| && db.contractEvents[i].event.id == id
      ensures r.Some? ==> r.value.id == id && r.value in Events(db.contractEvents)
    {
      FindById(db.contractEvents, id)
    }

    /** `get_latest_snapshots`: the `limit` snapshot submissions of highest
        epoch, highest first. */
    function GetLatestSnapshots(limit: int): (r: seq<IndexedEvent>)
      reads db
      ensures forall e :: e in r ==> e in Events(db.contractEvents) && e.eventType == SNAP_SUB
      ensures IsTopRows(r, Filter(Events(db.contractEvents), IsSnapshot), EpochDesc, limit)
    {
      var q := NoFilters.(eventType := Some(SNAP_SUB), limit := Some(limit), orderBy := Some(EpochDesc));
      FilterSame(Events(db.contractEvents), Matching(q), IsSnapshot);
      QueryEvents(q)
    }

    /** `get_events_for_epoch`: every event of the epoch, each once, newest first. */
    function GetEventsForEpoch(epoch: U64): (r: seq<IndexedEvent>)
      reads db
      ensures forall e :: e in r <==> e in Events(db.contractEvents) && e.epoch == Some(epoch)
      ensures multiset(r) == multiset(Filter(Events(db.contractEvents), OfEpoch(epoch)))
      ensures SortedBy(r, CreatedAtDesc)
    {
      var q := NoFilters.(epoch := Some(epoch), orderBy := Some(CreatedAtDesc));
      FilterSame(Events(db.contractEvents), Matching(q), OfEpoch(epoch));
      var r := QueryEvents(q);
      EpochRows(r, Events(db.contractEvents), epoch);
      r
    }

    /** `get_verification_history`: the `limit` verified submissions of
        highest epoch, highest first. */
    function GetVerificationHistory(limit: int): (r: seq<IndexedEvent>)
      reads db
      ensures forall e :: e in r ==>
        e in Events(db.contractEvents) && e.eventType == SNAP_SUB && e.verificationStatus == Some("verified")
      ensures IsTopRows(r, Filter(Events(db.contractEvents), SnapshotWithStatus("verified")), EpochDesc, limit)
    {
      var q := NoFilters.(eventType := Some(SNAP_SUB), verificationStatus := Some("verified"),
                          limit := Some(limit), orderBy := Some(EpochDesc));
      FilterSame(Events(db.contractEvents), Matching(q), SnapshotWithStatus("verified"));
      QueryEvents(q)
    }

    /** `get_failed_verifications`: the `limit` most recently created failed
        submissions, newest first. */
    function GetFailedVerifications(limit: int): (r: seq<IndexedEvent>)
      reads db
      ensures forall e :: e in r ==>
        e in Events(db.contractEvents) && e.eventType == SNAP_SUB && e.verificationStatus == Some("failed")
      ensures IsTopRows(r, Filter(Events(db.contractEvents), SnapshotWithStatus("failed")), CreatedAtDesc, limit)
    {
      var q := NoFilters.(eventType := Some(SNAP_SUB), verificationStatus := Some("failed"),
                          limit := Some(limit), orderBy := Some(CreatedAtDesc));
      FilterSame(Events(db.contractEvents), Matching(q), SnapshotWithStatus("failed"));
      QueryEvents(q)
    }

    /** `update_verification_status`: stamps the row with that id; an unknown
        id changes nothing and is not an error. */
    method UpdateVerificationStatus(id: string, status: string, now: Time)
      requires Valid()
      modifies db
      ensures Valid()
      ensures db.contractEvents == SetStatus(old(db.contractEvents), id, status, now)
      ensures db.snapshots == old(db.snapshots)
      ensures FindById(db.contractEvents, id) == (match FindById(old(db.contractEvents), id)
                                                  case None => None
                                                  case Some(e) => Some(e.(verificationStatus := Some(status))))
      ensures FindById(old(db.contractEvents), id).None? ==> db.contractEvents == old(db.contractEvents)
    {
      var rows := db.contractEvents;
      SetStatusFacts(rows, id, status, now);
      db.contractEvents := SetStatus(rows, id, status, now);
    }

    /** `get_event_stats`, with `now` standing for SQLite's clock. */
    function GetEventStats(now: Time): (r: EventStats)
      reads db
      ensures r.totalEvents == |db.contractEvents|
      ensures r.verifiedSnapshots == CountStatus(Events(db.contractEvents), "verified")
      ensures r.failedVerifications == CountStatus(Events(db.contractEvents), "failed")
      ensures r.verifiedSnapshots + r.failedVerifications <= r.totalEvents
      ensures r.latestEpoch == LatestEpoch(Events(db.contractEvents))
      ensures r.latestLedger == LatestLedger(Events(db.contractEvents))
      ensures r.eventsLast24h == CountCreatedAfter(Events(db.contractEvents), now - SECONDS_PER_DAY)
      ensures r.latestLedger.None? <==> db.contractEvents == []
      ensures r.latestLedger.Some? ==>
        forall e :: e in Events(db.contractEvents) ==> e.ledger <= r.latestLedger.value
      ensures r.latestLedger.Some? ==>
        exists e :: e in Events(db.contractEvents) && e.ledger == r.latestLedger.value
      ensures r.latestEpoch.None? <==> forall e :: e in Events(db.contractEvents) ==> e.epoch.None?
      ensures r.latestEpoch.Some? ==>
        forall e :: e in Events(db.contractEvents) && e.epoch.Some? ==> e.epoch.value <= r.latestEpoch.value
      ensures r.latestEpoch.Some? ==>
        exists e :: e in Events(db.contractEvents) && e.epoch == r.latestEpoch
      ensures r.eventsLast24h <= r.totalEvents
    {
      var es := Events(db.contractEvents);
      StatusCountsBounded(es);
      EventStats(|es|, CountStatus(es, "verified"), CountStatus(es, "failed"),
                 LatestEpoch(es), LatestLedger(es), CountCreatedAfter(es, now - SECONDS_PER_DAY))
    }

    /** The rows the summary query selects: `WHERE event_type = 'SNAP_SUB' AND
        epoch IS NOT NULL ORDER BY epoch DESC LIMIT ?`. */
    function SummaryRows(epochCount: int): (rows: seq<IndexedEvent>)
      reads db
      ensures forall e :: e in rows ==> e in Events(db.contractEvents) && IsSummaryCandidate(e)
      ensures IsTopRows(rows, Filter(Events(db.contractEvents), IsSummaryCandidate), EpochDesc, epochCount)
    {
      Select(Filter(Events(db.contractEvents), IsSummaryCandidate), EpochDesc, Some(epochCount), None)
    }

    /** `get_verification_summary`: one entry per row of `SummaryRows`, in the
        same order (so highest epoch first, at most `epochCount`), with a NULL
        status reported as "pending". */
    function GetVerificationSummary(epochCount: int): (r: seq<VerificationSummary>)
      reads db
      ensures |r| == |SummaryRows(epochCount)|
      ensures epochCount >= 0 ==> |r| <= epochCount
      ensures forall i, j :: 0 <= i < j < |r| ==> r[i].epoch >= r[j].epoch
      ensures forall i :: 0 <= i < |r| ==>
        var e := SummaryRows(epochCount)[i];
        && e.eventType == SNAP_SUB && e.epoch == Some(r[i].epoch)
        && r[i].verificationStatus == e.verificationStatus.GetOr("pending")
        && r[i].hash == e.hash && r[i].ledger == e.ledger
        && r[i].createdAt == e.createdAt && r[i].transactionHash == e.transactionHash
    {
      var listed := SummaryRows(epochCount);
      SummariesOf(listed);
      SummarizeAll(listed)
    }

    /** `search_by_hash_prefix`, as a plain case-sensitive prefix match. */
    function SearchByHashPrefix(prefix: string, limit: int): (r: seq<IndexedEvent>)
      reads db
      ensures forall e :: e in r ==> e in Events(db.contractEvents) && e.hash.Some? && prefix <= e.hash.value
      ensures IsTopRows(r, Filter(Events(db.contractEvents), HashStartsWith(prefix)), CreatedAtDesc, limit)
      ensures limit < 0 ==> multiset(r) == multiset(Filter(Events(db.contractEvents), HashStartsWith(prefix)))
    {
      var matching := Filter(Events(db.contractEvents), HashStartsWith(prefix));
      var r := Select(matching, CreatedAtDesc, Some(limit), None);
      if limit < 0 then
        TopRowsAll(r, matching, CreatedAtDesc, limit);
        r
      else r
    }

    /** `cleanup_old_events`: deletes the rows created before `now - days`
        and reports how many went. A negative count makes the date modifier
        `'--N days'` malformed, so SQLite's `datetime` yields NULL, the
        comparison never holds and nothing is deleted. */
    method CleanupOldEvents(daysToKeep: int, now: Time) returns (deleted: nat)
      requires Valid()
      modifies db
      ensures Valid()
      ensures daysToKeep >= 0 ==> forall x :: x in db.contractEvents <==>
        x in old(db.contractEvents) && x.event.createdAt >= now - daysToKeep * SECONDS_PER_DAY
      ensures daysToKeep < 0 ==> db.contractEvents == old(db.contractEvents)
      ensures deleted == |old(db.contractEvents)| - |db.contractEvents|
      ensures db.snapshots == old(db.snapshots)
    {
      if daysToKeep < 0 {
        return 0;
      }
      var cutoff := now - daysToKeep * SECONDS_PER_DAY;
      var kept := Filter(db.contractEvents, (r: EventRow) => r.event.createdAt >= cutoff);
      FilterKeepsUniqueIds(db.contractEvents, (r: EventRow) => r.event.createdAt >= cutoff);
      deleted := |db.contractEvents| - |kept|;
      db.contractEvents := kept;
    }
  }
}
