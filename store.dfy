/**
 * The relational store as the backend sees it: either a table of rows it can query, or a
 * failure (no connection from the pool, or a query that throws). The store's evaluation of a
 * query built by QueryBuilder is given here clause by clause.
 */
module Store {
  import opened Wrappers
  import opened Readings
  import opened QueryBuilder

  /** What `pool.connect()` and `client.query(...)` meet: the current table, or an error they throw. */
  datatype Database = Reachable(table: seq<StoredRow>) | Failing(error: string)

  /** The zone named by the SELECT clause's placeholder, in which local_time is formatted. */
  function SelectZone(query: seq<Clause>, params: seq<Param>): string
    requires WellFormed(query, params)
  {
    params[query[0].zone - 1].name
  }

  /**
   * The rows the store returns for a well-formed query: the table rows its WHERE clauses
   * admit, ordered by timestamp when the query says ORDER BY timestamp, each with local_time
   * formatted in the SELECT clause's zone.
   */
  function RunQuery(query: seq<Clause>, params: seq<Param>, table: seq<StoredRow>,
                    localDay: (Instant, string) -> int, localTime: (Instant, string) -> string): (rows: seq<EnergyReading>)
    requires WellFormed(query, params)
    ensures |rows| <= |table|
    ensures forall i :: 0 <= i < |rows| ==> Admits(query, params, localDay, rows[i].timestamp)
    ensures forall i :: 0 <= i < |rows| ==> rows[i].localTime == localTime(rows[i].timestamp, SelectZone(query, params))
    ensures OrderByTimestamp in query ==>
      forall i, j :: 0 <= i < j < |rows| ==> rows[i].timestamp <= rows[j].timestamp
    ensures forall i :: 0 <= i < |rows| ==>
      exists x :: x in table && ProjectionOf(rows[i], x, localTime(x.timestamp, SelectZone(query, params)))
    ensures forall x :: x in table && Admits(query, params, localDay, x.timestamp) ==>
      exists i :: 0 <= i < |rows| && ProjectionOf(rows[i], x, localTime(x.timestamp, SelectZone(query, params)))
    ensures forall x: StoredRow :: multiset(rows)[Reading(x, localTime(x.timestamp, SelectZone(query, params)))] ==
                        if Admits(query, params, localDay, x.timestamp) then multiset(table)[x] else 0
  {
    Evaluate(table, (ts: Instant) => Admits(query, params, localDay, ts), OrderByTimestamp in query,
             SelectZone(query, params), localTime)
  }

  /**
   * A result set: the table rows `keep` admits, sorted by timestamp when `sorted`, each with
   * local_time formatted in `zone`. It answers every admitted table row and holds nothing else.
   */
  function Evaluate(table: seq<StoredRow>, keep: Instant -> bool, sorted: bool,
                    zone: string, localTime: (Instant, string) -> string): (rows: seq<EnergyReading>)
    ensures |rows| <= |table|
    ensures forall i :: 0 <= i < |rows| ==> keep(rows[i].timestamp)
    ensures forall i :: 0 <= i < |rows| ==> rows[i].localTime == localTime(rows[i].timestamp, zone)
    ensures sorted ==> forall i, j :: 0 <= i < j < |rows| ==> rows[i].timestamp <= rows[j].timestamp
    ensures forall i :: 0 <= i < |rows| ==>
      exists x :: x in table && ProjectionOf(rows[i], x, localTime(x.timestamp, zone))
    ensures forall x :: x in table && keep(x.timestamp) ==>
      exists i :: 0 <= i < |rows| && ProjectionOf(rows[i], x, localTime(x.timestamp, zone))
    ensures forall x: StoredRow :: multiset(rows)[Reading(x, localTime(x.timestamp, zone))] ==
                        if keep(x.timestamp) then multiset(table)[x] else 0
  {
    var ordered := Selected(table, keep, sorted);
    var rows := ProjectAll(ordered, zone, localTime);
    ProjectedRowsComplete(table, ordered, keep, sorted, rows, zone, localTime);
    forall x: StoredRow
      ensures multiset(rows)[Reading(x, localTime(x.timestamp, zone))] ==
              if keep(x.timestamp) then multiset(table)[x] else 0
    {
      ProjectAllCounts(ordered, zone, localTime, x);
    }
    rows
  }

  /**
   * The table rows `keep` admits, in table order or sorted by timestamp: each is a table row
   * the filter admits, and every table row the filter admits is among them.
   */
  function Selected(table: seq<StoredRow>, keep: Instant -> bool, sorted: bool): (ordered: seq<StoredRow>)
    ensures |ordered| <= |table|
    ensures forall i :: 0 <= i < |ordered| ==> keep(ordered[i].timestamp) && ordered[i] in table
    ensures forall x :: x in table && keep(x.timestamp) ==> x in ordered
    ensures sorted ==> SortedByTime(ordered)
    ensures forall x :: multiset(ordered)[x] == if keep(x.timestamp) then multiset(table)[x] else 0
  {
    var kept := KeepIf(table, keep);
    var ordered := if sorted then SortByTime(kept) else kept;
    KeptRowsAdmitted(table, keep, kept, ordered);
    ordered
  }

  lemma KeptRowsAdmitted(table: seq<StoredRow>, keep: Instant -> bool, kept: seq<StoredRow>, ordered: seq<StoredRow>)
    requires kept == KeepIf(table, keep)
    requires multiset(ordered) == multiset(kept)
    ensures forall i :: 0 <= i < |ordered| ==> keep(ordered[i].timestamp) && ordered[i] in table
    ensures forall x :: x in table && keep(x.timestamp) ==> x in ordered
  {
  }

  /** The projection of a result set answers each of its rows, and holds nothing else. */
  lemma ProjectedRowsComplete(table: seq<StoredRow>, ordered: seq<StoredRow>, keep: Instant -> bool, sorted: bool,
                              rows: seq<EnergyReading>, zone: string, localTime: (Instant, string) -> string)
    requires rows == ProjectAll(ordered, zone, localTime)
    requires forall i :: 0 <= i < |ordered| ==> keep(ordered[i].timestamp) && ordered[i] in table
    requires forall x :: x in table && keep(x.timestamp) ==> x in ordered
    requires sorted ==> SortedByTime(ordered)
    ensures forall i :: 0 <= i < |rows| ==> keep(rows[i].timestamp)
    ensures forall i :: 0 <= i < |rows| ==> rows[i].localTime == localTime(rows[i].timestamp, zone)
    ensures sorted ==> forall i, j :: 0 <= i < j < |rows| ==> rows[i].timestamp <= rows[j].timestamp
    ensures forall i :: 0 <= i < |rows| ==>
      exists x :: x in table && ProjectionOf(rows[i], x, localTime(x.timestamp, zone))
    ensures forall x :: x in table && keep(x.timestamp) ==>
      exists i :: 0 <= i < |rows| && ProjectionOf(rows[i], x, localTime(x.timestamp, zone))
  {
  }

  /** The single row of `SELECT MIN(timestamp), MAX(timestamp) FROM energy_consumption`. */
  datatype TimeRange = TimeRange(startTimestamp: Option<Instant>, endTimestamp: Option<Instant>)

  /**
   * The result set of the aggregate query: always exactly one row, holding NULLs on an empty
   * table, otherwise the earliest and the latest timestamp.
   */
  function RangeQuery(table: seq<StoredRow>): (rows: seq<TimeRange>)
    ensures |rows| == 1
    ensures table == [] ==> rows[0] == TimeRange(None, None)
    ensures table != [] ==> rows[0].startTimestamp.Some? && rows[0].endTimestamp.Some?
    ensures table != [] ==> rows[0].startTimestamp.value <= rows[0].endTimestamp.value
    ensures forall r :: r in table ==> rows[0].startTimestamp.Some? && rows[0].startTimestamp.value <= r.timestamp
    ensures forall r :: r in table ==> rows[0].endTimestamp.Some? && r.timestamp <= rows[0].endTimestamp.value
    ensures table != [] ==> exists r :: r in table && r.timestamp == rows[0].startTimestamp.value
    ensures table != [] ==> exists r :: r in table && r.timestamp == rows[0].endTimestamp.value
  {
    [TimeRange(MinTimestamp(table), MaxTimestamp(table))]
  }
}
