/**
 * Rows of the energy_consumption table and the operations the store performs on them
 * on behalf of the backend: keeping the rows a predicate admits, ordering them by
 * timestamp, adding the derived local_time column, and the MIN/MAX aggregate.
 */
module Readings {
  import opened Wrappers

  /** An absolute instant: milliseconds since the Unix epoch, as a JavaScript Date holds it. */
  type Instant = int

  /** A row as stored: an absolute timestamp and four nullable kWh columns, passed through untouched. */
  datatype StoredRow = StoredRow(
    id: int,
    timestamp: Instant,
    fridgeKwh: Option<real>,
    ovenKwh: Option<real>,
    lightsKwh: Option<real>,
    evChargerKwh: Option<real>)

  /** A row as the /data endpoint returns it: the stored row plus its local_time in the requested zone. */
  datatype EnergyReading = EnergyReading(
    id: int,
    timestamp: Instant,
    localTime: string,
    fridgeKwh: Option<real>,
    ovenKwh: Option<real>,
    lightsKwh: Option<real>,
    evChargerKwh: Option<real>)

  /** True when the row is the stored row with its local time added. */
  predicate ProjectionOf(reading: EnergyReading, row: StoredRow, localTime: string)
  {
    reading == Reading(row, localTime)
  }

  /** The reading the SELECT list makes of `row`, with `localTime` as its local_time. */
  function Reading(row: StoredRow, localTime: string): EnergyReading
  {
    EnergyReading(row.id, row.timestamp, localTime,
                  row.fridgeKwh, row.ovenKwh, row.lightsKwh, row.evChargerKwh)
  }

  /**
   * The SELECT list: every row keeps its columns and gains local_time, the formatting of its
   * timestamp in `zone` (to_char of `timestamp AT TIME ZONE zone`, given here as `format`).
   */
  function ProjectAll(rows: seq<StoredRow>, zone: string, format: (Instant, string) -> string): (r: seq<EnergyReading>)
    ensures |r| == |rows|
    ensures forall i :: 0 <= i < |rows| ==> ProjectionOf(r[i], rows[i], format(rows[i].timestamp, zone))
  {
    if rows == [] then []
    else
      [Reading(rows[0], format(rows[0].timestamp, zone))] + ProjectAll(rows[1..], zone, format)
  }

  /**
   * Distinct rows give distinct readings, so the SELECT list answers each row exactly as often
   * as it occurs.
   */
  lemma {:induction false} ProjectAllCounts(rows: seq<StoredRow>, zone: string, format: (Instant, string) -> string, x: StoredRow)
    ensures multiset(ProjectAll(rows, zone, format))[Reading(x, format(x.timestamp, zone))] == multiset(rows)[x]
  {
    if rows != [] {
      ProjectAllCounts(rows[1..], zone, format, x);
      assert rows == [rows[0]] + rows[1..];
      assert ProjectAll(rows, zone, format)
          == [Reading(rows[0], format(rows[0].timestamp, zone))] + ProjectAll(rows[1..], zone, format);
    }
  }

  /** The rows whose timestamp `keep` admits, in their original order (a WHERE clause). */
  function KeepIf(rows: seq<StoredRow>, keep: Instant -> bool): (r: seq<StoredRow>)
    ensures |r| <= |rows|
    ensures multiset(r) <= multiset(rows)
    ensures forall x :: multiset(r)[x] == if keep(x.timestamp) then multiset(rows)[x] else 0
    ensures forall x :: x in r ==> keep(x.timestamp)
    ensures forall x :: x in rows && keep(x.timestamp) ==> x in r
  {
    if rows == [] then []
    else
      assert rows == [rows[0]] + rows[1..];
      if keep(rows[0].timestamp) then [rows[0]] + KeepIf(rows[1..], keep)
      else KeepIf(rows[1..], keep)
  }

  /** Two filters that agree on every instant keep the same rows. */
  lemma {:induction false} KeepIfAgrees(rows: seq<StoredRow>, keep: Instant -> bool, keep': Instant -> bool)
    requires forall t :: keep(t) == keep'(t)
    ensures KeepIf(rows, keep) == KeepIf(rows, keep')
  {
    if rows != [] {
      KeepIfAgrees(rows[1..], keep, keep');
    }
  }

  /** ORDER BY timestamp: ascending timestamps. */
  predicate SortedByTime(rows: seq<StoredRow>)
  {
    forall i, j :: 0 <= i < j < |rows| ==> rows[i].timestamp <= rows[j].timestamp
  }

  /** Filtering a result set already in timestamp order leaves it in timestamp order. */
  lemma {:induction false} KeepIfSorted(rows: seq<StoredRow>, keep: Instant -> bool)
    requires SortedByTime(rows)
    ensures SortedByTime(KeepIf(rows, keep))
  {
    if rows != [] {
      KeepIfSorted(rows[1..], keep);
      var rest := KeepIf(rows[1..], keep);
      forall j | 0 <= j < |rest|
        ensures rows[0].timestamp <= rest[j].timestamp
      {
        assert rest[j] in multiset(rest);
        assert rest[j] in multiset(rows[1..]);
      }
    }
  }

  /** Places `x` after every row of `rows` whose timestamp is not later than its own. */
  function Insert(x: StoredRow, rows: seq<StoredRow>): (r: seq<StoredRow>)
    requires SortedByTime(rows)
    ensures SortedByTime(r)
    ensures multiset(r) == multiset(rows) + multiset{x}
    ensures r[0] == x || (rows != [] && r[0] == rows[0])
  {
    if rows == [] then [x]
    else if x.timestamp < rows[0].timestamp then [x] + rows
    else
      var tail := Insert(x, rows[1..]);
      assert rows == [rows[0]] + rows[1..];
      [rows[0]] + tail
  }

  /**
   * The store's ordering of a result set by timestamp: an insertion sort that keeps rows
   * with equal timestamps in table order.
   */
  function SortByTime(rows: seq<StoredRow>): (r: seq<StoredRow>)
    ensures SortedByTime(r)
    ensures multiset(r) == multiset(rows)
  {
    if rows == [] then []
    else
      var init := rows[..|rows| - 1];
      assert rows == init + [rows[|rows| - 1]];
      Insert(rows[|rows| - 1], SortByTime(init))
  }

  /** Sorting an already ordered result set changes nothing. */
  lemma {:induction false} SortByTimeOfSorted(rows: seq<StoredRow>)
    requires SortedByTime(rows)
    ensures SortByTime(rows) == rows
  {
    if rows != [] {
      var init := rows[..|rows| - 1];
      var last := rows[|rows| - 1];
      assert SortedByTime(init);
      SortByTimeOfSorted(init);
      InsertLast(last, init);
      assert init + [last] == rows;
    }
  }

  /** Inserting a row no earlier than every row of a sorted sequence appends it. */
  lemma {:induction false} InsertLast(x: StoredRow, rows: seq<StoredRow>)
    requires SortedByTime(rows)
    requires forall i :: 0 <= i < |rows| ==> rows[i].timestamp <= x.timestamp
    ensures Insert(x, rows) == rows + [x]
  {
    if rows != [] {
      InsertLast(x, rows[1..]);
      assert rows == [rows[0]] + rows[1..];
    }
  }

  /** SQL MIN(timestamp): NULL (None) on an empty table. */
  function MinTimestamp(rows: seq<StoredRow>): (m: Option<Instant>)
    ensures m.None? <==> rows == []
    ensures m.Some? ==> exists i :: 0 <= i < |rows| && rows[i].timestamp == m.value
    ensures m.Some? ==> forall i :: 0 <= i < |rows| ==> m.value <= rows[i].timestamp
  {
    if rows == [] then None
    else
      var rest := MinTimestamp(rows[1..]);
      if rest.Some? && rest.value < rows[0].timestamp then rest else Some(rows[0].timestamp)
  }

  /** SQL MAX(timestamp): NULL (None) on an empty table. */
  function MaxTimestamp(rows: seq<StoredRow>): (m: Option<Instant>)
    ensures m.None? <==> rows == []
    ensures m.Some? ==> exists i :: 0 <= i < |rows| && rows[i].timestamp == m.value
    ensures m.Some? ==> forall i :: 0 <= i < |rows| ==> rows[i].timestamp <= m.value
  {
    if rows == [] then None
    else
      var rest := MaxTimestamp(rows[1..]);
      if rest.Some? && rest.value > rows[0].timestamp then rest else Some(rows[0].timestamp)
  }
}
