/**
 * The parameterised query the /data handler builds (backend_server/app.js, lines 90-113):
 * a fixed SELECT ... WHERE 1=1, an optional lower day bound on `start`, an optional upper
 * day bound on `end`, and ORDER BY timestamp. The SQL text is modelled clause by clause;
 * every `$n` placeholder is kept as the number n (a 1-based position in `params`).
 */
module QueryBuilder {
  import opened Wrappers
  import opened Readings

  /** A positional query parameter: the timezone name, or an instant produced by the date parser. */
  datatype Param = Zone(name: string) | At(instant: Instant)

  /** One fragment of the SQL text. */
  datatype Clause =
      /** SELECT id, timestamp, to_char(timestamp AT TIME ZONE $zone, ...) AS local_time, ... WHERE 1=1 */
    | SelectLocalTime(zone: nat)
      /** AND timestamp >= (($bound)::timestamp AT TIME ZONE 'UTC' AT TIME ZONE $zone)::date AT TIME ZONE $zone ... */
    | OnOrAfterDayOf(bound: nat, zone: nat)
      /** AND timestamp < ((($bound)::timestamp ... AT TIME ZONE $zone)::date + INTERVAL '1 day') AT TIME ZONE $zone ... */
    | BeforeDayAfter(bound: nat, zone: nat)
      /** ORDER BY timestamp; */
    | OrderByTimestamp

  /** `$n` names a timezone parameter. */
  predicate NamesZone(params: seq<Param>, n: nat)
  {
    1 <= n <= |params| && params[n - 1].Zone?
  }

  /** `$n` names an instant parameter. */
  predicate NamesInstant(params: seq<Param>, n: nat)
  {
    1 <= n <= |params| && params[n - 1].At?
  }

  /** Every placeholder of the clause refers to an existing parameter of the kind the SQL casts it to. */
  predicate ClauseWellFormed(c: Clause, params: seq<Param>)
  {
    match c
    case SelectLocalTime(z) => NamesZone(params, z)
    case OnOrAfterDayOf(b, z) => NamesInstant(params, b) && NamesZone(params, z)
    case BeforeDayAfter(b, z) => NamesInstant(params, b) && NamesZone(params, z)
    case OrderByTimestamp => true
  }

  /** A query the store can run: it opens with the SELECT clause and all its placeholders resolve. */
  predicate WellFormed(query: seq<Clause>, params: seq<Param>)
  {
    && |query| > 0
    && query[0].SelectLocalTime?
    && forall i :: 0 <= i < |query| ==> ClauseWellFormed(query[i], params)
  }

  /**
   * Whether the clause admits a row stamped `ts`, given the local calendar day of an instant
   * in a zone (`localDay`): the SQL converts the bound to its local date in the zone and
   * compares the row against the start of that day, or of the day after.
   */
  predicate ClauseAdmits(c: Clause, params: seq<Param>, localDay: (Instant, string) -> int, ts: Instant)
    requires ClauseWellFormed(c, params)
  {
    match c
    case OnOrAfterDayOf(b, z) =>
      localDay(ts, params[z - 1].name) >= localDay(params[b - 1].instant, params[z - 1].name)
    case BeforeDayAfter(b, z) =>
      localDay(ts, params[z - 1].name) < localDay(params[b - 1].instant, params[z - 1].name) + 1
    case _ => true
  }

  /** The WHERE condition of the whole query. */
  predicate Admits(query: seq<Clause>, params: seq<Param>, localDay: (Instant, string) -> int, ts: Instant)
    requires WellFormed(query, params)
  {
    forall i :: 0 <= i < |query| ==> ClauseAdmits(query[i], params, localDay, ts)
  }

  /**
   * The rows the handler means to select, independent of any SQL: those whose local day in
   * `timezone` is on or after the local day of `start` and no later than the local day of `end`.
   */
  predicate InDayWindow(localDay: (Instant, string) -> int, timezone: string,
                        start: Option<Instant>, end: Option<Instant>, ts: Instant)
  {
    && (start.Some? ==> localDay(ts, timezone) >= localDay(start.value, timezone))
    && (end.Some? ==> localDay(ts, timezone) < localDay(end.value, timezone) + 1)
  }

  /**
   * Builds the query text and its positional parameters. `params` starts as [timezone]; each
   * optional bound is appended to the text with placeholder `$(|params| + 1)` and its value is
   * then pushed, so the start bound is $2 and the end bound is $2 without a start, $3 with one.
   */
  method BuildQuery(timezone: string, start: Option<Instant>, end: Option<Instant>)
    returns (query: seq<Clause>, params: seq<Param>)
    ensures WellFormed(query, params)
    ensures params[0] == Zone(timezone)
    ensures |params| == 1 + (if start.Some? then 1 else 0) + (if end.Some? then 1 else 0)
    ensures start.Some? ==> params[1] == At(start.value) && OnOrAfterDayOf(2, 1) in query
    ensures end.Some? ==> params[|params| - 1] == At(end.value)
    ensures end.Some? ==> BeforeDayAfter(if start.Some? then 3 else 2, 1) in query
    ensures forall c :: c in query && c.OnOrAfterDayOf? ==> start.Some?
    ensures forall c :: c in query && c.BeforeDayAfter? ==> end.Some?
    ensures forall i, j :: 0 <= i < |query| && 0 <= j < |query| && query[i].OnOrAfterDayOf? && query[j].BeforeDayAfter? ==> i < j
    ensures query[0] == SelectLocalTime(1) && query[|query| - 1] == OrderByTimestamp
    ensures forall localDay, ts :: Admits(query, params, localDay, ts) <==> InDayWindow(localDay, timezone, start, end, ts)
  {
    query := [SelectLocalTime(1)];
    params := [Zone(timezone)];
    if start.Some? {
      query := query + [OnOrAfterDayOf(|params| + 1, 1)];
      params := params + [At(start.value)];
    }
    if end.Some? {
      query := query + [BeforeDayAfter(|params| + 1, 1)];
      params := params + [At(end.value)];
    }
    query := query + [OrderByTimestamp];
  }
}
