/**
 * The two read endpoints of backend_server/app.js. GET /data validates its query parameters
 * in a fixed order (timezone, start, end, start <= end), builds a parameterised query, runs it
 * and maps the outcome to 400, 404, 200 or 500. GET /data/range returns the earliest and latest
 * timestamps, or 500.
 *
 * The runtime pieces the handler calls but does not define are parameters (`Host`): the
 * timezone check (Intl.DateTimeFormat), the natural-language date parser (chrono-node, then
 * toISOString), and the store's local-calendar-day and local_time formatting in a zone.
 */
module DataEndpoint {
  import opened Wrappers
  import opened Readings
  import opened QueryBuilder
  import opened Store

  /** The foreign functions the endpoint relies on. */
  datatype Host = Host(
    isValidTimezone: string -> bool,
    parseDate: string -> Option<Instant>,
    localDay: (Instant, string) -> int,
    localTime: (Instant, string) -> string)

  /** The query string of GET /data; a parameter Express leaves undefined is None. */
  datatype Request = Request(timezone: Option<string>, start: Option<string>, end: Option<string>)

  /** JavaScript truthiness of a query-string value: present and not the empty string. */
  predicate Supplied(v: Option<string>)
  {
    v.Some? && v.value != ""
  }

  /** `req.query.timezone || "UTC"` */
  function EffectiveTimezone(req: Request): string
  {
    if Supplied(req.timezone) then req.timezone.value else "UTC"
  }

  /** A request that passed validation: the zone and the instants the parser produced. */
  datatype Accepted = Accepted(timezone: string, start: Option<Instant>, end: Option<Instant>)

  /** Why a request was answered with 400; each carries the raw text the message quotes. */
  datatype Rejection =
    | BadTimezone(timezone: string)
    | BadStart(rawStart: string)
    | BadEnd(rawEnd: string)
    | BadRange(rawStart: string, rawEnd: string)

  /** The instant a supplied date parameter parses to; None when it is absent or empty. */
  function ParsedIfSupplied(v: Option<string>, parseDate: string -> Option<Instant>): Option<Instant>
  {
    if Supplied(v) then parseDate(v.value) else None
  }

  /**
   * The validation chain of GET /data. The timezone is checked first; then `start`, when
   * supplied, is parsed; then `end`, when supplied; then, when both parsed, the raw instants
   * are compared. The first failing check decides the rejection.
   */
  function Validate(req: Request, isValidTimezone: string -> bool, parseDate: string -> Option<Instant>): (r: Result<Accepted, Rejection>)
    ensures r.Success? <==>
      && isValidTimezone(EffectiveTimezone(req))
      && (Supplied(req.start) ==> parseDate(req.start.value).Some?)
      && (Supplied(req.end) ==> parseDate(req.end.value).Some?)
      && !(Supplied(req.start) && Supplied(req.end) &&
           parseDate(req.start.value).value > parseDate(req.end.value).value)
    ensures r.Success? ==> r.value == Accepted(EffectiveTimezone(req),
                                              ParsedIfSupplied(req.start, parseDate),
                                              ParsedIfSupplied(req.end, parseDate))
    ensures r.Success? && r.value.start.Some? && r.value.end.Some? ==> r.value.start.value <= r.value.end.value
    ensures r.Failure? && r.error.BadTimezone? <==> !isValidTimezone(EffectiveTimezone(req))
    ensures r.Failure? && r.error.BadTimezone? ==> r.error.timezone == EffectiveTimezone(req)
    ensures r.Failure? && r.error.BadStart? ==>
      && isValidTimezone(EffectiveTimezone(req))
      && Supplied(req.start) && parseDate(req.start.value).None?
      && r.error.rawStart == req.start.value
    ensures r.Failure? && r.error.BadEnd? ==>
      && isValidTimezone(EffectiveTimezone(req))
      && (Supplied(req.start) ==> parseDate(req.start.value).Some?)
      && Supplied(req.end) && parseDate(req.end.value).None?
      && r.error.rawEnd == req.end.value
    ensures r.Failure? && r.error.BadRange? ==>
      && Supplied(req.start) && Supplied(req.end)
      && parseDate(req.start.value).Some? && parseDate(req.end.value).Some?
      && parseDate(req.start.value).value > parseDate(req.end.value).value
      && r.error == BadRange(req.start.value, req.end.value)
  {
    var timezone := EffectiveTimezone(req);
    if !isValidTimezone(timezone) then Failure(BadTimezone(timezone))
    else if Supplied(req.start) && parseDate(req.start.value).None? then Failure(BadStart(req.start.value))
    else if Supplied(req.end) && parseDate(req.end.value).None? then Failure(BadEnd(req.end.value))
    else
      var start := ParsedIfSupplied(req.start, parseDate);
      var end := ParsedIfSupplied(req.end, parseDate);
      if start.Some? && end.Some? && start.value > end.value then Failure(BadRange(req.start.value, req.end.value))
      else Success(Accepted(timezone, start, end))
  }

  /** `part` occurs in `text` at position `i`. */
  predicate OccursAt(text: string, part: string, i: nat)
  {
    i + |part| <= |text| && text[i..i + |part|] == part
  }

  /** `text` holds `part` somewhere. */
  ghost predicate Mentions(text: string, part: string)
  {
    exists i: nat :: OccursAt(text, part, i)
  }

  /** The message of a 400 response; it quotes the offending raw value. */
  function RejectionText(e: Rejection): (text: string)
    ensures e.BadTimezone? ==> Mentions(text, e.timezone)
    ensures e.BadStart? ==> Mentions(text, e.rawStart) && Mentions(text, "start")
    ensures e.BadEnd? ==> Mentions(text, e.rawEnd) && Mentions(text, "end")
    ensures e.BadRange? ==> Mentions(text, e.rawStart) && Mentions(text, e.rawEnd)
  {
    match e
    case BadTimezone(tz) =>
      var text := "Invalid timezone: " + tz + ". Please provide a valid timezone.";
      assert OccursAt(text, tz, 18);
      text
    case BadStart(raw) =>
      var text := "Invalid start date: \"" + raw + "\". Please provide a valid date format (e.g., YYYY-MM-DD, MM-DD-YYYY).";
      assert OccursAt(text, raw, 21);
      assert OccursAt(text, "start", 8);
      text
    case BadEnd(raw) =>
      var text := "Invalid end date: \"" + raw + "\". Please provide a valid date format (e.g., YYYY-MM-DD, MM-DD-YYYY).";
      assert OccursAt(text, raw, 19);
      assert OccursAt(text, "end", 8);
      text
    case BadRange(s, e) =>
      var text := "Invalid date range: Start date (" + s + ") cannot be after end date (" + e + ").";
      assert OccursAt(text, s, 32);
      assert OccursAt(text, e, 32 + |s| + 28);
      text
  }

  /** The fixed message of a 500 from GET /data; it never includes the error that was thrown. */
  const UnexpectedErrorText := "An unexpected error occurred while processing your request. Please try again or contact support if the issue persists."

  /** The fixed messages of GET /data/range. */
  const RangeFetchedText := "Start and end timestamps retrieved successfully"
  const RangeErrorText := "Internal server error"

  /** The JSON body's payload field, if any. */
  datatype Payload = NoPayload | Rows(data: seq<EnergyReading>) | Bounds(range: TimeRange)

  /**
   * The JSON body's message field. Fixed or input-quoting messages are kept as text; the 404
   * and 200 messages of GET /data print dates with toLocaleDateString and toISOString, so they
   * are kept as the values they are printed from.
   */
  datatype Message =
    | Text(text: string)
    | NoDataMessage(start: Option<Instant>, end: Option<Instant>)
    | FetchedMessage(timezone: string, start: Option<Instant>, end: Option<Instant>)

  /** An HTTP response: its status code and its JSON body `{success, data | range, message}`. */
  datatype Response = Response(status: int, success: bool, payload: Payload, message: Message)

  /** The table rows GET /data means to return for an accepted request, ordered by timestamp. */
  function MatchingRows(table: seq<StoredRow>, a: Accepted, localDay: (Instant, string) -> int): seq<StoredRow>
  {
    SortByTime(KeepIf(table, (ts: Instant) => InDayWindow(localDay, a.timezone, a.start, a.end, ts)))
  }

  /** Those rows as the endpoint returns them, with local_time in the requested zone. */
  function Matching(table: seq<StoredRow>, a: Accepted, host: Host): seq<EnergyReading>
  {
    ProjectAll(MatchingRows(table, a, host.localDay), a.timezone, host.localTime)
  }

  /**
   * GET /data. A rejected request is answered 400 before any query is built or run; a store
   * failure is answered 500 with a fixed message; an empty result 404; otherwise 200 with the
   * rows in the order the store returned them.
   */
  method HandleData(req: Request, host: Host, db: Database) returns (resp: Response)
    ensures resp.success <==> resp.status == 200
    ensures Validate(req, host.isValidTimezone, host.parseDate).Failure? ==>
      resp == Response(400, false, NoPayload, Text(RejectionText(Validate(req, host.isValidTimezone, host.parseDate).error)))
    ensures Validate(req, host.isValidTimezone, host.parseDate).Success? && db.Failing? ==>
      resp == Response(500, false, NoPayload, Text(UnexpectedErrorText))
    ensures Validate(req, host.isValidTimezone, host.parseDate).Success? && db.Reachable? ==>
      var a := Validate(req, host.isValidTimezone, host.parseDate).value;
      if Matching(db.table, a, host) == [] then resp == Response(404, false, NoPayload, NoDataMessage(a.start, a.end))
      else resp == Response(200, true, Rows(Matching(db.table, a, host)), FetchedMessage(a.timezone, a.start, a.end))
  {
    var checked := Validate(req, host.isValidTimezone, host.parseDate);
    if checked.Failure? {
      return Response(400, false, NoPayload, Text(RejectionText(checked.error)));
    }
    var a := checked.value;
    var query, params := BuildQuery(a.timezone, a.start, a.end);
    if db.Failing? {
      return Response(500, false, NoPayload, Text(UnexpectedErrorText));
    }
    var rows := RunQuery(query, params, db.table, host.localDay, host.localTime);
    BuiltQueryYieldsMatching(query, params, db.table, a, host);
    if |rows| == 0 {
      return Response(404, false, NoPayload, NoDataMessage(a.start, a.end));
    }
    resp := Response(200, true, Rows(rows), FetchedMessage(a.timezone, a.start, a.end));
  }

  /**
   * A well-formed query that selects local_time in the requested zone, orders by timestamp and
   * admits exactly the local-day window returns the readings of `Matching`.
   */
  lemma BuiltQueryYieldsMatching(query: seq<Clause>, params: seq<Param>, table: seq<StoredRow>, a: Accepted, host: Host)
    requires WellFormed(query, params)
    requires query[0] == SelectLocalTime(1) && params[0] == Zone(a.timezone)
    requires OrderByTimestamp in query
    requires forall ts :: Admits(query, params, host.localDay, ts) <==> InDayWindow(host.localDay, a.timezone, a.start, a.end, ts)
    ensures RunQuery(query, params, table, host.localDay, host.localTime) == Matching(table, a, host)
  {
    KeepIfAgrees(table, (ts: Instant) => Admits(query, params, host.localDay, ts),
                 (ts: Instant) => InDayWindow(host.localDay, a.timezone, a.start, a.end, ts));
  }

  /** GET /data/range: the single aggregate row as `range`, or a fixed 500 message. */
  function HandleRange(db: Database): (resp: Response)
    ensures resp.success <==> resp.status == 200
    ensures db.Failing? ==> resp == Response(500, false, NoPayload, Text(RangeErrorText))
    ensures db.Reachable? ==> resp.status == 200 && resp.message == Text(RangeFetchedText)
    ensures db.Reachable? && db.table == [] ==> resp.payload == Bounds(TimeRange(None, None))
    ensures db.Reachable? ==> resp.payload.Bounds?
    ensures db.Reachable? ==> forall r :: r in db.table ==>
      && resp.payload.range.startTimestamp.Some? && resp.payload.range.startTimestamp.value <= r.timestamp
      && resp.payload.range.endTimestamp.Some? && r.timestamp <= resp.payload.range.endTimestamp.value
    ensures db.Reachable? && db.table != [] ==>
      && (exists r :: r in db.table && r.timestamp == resp.payload.range.startTimestamp.value)
      && (exists r :: r in db.table && r.timestamp == resp.payload.range.endTimestamp.value)
    ensures db.Reachable? ==> resp.payload == Bounds(RangeQuery(db.table)[0])
  {
    match db
    case Failing(_) => Response(500, false, NoPayload, Text(RangeErrorText))
    case Reachable(table) =>
      var rows := RangeQuery(table);
      Response(200, true, Bounds(rows[0]), Text(RangeFetchedText))
  }

  // ---------------------------------------------------------------------------------------
  // Properties of the validation chain

  /** A missing or empty timezone is read as "UTC"; a missing or empty date is never parsed. */
  lemma EmptyMeansAbsent(req: Request, isValidTimezone: string -> bool, parseDate: string -> Option<Instant>)
    ensures EffectiveTimezone(req.(timezone := Some(""))) == EffectiveTimezone(req.(timezone := None)) == "UTC"
    ensures Validate(req.(start := Some("")), isValidTimezone, parseDate) == Validate(req.(start := None), isValidTimezone, parseDate)
    ensures Validate(req.(end := Some("")), isValidTimezone, parseDate) == Validate(req.(end := None), isValidTimezone, parseDate)
  {
  }

  /** An invalid timezone is rejected whatever the date parser would say: no date is parsed. */
  lemma TimezoneCheckedFirst(req: Request, isValidTimezone: string -> bool,
                             parseDate: string -> Option<Instant>, parseDate': string -> Option<Instant>)
    requires !isValidTimezone(EffectiveTimezone(req))
    ensures Validate(req, isValidTimezone, parseDate) == Validate(req, isValidTimezone, parseDate')
    ensures Validate(req, isValidTimezone, parseDate) == Failure(BadTimezone(EffectiveTimezone(req)))
  {
  }

  /** An unparseable start is rejected naming the raw start string, whatever `end` holds. */
  lemma BadStartIgnoresEnd(req: Request, end': Option<string>, isValidTimezone: string -> bool, parseDate: string -> Option<Instant>)
    requires isValidTimezone(EffectiveTimezone(req))
    requires Supplied(req.start) && parseDate(req.start.value).None?
    ensures Validate(req, isValidTimezone, parseDate) == Validate(req.(end := end'), isValidTimezone, parseDate)
    ensures Validate(req, isValidTimezone, parseDate) == Failure(BadStart(req.start.value))
  {
  }

  /** Start and end that parse to the same instant are accepted. */
  lemma EqualInstantsAccepted(req: Request, isValidTimezone: string -> bool, parseDate: string -> Option<Instant>)
    requires isValidTimezone(EffectiveTimezone(req))
    requires Supplied(req.start) && Supplied(req.end)
    requires parseDate(req.start.value).Some? && parseDate(req.start.value) == parseDate(req.end.value)
    ensures Validate(req, isValidTimezone, parseDate).Success?
  {
  }

  // ---------------------------------------------------------------------------------------
  // Properties of the rows GET /data returns

  /** The local calendar day never goes backwards as time goes forwards, in any zone. */
  ghost predicate MonotoneDays(localDay: (Instant, string) -> int)
  {
    forall t, t', tz :: t <= t' ==> localDay(t, tz) <= localDay(t', tz)
  }

  /**
   * The rows selected for an accepted request are exactly the table rows in the local-day
   * window, each as often as in the table, in ascending timestamp order.
   */
  lemma MatchingRowsAreTheWindow(table: seq<StoredRow>, a: Accepted, localDay: (Instant, string) -> int)
    ensures SortedByTime(MatchingRows(table, a, localDay))
    ensures multiset(MatchingRows(table, a, localDay)) <= multiset(table)
    ensures forall x :: multiset(MatchingRows(table, a, localDay))[x] ==
                        if InDayWindow(localDay, a.timezone, a.start, a.end, x.timestamp) then multiset(table)[x] else 0
    ensures forall x :: x in MatchingRows(table, a, localDay) <==>
                        x in table && InDayWindow(localDay, a.timezone, a.start, a.end, x.timestamp)
  {
  }

  /** The readings of a 200 response come in ascending timestamp order. */
  lemma MatchingReadingsOrdered(table: seq<StoredRow>, a: Accepted, host: Host)
    ensures var readings := Matching(table, a, host);
      forall i, j :: 0 <= i < j < |readings| ==> readings[i].timestamp <= readings[j].timestamp
  {
  }

  /** Each reading of a 200 response lies in the local-day window and carries its local_time in the requested zone. */
  lemma MatchingReadingsInWindow(table: seq<StoredRow>, a: Accepted, host: Host)
    ensures var readings := Matching(table, a, host);
      forall i :: 0 <= i < |readings| ==>
        && InDayWindow(host.localDay, a.timezone, a.start, a.end, readings[i].timestamp)
        && readings[i].localTime == host.localTime(readings[i].timestamp, a.timezone)
  {
  }

  /** Every table row in the local-day window is answered by a reading with its columns and its local_time. */
  lemma MatchingReadingsComplete(table: seq<StoredRow>, a: Accepted, host: Host, x: StoredRow)
    requires x in table && InDayWindow(host.localDay, a.timezone, a.start, a.end, x.timestamp)
    ensures exists i ::
              && 0 <= i < |Matching(table, a, host)|
              && ProjectionOf(Matching(table, a, host)[i], x, host.localTime(x.timestamp, a.timezone))
  {
    var rows := MatchingRows(table, a, host.localDay);
    var readings := Matching(table, a, host);
    MatchingRowsAreTheWindow(table, a, host.localDay);
    assert x in rows;
    var i :| 0 <= i < |rows| && rows[i] == x;
    assert ProjectionOf(readings[i], x, host.localTime(x.timestamp, a.timezone));
  }

  /** When the table is stored in timestamp order, the selected rows keep the table's order. */
  lemma SortedTableKeepsTableOrder(table: seq<StoredRow>, a: Accepted, localDay: (Instant, string) -> int)
    requires SortedByTime(table)
    ensures MatchingRows(table, a, localDay) == KeepIf(table, (ts: Instant) => InDayWindow(localDay, a.timezone, a.start, a.end, ts))
  {
    var keep := (ts: Instant) => InDayWindow(localDay, a.timezone, a.start, a.end, ts);
    KeepIfSorted(table, keep);
    SortByTimeOfSorted(KeepIf(table, keep));
  }

  /** With a monotone local day, no row whose instant lies between start and end is lost. */
  lemma InstantRangeInsideDayWindow(localDay: (Instant, string) -> int, a: Accepted, ts: Instant)
    requires MonotoneDays(localDay)
    requires a.start.Some? ==> a.start.value <= ts
    requires a.end.Some? ==> ts <= a.end.value
    ensures InDayWindow(localDay, a.timezone, a.start, a.end, ts)
  {
  }

  /**
   * A row stamped on the local day, in the requested zone, of both parsed instants `start` and
   * `end` is returned. This is "date D returns day D in the zone" only when the parser resolves
   * D to an instant that falls on day D in that zone; ParsedDateShiftsDay shows it need not.
   */
  lemma SameLocalDayIncluded(localDay: (Instant, string) -> int, a: Accepted, ts: Instant)
    requires a.start.Some? ==> localDay(ts, a.timezone) == localDay(a.start.value, a.timezone)
    requires a.end.Some? ==> localDay(ts, a.timezone) == localDay(a.end.value, a.timezone)
    ensures InDayWindow(localDay, a.timezone, a.start, a.end, ts)
  {
  }

  /**
   * The bounds are the local days, in the requested zone, of the instants the parser produced,
   * not the calendar dates the user wrote. Here the parser resolves "2024-12-19" (day 20076 of
   * the epoch) to 12:00 UTC, and the zone runs 13 hours ahead of UTC. The request start = end =
   * "2024-12-19" is accepted, yet the row at local midnight of 19 December is not returned,
   * while a row at local midnight of 20 December is.
   */
  lemma ParsedDateShiftsDay()
    ensures
      var day := (t: Instant, tz: string) => if tz == "Pacific/Auckland" then (t + 46800000) / 86400000 else t / 86400000;
      var parse := (s: string) => if s == "2024-12-19" then Some(1734609600000) else None;
      var req := Request(Some("Pacific/Auckland"), Some("2024-12-19"), Some("2024-12-19"));
      var a := Accepted("Pacific/Auckland", Some(1734609600000), Some(1734609600000));
      && MonotoneDays(day)
      && Validate(req, (tz: string) => true, parse) == Success(a)
      && day(1734519600000, "Pacific/Auckland") == 20076
      && !InDayWindow(day, a.timezone, a.start, a.end, 1734519600000)
      && day(1734606000000, "Pacific/Auckland") == 20077
      && InDayWindow(day, a.timezone, a.start, a.end, 1734606000000)
  {
  }

  /**
   * The window the handler evidently intends: the dates the user wrote name calendar days, read
   * in the requested zone, and a row is returned when its local day lies from the start day
   * through the end day.
   */
  predicate InCalendarWindow(localDay: (Instant, string) -> int, timezone: string,
                             startDay: Option<int>, endDay: Option<int>, ts: Instant)
  {
    && (startDay.Some? ==> localDay(ts, timezone) >= startDay.value)
    && (endDay.Some? ==> localDay(ts, timezone) <= endDay.value)
  }

  /** The rows the intended window selects, in ORDER BY timestamp order. */
  function IntendedRows(table: seq<StoredRow>, localDay: (Instant, string) -> int, timezone: string,
                        startDay: Option<int>, endDay: Option<int>): seq<StoredRow>
  {
    SortByTime(KeepIf(table, (ts: Instant) => InCalendarWindow(localDay, timezone, startDay, endDay, ts)))
  }

  /**
   * In the intended window, start = end = day D selects exactly the table rows whose local day
   * in the zone is D, each as often as in the table, in ascending timestamp order.
   */
  lemma CalendarDayWindowExact(table: seq<StoredRow>, localDay: (Instant, string) -> int, timezone: string, d: int)
    ensures SortedByTime(IntendedRows(table, localDay, timezone, Some(d), Some(d)))
    ensures forall x :: multiset(IntendedRows(table, localDay, timezone, Some(d), Some(d)))[x] ==
                        if localDay(x.timestamp, timezone) == d then multiset(table)[x] else 0
    ensures forall x :: x in IntendedRows(table, localDay, timezone, Some(d), Some(d)) <==>
                        x in table && localDay(x.timestamp, timezone) == d
  {
  }

  /**
   * The window as written agrees with the intended one exactly when each parsed instant falls,
   * in the requested zone, on the day the user wrote.
   */
  lemma AsWrittenMeetsIntendedWhenParsedOnDay(table: seq<StoredRow>, localDay: (Instant, string) -> int, a: Accepted,
                                              startDay: Option<int>, endDay: Option<int>)
    requires a.start.Some? <==> startDay.Some?
    requires a.end.Some? <==> endDay.Some?
    requires a.start.Some? ==> localDay(a.start.value, a.timezone) == startDay.value
    requires a.end.Some? ==> localDay(a.end.value, a.timezone) == endDay.value
    ensures forall ts :: InDayWindow(localDay, a.timezone, a.start, a.end, ts) <==>
                         InCalendarWindow(localDay, a.timezone, startDay, endDay, ts)
    ensures MatchingRows(table, a, localDay) == IntendedRows(table, localDay, a.timezone, startDay, endDay)
  {
    KeepIfAgrees(table, (ts: Instant) => InDayWindow(localDay, a.timezone, a.start, a.end, ts),
                        (ts: Instant) => InCalendarWindow(localDay, a.timezone, startDay, endDay, ts));
  }

  /**
   * The range check compares raw instants while the filter compares local days: a start later
   * in the day than the end is rejected with 400, though the local-day window it describes
   * (here in a zone whose local day is the UTC day) is not empty.
   */
  lemma RangeCheckStricterThanDayFilter()
    ensures
      var day := (t: Instant, tz: string) => t / 86400000;
      var parse := (s: string) => if s == "10:00" then Some(36000000) else if s == "09:00" then Some(32400000) else None;
      var req := Request(Some("UTC"), Some("10:00"), Some("09:00"));
      && MonotoneDays(day)
      && Validate(req, (tz: string) => true, parse) == Failure(BadRange("10:00", "09:00"))
      && InDayWindow(day, "UTC", Some(36000000), Some(32400000), 36000000)
  {
  }
}
