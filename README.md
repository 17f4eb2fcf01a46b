# Energy dashboard: the /data request pipeline and the client data session

This project models the two pieces of the energy-monitoring dashboard that carry logic:

- **GET /data** (`backend_server/app.js`). The handler checks its query parameters in a fixed
  order: the timezone (it defaults to `"UTC"` when missing or empty), then `start`, then `end`,
  then `start <= end` on the parsed instants. Each failure gives its own 400 response. The
  handler then builds a parameterised SQL query. `params` starts as `[timezone]`. An optional
  lower bound on the local day of `start` is added, then an optional upper bound on the day after
  the local day of `end`. Each bound's placeholder is `$(params.length + 1)`. The query ends with
  `ORDER BY timestamp`. The handler runs the query and answers 404 for an empty result, 200 with
  the rows otherwise, and 500 with a fixed message when the store throws.
  **GET /data/range** returns the single MIN/MAX row as `range`, or 500.
- **EnergyProvider / useEnergy** (`hooks/useEnergy.tsx`). This is a session holding `data`,
  `loading`, `error` and `selectedTimezone`. `fetchData` raises `loading` and clears `error`.
  It requests `…/data?timezone=<tz>` and records the outcome: success, an unsuccessful body, or a
  thrown error. It lowers `loading` on every path. `updateTimezone` and `refreshData` fetch with
  the new or the current timezone. `useEnergy` throws outside a provider.

Modules:

- `Wrappers`: `Option` and `Result`.
- `Readings`: stored rows and returned readings, the row filter, the ordering by timestamp (a
  stable insertion sort), and MIN/MAX.
- `QueryBuilder`: the clauses and positional parameters of the query, their well-formedness and
  meaning, and the imperative `BuildQuery`.
- `Store`: the database as either a table or a failure, and its evaluation of a built query.
- `DataEndpoint`: the validation chain, the message texts, the two handlers and the lemmas about
  them.
- `EnergySession`: the `EnergyProvider` class and `useEnergy`.

The runtime pieces the backend calls but does not define are parameters (the `Host` datatype):

- `isValidTimezone`: a try/catch around `Intl.DateTimeFormat`.
- `parseDate`: chrono-node followed by `toISOString`; it is a partial function to millisecond
  instants.
- `localDay(instant, zone)`: the local calendar day the SQL computes with `AT TIME ZONE … ::date`.
- `localTime(instant, zone)`: the `to_char` text of `local_time`.

The client's network is a function from the requested URL to the outcome.

As the source does, the range check compares raw instants (`backend_server/app.js:83`) while the
filter compares local calendar days. `RangeCheckStricterThanDayFilter` exhibits a request that the
check rejects although its local-day window is not empty.

The bounds of the day window are the local days, in the requested zone, of the instants the
parser produced (`backend_server/app.js:105`, `:109`), not the calendar dates the user wrote. The
two differ when the parser's frame is not the requested zone; see "## Findings".

## Model

| member | source | states |
|---|---|---|
| `DataEndpoint.Validate` | backend_server/app.js:43-88 | Acceptance holds exactly when the timezone is valid, each supplied date parses, and the start instant is not after the end instant. An accepted request carries the effective timezone (`"UTC"` when missing or empty) and the parsed instants, with `start <= end`. Each rejection is characterised by the check that failed first, in the order timezone, start, end, range, and carries the raw strings. |
| `DataEndpoint.RejectionText` | backend_server/app.js:48-88 | Each 400 message quotes the offending value: the timezone, the raw start (and names "start"), the raw end (and names "end"), or both raw strings for an inverted range. |
| `DataEndpoint.EmptyMeansAbsent` | backend_server/app.js:43-71 | A missing or empty timezone becomes `"UTC"`. An empty `start` or `end` gives the same outcome as an absent one, so it is never parsed. |
| `DataEndpoint.TimezoneCheckedFirst` | backend_server/app.js:47-53 | An invalid timezone is rejected with 400 naming it, whatever the date parser would answer: no date is parsed before the timezone check. |
| `DataEndpoint.BadStartIgnoresEnd` | backend_server/app.js:58-80 | An unparseable start is rejected with 400 naming the raw start string, whatever `end` holds: `end` is not examined. |
| `DataEndpoint.EqualInstantsAccepted` | backend_server/app.js:82-88 | Start and end that parse to the same instant pass the range check. |
| `QueryBuilder.BuildQuery` | backend_server/app.js:90-113 | `params[0]` is the timezone, and `params` has 1 + [start] + [end] entries. The start clause uses `$2` and holds the start instant. The end clause uses `$2` without a start and `$3` with one, and holds the end instant. No bound clause appears without its input. The start clause precedes the end clause. The query opens with the SELECT (zone `$1`) and ends with ORDER BY timestamp. Every placeholder names an existing parameter of the right kind. The WHERE condition admits exactly the instants in the local-day window. |
| `Store.RunQuery` | backend_server/app.js:90-116 | The store returns exactly the table rows the WHERE clauses admit: every returned reading is the projection of a table row it admits, and each table row's reading (its columns and `local_time` in the SELECT's zone) occurs exactly as often as the row does in the table when the row is admitted, and not at all otherwise. The result is never longer than the table, and is in ascending timestamp order when the query says ORDER BY timestamp. |
| `DataEndpoint.BuiltQueryYieldsMatching` | backend_server/app.js:90-116 | A well-formed query that selects `local_time` in the requested zone, orders by timestamp and admits exactly the local-day window makes the store return exactly the window's readings (`Matching`), as the handler relies on. |
| `DataEndpoint.HandleData` | backend_server/app.js:42-140 | `success` holds exactly on 200. A rejected request gets 400 with its rejection message and no query runs. A store failure gets 500 with one fixed message, the same for every error. An empty selection gets 404 with `success:false`. Otherwise the response is 200 with `success:true` and exactly the selected rows, in the store's order. |
| `DataEndpoint.MatchingRowsAreTheWindow` | backend_server/app.js:104-113 | The selected rows are exactly the table rows whose local day lies from the local day of `start` through the local day of `end`, each exactly as often as in the table, in ascending timestamp order. |
| `DataEndpoint.MatchingReadingsOrdered` | backend_server/app.js:113 | The readings of a 200 response come in ascending timestamp order. |
| `DataEndpoint.MatchingReadingsInWindow` | backend_server/app.js:90-111 | Each returned reading lies in the local-day window and carries `local_time` formatted in the requested zone. |
| `DataEndpoint.MatchingReadingsComplete` | backend_server/app.js:90-111 | Every table row in the local-day window is returned, with its id, timestamp, readings and `local_time`. |
| `DataEndpoint.SortedTableKeepsTableOrder` | backend_server/app.js:113 | On a table stored in timestamp order, ORDER BY leaves the selected rows in table order. |
| `DataEndpoint.InstantRangeInsideDayWindow` | backend_server/app.js:83-111 | With a monotone local day, every instant between an accepted start and end lies inside the day window. |
| `DataEndpoint.SameLocalDayIncluded` | backend_server/app.js:104-111 | A row on the local day, in the requested zone, of both parsed instants `start` and `end` is always returned. |
| `DataEndpoint.RangeCheckStricterThanDayFilter` | backend_server/app.js:83-111 | The range check and the filter disagree. Start 10:00 and end 09:00 of one day are rejected with 400, though the local-day window they describe contains 10:00 of that day. |
| `DataEndpoint.ParsedDateShiftsDay` | backend_server/app.js:105-109 | With a parser that resolves "2024-12-19" to 12:00 UTC and a zone 13 hours ahead of UTC, start = end = "2024-12-19" is accepted, the row at local midnight of 19 December is not returned, and a row at local midnight of 20 December is. |
| `DataEndpoint.CalendarDayWindowExact` | backend_server/app.js:104-113 | The intended selection, where the written dates are calendar days read in the requested zone, with start = end = day D holds exactly the table rows whose local day is D, each as often as in the table, in ascending timestamp order. |
| `DataEndpoint.AsWrittenMeetsIntendedWhenParsedOnDay` | backend_server/app.js:104-113 | The window as written admits the same instants as the intended one, and selects the same rows in the same order, whenever each parsed instant falls, in the requested zone, on the day the user wrote. |
| `DataEndpoint.HandleRange` | backend_server/app.js:144-168 | A store failure gives 500 "Internal server error". Otherwise the response is 200 with `range` equal to the aggregate query's row `rows[0]`: `(null, null)` on an empty table, otherwise the earliest and the latest timestamp, each attained by some row and bounding every row. |
| `Store.RangeQuery` | backend_server/app.js:147-154 | The aggregate query yields exactly one row: NULLs on an empty table, otherwise the minimum and maximum timestamps, each attained by some row, bounding every timestamp, the minimum no later than the maximum. |
| `Readings.MinTimestamp` | backend_server/app.js:149 | MIN(timestamp) is NULL exactly on an empty table. Otherwise it is some row's timestamp and no later than any. |
| `Readings.MaxTimestamp` | backend_server/app.js:150 | MAX(timestamp) is NULL exactly on an empty table. Otherwise it is some row's timestamp and no earlier than any. |
| `Readings.ProjectAll` | backend_server/app.js:91-98 | The SELECT list keeps every row, in order, with its columns unchanged and `local_time` formatted from its timestamp in the zone. |
| `Readings.ProjectAllCounts` | backend_server/app.js:91-98 | The SELECT list answers each row with a reading that occurs exactly as often as the row does. |
| `Readings.KeepIf` | backend_server/app.js:100-111 | The WHERE filter keeps exactly the rows whose timestamp it admits, each exactly as often as in the table, and nothing else. |
| `Readings.SortByTime` | backend_server/app.js:113 | ORDER BY timestamp yields a permutation of the rows in ascending timestamp order. |
| `EnergySession.DataUrl` | hooks/useEnergy.tsx:38-40 | The URL is the fixed `/data?timezone=` prefix followed by the timezone character for character, with no encoding. |
| `EnergySession.Settle` | hooks/useEnergy.tsx:41-49 | A successful body replaces `data` and leaves no error. An unsuccessful body keeps `data` and sets its message, or `'Failed to fetch data'` when the message is missing or empty. A thrown error keeps `data` and sets `'Failed to fetch data. Please try again.'`. A set error is never empty. |
| `EnergySession.FailureKeepsLastReadings` | hooks/useEnergy.tsx:43-49 | A failed fetch after a successful one leaves the successful readings in place and shows an error. |
| `EnergySession.EnergyProvider.constructor` | hooks/useEnergy.tsx:26-31 | The session starts with no data, not loading, no error, and the device's timezone. |
| `EnergySession.EnergyProvider.BeginFetch` | hooks/useEnergy.tsx:34-35 | A fetch first sets `loading` to true and `error` to null. It leaves `data` and the timezone alone. |
| `EnergySession.EnergyProvider.FetchData` | hooks/useEnergy.tsx:33-53 | After `fetchData(tz)` on any path, `loading` is false. `data` and `error` are what `Settle` gives for the outcome of fetching `DataUrl(tz)`. `selectedTimezone` is unchanged. |
| `EnergySession.EnergyProvider.UpdateTimezone` | hooks/useEnergy.tsx:60-63 | `updateTimezone(tz)` selects `tz` and fetches `DataUrl(tz)` with that same `tz`. |
| `EnergySession.EnergyProvider.RefreshData` | hooks/useEnergy.tsx:65-67 | `refreshData` fetches with the selected timezone and leaves it unchanged. |
| `EnergySession.UseEnergy` | hooks/useEnergy.tsx:85-91 | Outside a provider the result is the error "useEnergy must be used within an EnergyProvider". Inside one it is the provider's session. |

## Left out

- `isValidTimezone`, chrono-node date parsing, `AT TIME ZONE`/daylight-saving arithmetic and
  `to_char` formatting are foreign code. They are parameters here. Only monotonicity of the local
  day is assumed, and only where a lemma says so.
- The SQL text is modelled clause by clause with numbered placeholders, not character by
  character.
- Postgres leaves the order of rows with equal timestamps unspecified. The model keeps table
  order for ties.
- The 404 message of GET /data prints dates with `toLocaleDateString`, which depends on the
  locale. The 200 message prints the timezone and the parser's ISO strings; ISO formatting of an
  instant is not modelled. The model keeps the values both are printed from (`NoDataMessage`,
  `FetchedMessage`), not their wording.
- DataEndpoint.SameLocalDayIncluded: "a date D returns day D in the zone" holds only when the
  parser resolves D to an instant that falls on day D in the requested zone. The parser's frame is
  foreign, so the model cannot promise it (see `ParsedDateShiftsDay` under "## Findings").
- The connection pool, `client.release()` (missing on the error path), `console.error` logging,
  Express routing, CORS, `app.listen` and the `GET /` liveness route are not part of this model.
- `EnergySession.EnergyProvider.FetchData` models one fetch at a time with its outcome given. It
  does not model overlapping fetches, React's batched state updates, the initial `useEffect`
  fetch, or reading the device timezone from `Intl`. The device timezone is a constructor
  argument.
- The CSV import and local test scripts, the heat-map colour gradient and all UI components are
  not part of this model.

## Findings

| source | as written | input that shows it | evidently intended | confidence | as-written member | corrected member |
|---|---|---|---|---|---|---|
| backend_server/app.js:105-109 | The day bounds are the local days, in the requested zone, of the instants the date parser produced in its own frame. | Zone 13 hours ahead of UTC (Pacific/Auckland in December), parser resolving "2024-12-19" to 12:00 UTC, start = end = "2024-12-19": the rows of 20 December are returned and those of 19 December are not. A parser resolving to midnight UTC shifts the window one day earlier for every zone west of UTC. | The written dates name calendar days in the requested zone: start = end = D returns exactly the rows of day D there. | not executed; medium (depends on the frame the date parser uses on the server) | `DataEndpoint.ParsedDateShiftsDay` | `DataEndpoint.CalendarDayWindowExact` |

The handler model (`HandleData`, `BuildQuery`) keeps the code's window, because it models the
code. `AsWrittenMeetsIntendedWhenParsedOnDay` states when the two windows coincide.
