# InfluxDB query adapter, modelled in Dafny

This project models the query adapter of an MCP server that exposes an
InfluxDB v2 database (`influxdb.ts`). The adapter has three parts:

- **Row collection.** `queryInfluxDB` sends one Flux query to the client and collects the rows the client streams back through its `next`, `error` and `complete` callbacks into a promise.
- **Query builders.** `getLatestData` and `getDataInRange` fill a Flux template with a bucket, a measurement, a field and a time window. The window defaults to `-1h` and `now()`.
- **Two-phase aggregation.** `getRecentActiveMeasurements` first lists the measurements with data in the last two days. It then queries each one in turn for the latest sample of each field, and keeps one summary per measurement that returned rows.

## How the model is organised

- **client.dfy (`Client`).** Cells are `Str`, `Num` or `Time`. A row flattened with its table metadata is a `Record`, a map from column name to cell. A missing column reads as `None`, which is JavaScript's `undefined`, and a `${...}` placeholder turns `None` into the text `undefined`.
- **Client events and outcomes.** The client's callbacks are a sequence of `Event`s: `Next(row)`, `Error(e)` and `Complete`. A promise ends as an `Outcome`:
  - `Resolved(value)`;
  - `Rejected(error)`;
  - `Pending`, when the stream ends without a terminal event and the promise never settles.
- **The database.** The database is a `Responder`: a function from a call's position in the database's query log and the query text to the events the client delivers. Data may therefore change from one call to the next.
- **collector.dfy (`Collector`).** `Settle` is the specification of the collector. `Collect` is the collector itself: a loop with a `results` list, proved equal to `Settle`.
- **flux.dfy (`Flux`).** The four query templates, line by line, and lemmas stating what each query text contains.
- **aggregation.dfy (`Aggregation`).** `RecentActive` gives the outcome of `getRecentActiveMeasurements` as a function of the database's answers. `Issued` gives the queries it sends. Both are built from `RunAll`, the sequential awaits, and `Select`, the filter-map.
- **influxdb.dfy (`InfluxDB`).** A `Database` class holding the responder and the log of the queries it has received, with `QueryRows` as its one method. The four exported functions are module-level methods that take the `Database` as a parameter. Each is proved against the functions above.

## Model

| member | source | states |
|---|---|---|
| Collector.Settle | influxdb.ts:32-46 | The outcome of the collecting promise for a delivered event stream. It is characterised by `SettleDecided`, and `Collect` is proved equal to it. |
| Collector.Collect | influxdb.ts:31-48 | The `results` loop over the delivered events ends exactly as `Settle` says: rows pushed by `next` are resolved on `complete`, and `error` rejects. |
| Collector.FirstTerminal | influxdb.ts:36-45 | Every event before the returned position is a `next`, and the event at it (if any) is `error` or `complete`. |
| Collector.SettleDecided | influxdb.ts:32-46 | The first terminal event decides the outcome. `complete` resolves with the rows delivered before it. `error` rejects with its error. A stream with no terminal event leaves the promise pending. |
| Collector.CompleteYieldsEveryRow | influxdb.ts:33-39 | A stream that completes after k rows resolves with exactly k records, record j being row j, in delivery order. |
| Collector.ErrorDiscardsRows | influxdb.ts:40-42 | A stream that errors before completing rejects with that error, and no collected row is returned. |
| Collector.LaterEventsIgnored | influxdb.ts:32-46 | Once a terminal event has been delivered, further events do not change how the promise settles: resolved or rejected, and with which error. |
| Flux.LatestDataQuery | influxdb.ts:58-64 | getLatestData's query text, line by line, with `-1h` when no time range is given. Its content is stated by `LatestDataQueryText`. |
| Flux.DataInRangeQuery | influxdb.ts:78-83 | getDataInRange's query text, line by line, with `now()` when no stop is given. Its content is stated by `DataInRangeQueryText`. |
| Flux.MeasurementsQuery | influxdb.ts:94-98 | The phase-1 query text of getRecentActiveMeasurements. Its content is stated by `MeasurementsQueryText`. |
| Flux.MeasurementsQueryText | influxdb.ts:94-98 | The phase-1 query reads the given bucket over the last two days and ends with `distinct(column: "_measurement")`. |
| Flux.LatestPerFieldQuery | influxdb.ts:107-113 | The phase-2 query text for one measurement. Its content is stated by `LatestPerFieldQueryText`. |
| Flux.LatestDataQueryText | influxdb.ts:57-64 | getLatestData's query reads the given bucket over the given window, defaulting to `-1h`. It filters on `_measurement == "<measurement>"` and `_field == "<field>"`, and it ends with `last()`. |
| Flux.LatestDataDefaultRange | influxdb.ts:57 | Omitting the time range gives the same query as passing `-1h`. |
| Flux.DataInRangeQueryText | influxdb.ts:77-83 | getDataInRange's query reads the given bucket over `range(start: <start>, stop: <stop>)`, with stop defaulting to `now()`. It has the same two filters and no `last()`. |
| Flux.DataInRangeDefaultStop | influxdb.ts:77 | Omitting the stop bound gives the same query as passing `now()`. |
| Flux.LatestPerFieldQueryText | influxdb.ts:107-113 | The phase-2 query reads the bucket over the last two days. It filters on the measurement, groups by `_field` and ends with `last()`. |
| Flux.LatestPerFieldQueryInjective | influxdb.ts:107-113 | Two phase-2 queries are the same text exactly when they were built from the same measurement text, so the query log identifies the name's interpolated text. |
| Aggregation.Names | influxdb.ts:101 | The measurement names: the `_value` of each phase-1 row, in order, with a missing column read as `undefined`. |
| Aggregation.Summarize | influxdb.ts:119-126 | The entry pushed for one measurement with rows. Its content is stated by `SummaryFollowsRows`. |
| Aggregation.Select | influxdb.ts:117-129 | The entries kept by the loop, in order. Its content is stated by `SelectKeepsNonEmpty` and `SelectNoLonger`. |
| Aggregation.PhaseTwo | influxdb.ts:104-132 | The outcome of the phase-2 loop: the selected entries when every query resolves, otherwise the first failure. It is characterised by `PhaseTwoCompletes`, `PhaseTwoStops` and `PhaseTwoResolvedOnlyIfAllResolved`. |
| Aggregation.RecentActive | influxdb.ts:92-133 | getRecentActiveMeasurements' outcome as a function of the database's answers. It is characterised by the `RecentActive*` lemmas. |
| Aggregation.Issued | influxdb.ts:100-115 | The queries getRecentActiveMeasurements sends, in order. They are characterised by `IssuedInOrder` and the `RecentActive*` lemmas. |
| Aggregation.RunAll | influxdb.ts:106-115 | Awaiting queries in turn, the result, when it resolves, has one row list per query. |
| Aggregation.Sent | influxdb.ts:106-115 | The loop never sends more queries than it was given. |
| Aggregation.NonEmpty | influxdb.ts:117 | The positions of the non-empty row lists, strictly increasing, each in range and non-empty, and every non-empty position is among them. |
| Aggregation.RunAllRows | influxdb.ts:115 | When the sequential awaits resolve, query i resolved with the i-th reported row list. |
| Aggregation.RunAllResolves | influxdb.ts:106-115 | When every query resolves, the sequential awaits resolve and every query is sent. |
| Aggregation.RunAllStopsAtFirstFailure | influxdb.ts:106-115 | The first query that does not resolve decides the outcome, and no query after it is sent. |
| Aggregation.SelectKeepsNonEmpty | influxdb.ts:117-129 | The output has one entry per name with rows, in phase-1 order, and entry j is the summary of the j-th such name built from that name's own rows. |
| Aggregation.SelectNoLonger | influxdb.ts:117-129 | The output is never longer than the list of names. It is exactly as long if and only if every name returned rows. |
| Aggregation.SummaryFollowsRows | influxdb.ts:119-126 | A summary carries its measurement and one `{field, value, time}` per row: entry i is the `_field`, `_value` and `_time` of row i. |
| Aggregation.RecentActiveSucceeds | influxdb.ts:92-133 | When phase 1 and every phase-2 query resolve, the call resolves with the selected summaries. It sent the phase-1 query, then one phase-2 query per name, in phase-1 order. |
| Aggregation.RecentActiveFailsAtPhaseOne | influxdb.ts:100 | A failing phase-1 query fails the call with its failure, and no phase-2 query is sent. |
| Aggregation.RecentActiveFailsAtPhaseTwo | influxdb.ts:106-115 | The first failing phase-2 query fails the whole call with its failure, with no partial result. The queries sent stop at that name. |
| Aggregation.IssuedInOrder | influxdb.ts:100-115 | Whatever the outcome, the first query sent is the phase-1 query. Query 1+i is the phase-2 query built from the `_value` of phase-1 row i, and at most one query is sent per name. |
| Aggregation.RecentActiveResolvedOnlyIfAllResolved | influxdb.ts:100-132 | The call resolves only if phase 1 and every phase-2 query resolved. It then has at most one entry per name, each with non-empty `fields`. |
| Aggregation.PhaseTwoResolvedOnlyIfAllResolved | influxdb.ts:106-130 | The phase-2 loop resolves only if each of its queries resolved. It then has at most one summary per name, none with empty `fields`. |
| Aggregation.PhaseTwoStops | influxdb.ts:115 | A loop whose queries resolve up to i, and whose query i does not resolve, ends with the failure of query i after sending i+1 queries. |
| Aggregation.PhaseTwoCompletes | influxdb.ts:106-132 | A loop whose every query resolved ends with the selected summaries after sending every query. |
| InfluxDB.Database.QueryRows | influxdb.ts:35 | One call to the client appends the query to the database's log and yields the events the database delivers for that call. |
| InfluxDB.QueryInfluxDB | influxdb.ts:31-48 | Sends exactly the given query, once, and ends as the collector's specification says for the delivered events. |
| InfluxDB.GetLatestData | influxdb.ts:57-67 | Sends exactly one query, getLatestData's text, and returns that query's outcome unchanged. |
| InfluxDB.GetDataInRange | influxdb.ts:77-86 | Sends exactly one query, getDataInRange's text, and returns that query's outcome unchanged. |
| InfluxDB.LatestPerMeasurement | influxdb.ts:104-132 | The loop over the names ends as `PhaseTwo` says. The log grows by exactly the phase-2 queries it sent, in order. |
| InfluxDB.GetRecentActiveMeasurements | influxdb.ts:92-133 | Ends as `RecentActive` says for the database's answers, and appends exactly the queries `Issued` lists to the log. |

## Left out

- `server.ts` is not part of this model. It holds tool and prompt registration, parameter schemas, the stdio transport, file reads and JSON output: framework plumbing and I/O.
- Environment and dotenv loading and stderr logging (influxdb.ts:5-18) are left out. The bucket is a parameter of every query builder and method.
- The InfluxDB client (influxdb.ts:21-24) and the meaning of Flux are left out. The database is an abstract `Responder`, and nothing is proved about `last()` returning at most one row or `distinct` deduplicating.
- `tableMeta.toObject` (influxdb.ts:37) is not modelled. A `Next` event already carries the flattened `Record`.
- Promise scheduling, concurrency and network timeouts are left out. Awaits are sequential calls, and a stream that never ends with `error` or `complete` is modelled as `Pending`, not as a hang.
- Numbers are carried as their decimal text, and times as opaque text. No arithmetic is done on them.
- The builders interpolate their arguments verbatim, and the model does the same. It makes no claim that a query is well-formed Flux or that an argument is escaped.
- Collector.LaterEventsIgnored: the source resolves with its live `results` array, so a `next` delivered after `complete` would still extend the array the caller received. The model assumes the client delivers nothing after a terminal event: its resolved value is fixed at `complete`.
- Aggregation.RunAll: its own contract states only the length of the resolved result. The per-query rows and the stopping point are stated by `RunAllRows`, `RunAllResolves` and `RunAllStopsAtFirstFailure`.
- InfluxDB.LatestPerMeasurement: the phase-2 loop of `getRecentActiveMeasurements` is a separate method here. The source writes it inline, at influxdb.ts:104-132.
