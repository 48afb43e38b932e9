# gop-primary-twitter-fun: server core in Dafny

This project models the two server processes of gop-primary-twitter-fun.

- The **ingestion worker** (`src/server/worker.js`) watches the Twitter stream and records one mention per candidate a tweet names. At startup and every hour it fetches the prediction-market table and the opinion-poll feed and stores the poll document. As written it never stores a market record, because `moment` is not imported there (see "## Findings"); the class `Worker` follows the corrected step.
- The **websocket server** (`src/server/index.js`) does three things:
  - every 5 seconds it rebuilds a cached tuple: per-minute and per-hour mention series, the latest poll and the latest market view;
  - it greets each new subscriber with that cache and broadcasts the subscriber count on every connect and disconnect;
  - every 500 ms it broadcasts the recent mention counts, and it stops for good after broadcasting one error.

The database, the HTTP client, socket.io and the Twitter stream are outside the model. Their results enter as parameters:
- query results are `Result`s: the records a query returned, in insertion order, or the error it rejected with;
- HTTP responses are `Result<string, string>`.

The functions the source calls but does not define are also parameters: the MongoDB pipeline, `JSON.parse`, `parseFloat`, date parsing and `candidate.in`. Sent messages, console output and inserted documents are sequences the operations append to.

Modules:
- `Wrappers` (wrappers.dfy): `Option` and `Result`.
- `Text` (text.dfy): the string operations the worker uses:
  - `indexOf`;
  - `replace` with a string pattern, which replaces only the first occurrence;
  - ASCII `toLowerCase`.
- `Records` (records.dfy): the stored documents, meaning mentions, market records and poll records.
- `Series` (series.dfy): `seriesPer`.
  - The lookback switch is a function.
  - The grouping loop is a method, proved equal to a reference function.
  - The reference function's properties are lemmas.
  - A reference relation describes what the aggregation pipeline returns. It is used to show that no mentioned candidate is ever omitted.
- `Snapshot` (snapshot.dfy): `queryMarketData` and `queryPollData` as functions.
- `Broadcast` (socket.dfy): `startSocket`, as the class `Server`.
  - Its fields are the `clients` counter, the `cache`, the tick's armed flag, the outbox of messages and the console log.
  - Ghost fields record which sockets socket.io holds open and which sockets each message reached.
  - The class invariant `Valid()` (the value predicate `Consistent`) states that:
    - the counter equals both the number of open sockets and connects minus disconnects;
    - the last `count` broadcast carries the counter;
    - exactly one `{ error }` was broadcast once the tick has stopped, and none before;
    - every socket's first message is its series snapshot.
- `Worker` (worker.dfy): JSONP stripping, the percentages reduce, the market and poll tasks, and the tweet fan-out. The console log and the three inserted-into collections are fields of the class `Worker`.

Units. Dates are integers in milliseconds. A minute is 60000 ms, an hour 3600000 ms and a day 86400000 ms.

A name with no rows in the window gets no series, not an empty one: `_.values(out)` (src/server/index.js:112-128) only holds names that some row carried. `Series.SeriesPerName` proves it.

## Model

| member | source | states |
|---|---|---|
| Series.GranularityOf | src/server/index.js:88-94 | `'minute'` and `'hour'` are accepted; any other string fails with `'Invalid time for series!'`, in both directions |
| Series.LookbackMs | src/server/index.js:90-92 | the lookback of `'minute'` is one hour and of `'hour'` one day; `Series.Baseline` and `Series.SeriesPer` state the windows that follow |
| Series.UnitMs | src/server/index.js:124 | the unit `moment(baseline).add(date, time)` adds: a minute or an hour; `Series.PointsOfRowsNamed` states the dates that follow |
| Series.Baseline | src/server/index.js:96 | the window starts strictly before now |
| Series.SeriesResult | src/server/index.js:86-129 | `seriesPer` fails with the fixed message for an unknown granularity; for `'minute'` and `'hour'` it fails exactly when the aggregation rejects |
| Series.SeriesPer | src/server/index.js:86-129 | an unknown granularity throws before any query; a rejected aggregation rejects with its error; otherwise `'minute'` groups the last hour's rows, `'hour'` the last day's, with the window start as baseline |
| Series.CollectRows | src/server/index.js:112-126 | the `_.each` loop leaves one `out` entry per distinct row name, in first-appearance order, holding exactly that name's points in row order |
| Series.GroupRows | src/server/index.js:112-128 | the loop followed by `_.values(out)` returns the reference grouping |
| Series.PointsOfSnoc | src/server/index.js:115-125 | one more row extends only its own name's points, by its own point, and adds its name at the end if it is new |
| Series.RowsNamedAppend | src/server/index.js:113-121 | filtering rows by name commutes with appending a row |
| Series.PointsOfRowsNamed | src/server/index.js:121-125 | the points of a series correspond one-to-one, in order, to the rows of that name; each keeps the row's value and is dated baseline + offset units |
| Series.PointsFromRows | src/server/index.js:113-125 | every point of a series comes from a row carrying that series' name |
| Series.NamesComplete | src/server/index.js:115-120 | a name is listed exactly when some row carries it |
| Series.NamesDistinct | src/server/index.js:115-120 | no name is listed twice |
| Series.SeriesPerName | src/server/index.js:115-128 | no two series share an `_id`, and a series exists for a name exactly when some row carries it (absent, not empty, otherwise) |
| Series.RowInItsSeries | src/server/index.js:113-125 | every row's point is in the series whose `_id` is the row's name |
| Series.RowInPoints | src/server/index.js:121-125 | a row's point is among the points of its name |
| Series.TotalIsCountOver | src/server/index.js:113-128 | the point total of the first m series is the number of rows naming the first m names |
| Series.CountOverStep | src/server/index.js:113-126 | one more row adds one to the row count for the names that include its own name |
| Series.PointsOfAbsent | src/server/index.js:115-120 | a name no row carries has no points |
| Series.CountOverAll | src/server/index.js:113-128 | counting the rows over all listed names counts every row |
| Series.PointsTotal | src/server/index.js:113-128 | the total number of points over all series equals the number of rows |
| Series.PointsOfSorted | src/server/index.js:109-125 | rows sorted by `_id.date` give a series whose dates never decrease |
| Series.SeriesSorted | src/server/index.js:109-128 | with sorted rows, every series returned is in date order |
| Series.SeriesInWindow | src/server/index.js:96-124 | with non-negative offsets, no point is dated before the window start |
| Series.Field | src/server/index.js:104 | `$minute` lies in 0..59 and `$hour` in 0..23 |
| Series.CountKey | src/server/index.js:99-108 | the `$sum: 1` of one `(field, name)` group over the mentions after the window start; `Series.CountKeyWitness` states its meaning |
| Series.IsAggregation | src/server/index.js:98-110 | what the pipeline returns: each row's value is its group's positive count, every mention in the window has its group, groups are distinct and rows are sorted by field; `Series.AggregatedNames` and `Series.AggregatedSeriesOrdered` state what follows |
| Series.CountKeyWitness | src/server/index.js:98-108 | a `(name, field)` group with a positive count has a matching mention inside the window |
| Series.AggregatedNames | src/server/index.js:98-128 | over the pipeline's rows, a series exists exactly for the names mentioned inside the window |
| Series.AggregatedSeriesOrdered | src/server/index.js:98-128 | over the pipeline's rows, every series is in date order and inside the window |
| Series.PointOf | src/server/index.js:121-125 | the point a row becomes, its value dated baseline + offset units; its properties are stated by `Series.PointsOfRowsNamed` |
| Series.Names | src/server/index.js:115-120 | the key order of `out`: the distinct row names in first-appearance order; `Series.NamesComplete` and `Series.NamesDistinct` state it |
| Series.PointsOf | src/server/index.js:121-125 | the points pushed onto `out[name].points`, in row order; `Series.PointsOfRowsNamed` relates it to the rows of that name |
| Series.Grouped | src/server/index.js:112-128 | the reference result of the grouping, one series per name of `Series.Names`; `Series.SeriesPerName` and `Series.PointsTotal` state its meaning |
| Snapshot.Latest | src/server/index.js:54-58 | the sorted, limited `find` yields nothing exactly for an empty collection, otherwise the last inserted record |
| Snapshot.Lookup | src/server/index.js:62 | `data.percentages[name]`: the percentage, or undefined when the record has none; `Snapshot.QueryMarketData` states the values that follow |
| Snapshot.Project | src/server/index.js:60-67 | the candidate reduce has exactly the candidate names as keys, each mapped to the record's percentage or to undefined |
| Snapshot.QueryMarketData | src/server/index.js:53-70 | a rejected query rejects with its error; otherwise fails exactly on an empty collection; otherwise the keys are the candidates, the values are the latest record's percentages and the date is that record's |
| Snapshot.QueryPollData | src/server/index.js:74-82 | a rejected query rejects with its error; otherwise fails exactly on an empty collection; otherwise the result is `rcp_avg[0]` of the latest record, undefined when `rcp_avg` is empty |
| Broadcast.CacheOf | src/server/index.js:154-161 | the tuple exists exactly when both aggregations and both queries succeed and neither collection is empty; a rejected minute aggregation is the error reported; otherwise it holds the hour-window minute series, the day-window hour series, `queryPollData`'s poll and `queryMarketData`'s market view |
| Broadcast.AssembleCache | src/server/index.js:154-161 | the four queries assemble exactly that tuple |
| Broadcast.DeliveredExtend | src/server/index.js:170-172 | any message other than a series snapshot, sent to sockets that connected, keeps the delivery record consistent |
| Broadcast.DeliveredGreet | src/server/index.js:184 | a first-time socket's series snapshot becomes its greeting |
| Broadcast.ConnectMessages | src/server/index.js:184-194 | the messages of the `connect` handler: series, polls and markets to the new socket, then the count to everyone; `Broadcast.Server.Connect` sends them |
| Broadcast.DeliveredGreeting | src/server/index.js:184-186 | the three direct messages to a new socket keep the delivery record consistent, with the series snapshot as its greeting, and add no error |
| Broadcast.DeliveredConnect | src/server/index.js:180-194 | the connect sequence keeps the delivery record consistent; it leaves the new count as the last count broadcast, and the error count is unchanged |
| Broadcast.Consistent | src/server/index.js:151-216 | the server invariant: the counter is the number of open sockets and connects minus disconnects, the last `count` broadcast carries it, one `{ error }` was broadcast exactly when the tick has stopped, and the delivery record is consistent; kept by the three lemmas below |
| Broadcast.ConsistentConnect | src/server/index.js:178-195 | a connect keeps the invariant, with the counter one higher |
| Broadcast.ConsistentDisconnect | src/server/index.js:188-191 | a disconnect keeps the invariant, with the counter one lower |
| Broadcast.ConsistentTick | src/server/index.js:198-216 | a tick keeps the invariant; an error tick stops the interval |
| Broadcast.Server.constructor | src/server/index.js:151-165 | the server starts with no subscriber, no socket ever connected, the tick armed, nothing sent and the invariant holding |
| Broadcast.Server.Refresh | src/server/index.js:154-165 | the cache becomes the new tuple only when all four queries succeed, otherwise it is kept |
| Broadcast.Server.Connect | src/server/index.js:178-195 | the new socket gets `data` (series), `polls`, `markets` from the current cache, in that order; then the counter rises by one and is broadcast to the open sockets, the new one included; the socket is recorded as greeted at its series snapshot; the invariant is kept |
| Broadcast.Server.Disconnect | src/server/index.js:188-191 | the counter falls by one and is broadcast to the sockets still open; the greeting record is unchanged; the invariant is kept |
| Broadcast.Server.Tick | src/server/index.js:198-216 | a `point` broadcast while armed; the first failure broadcasts one `{ error }`, logs it and disarms; once disarmed nothing is sent; each broadcast reaches the open sockets, and the counters and greeting record are unchanged |
| Broadcast.StartSocket | src/server/index.js:148-220 | when the first refresh fails, its error is logged and no server is started; otherwise the two status lines are printed and a fresh server holds the startup candidate list and the first cache, with no clients, no socket ever connected and the tick armed |
| Broadcast.ConnectTwiceDisconnectOnce | src/server/index.js:178-195 | on a fresh server, two sockets connect and the first leaves: each is greeted with the cached series, the counts broadcast are 1, 2, 1, and one client remains |
| Text.IndexFrom | src/server/worker.js:56-57 | the first occurrence at or after a position, with no occurrence skipped; none means no occurrence at or after that position |
| Text.IndexOf | src/server/worker.js:56-57 | `indexOf`: the first occurrence, or none when the pattern does not occur |
| Text.ReplaceFirst | src/server/worker.js:56-57 | `replace` with a string pattern: a string without the pattern is unchanged; otherwise only the first occurrence is replaced |
| Text.ToLower | src/server/worker.js:111 | `toLowerCase` keeps the length and lowers each character |
| Text.ToLowerIdempotent | src/server/worker.js:111 | lower-casing twice is lower-casing once |
| Text.ToLowerUpToCase | src/server/worker.js:111 | strings that differ only in letter case lower-case to the same string |
| Worker.StripJsonp | src/server/worker.js:54-57 | the two `replace` calls removing the JSONP wrapper; the three `StripJsonp` lemmas state what it returns |
| Worker.ReplaceLeading | src/server/worker.js:56 | removing the leading `return_json(` keeps the rest |
| Worker.FirstCloseAfter | src/server/worker.js:57 | when X has no `);`, the first `);` in X + `);` + Y is the one right after X, even across the seam |
| Worker.CloseRemoved | src/server/worker.js:57 | removing that first `);` leaves X + Y |
| Worker.StripJsonpWrapped | src/server/worker.js:54-58 | `return_json(` + X + `);` unwraps to exactly X when X has no `);` |
| Worker.StripJsonpFirstCloseOnly | src/server/worker.js:55-57 | only the first `);` is removed; a later one stays |
| Worker.StripJsonpUntouched | src/server/worker.js:55-57 | a body with neither token comes back unchanged |
| Worker.PercentagesOf | src/server/worker.js:68-72 | the reference map of the reduce; `Worker.PercentagesLastWins` states its keys and values |
| Worker.PercentagesLastWins | src/server/worker.js:68-72 | the percentages' keys are the set of the rows' first elements; each key holds the value of the last row with that name |
| Worker.PercentagesLaterRowWins | src/server/worker.js:70 | of two rows with the same name, the value kept comes from the later row or a row after it |
| Worker.ReducePercentages | src/server/worker.js:68-72 | the reduce loop computes the reference map, with those keys and last-write-wins values |
| Worker.MarketInsert | src/server/worker.js:65-76 | a fetch or parse failure is passed on; otherwise the record's keys are the table's names, the last row wins and the date is the parsed timestamp |
| Worker.MarketInsertAsWritten | src/server/worker.js:64-76 | the record step as written, where `moment` is unbound; `Worker.MarketInsertAsWrittenNeverSucceeds` states that it always fails |
| Worker.MarketInsertAsWrittenNeverSucceeds | src/server/worker.js:73-76 | as written, the record step always fails with `moment`'s ReferenceError, even for responses the corrected step records |
| Worker.PollInsert | src/server/worker.js:53-58 | a fetch failure is passed on; otherwise the stripped body is parsed |
| Worker.Inserts | src/server/worker.js:112-116 | the `forEach` over the candidates: one `{ name, date }` per candidate whose predicate holds, in list order; `Worker.InsertsExactly` states it |
| Worker.InsertsAppend | src/server/worker.js:112-116 | the inserts for a candidate list are those for its first part followed by those for the rest |
| Worker.InsertsSingle | src/server/worker.js:113-115 | one candidate gives one insert exactly when its predicate holds |
| Worker.InsertsExactly | src/server/worker.js:112-116 | an insert names a candidate exactly when some candidate of that name matches; every insert is dated now; no more inserts than candidates |
| Worker.InsertsNone | src/server/worker.js:112-116 | a tweet that no candidate matches inserts nothing |
| Worker.InsertsIgnoreCase | src/server/worker.js:111-116 | tweets that differ only in letter case give identical inserts |
| Worker.Worker.constructor | src/server/worker.js:17-20 | the collections and the log start empty |
| Worker.Worker.OnTweet | src/server/worker.js:110-117 | the `twitter` collection grows by exactly the inserts of the lower-cased text, in candidate order |
| Worker.Worker.RetrievePollData | src/server/worker.js:52-60 | inserts the parsed feed, or rejects with the failure and inserts nothing |
| Worker.Worker.RetrieveMarketData | src/server/worker.js:64-80 | with the `moment` import of the Finding corrected: inserts the market record, or logs the failure and inserts nothing; no failure escapes |
| Worker.Worker.UpdateExternalSources | src/server/worker.js:84-90 | with the market step corrected: each source is inserted or its failure logged independently; neither failure escapes or suppresses the other |

## Left out

- The MongoDB aggregation pipeline is not executed. It is a parameter `aggregate(baseline, granularity)`. `Series.IsAggregation` is a reference relation for what `$match`, `$group` and `$sort` return.
- `Broadcast.Server.Connect` requires a socket that never connected before, because socket.io gives every connection a new socket.
- `valuesInLast` is not modelled as a computation. Its two results enter `Server.Tick` as a parameter, because it is only a pipeline call.
- Express, the TTL index on `twitter` (src/server/worker.js:29), socket.io, Twit and `request` are I/O.
  - Query results, responses and messages are parameters and outputs.
  - `JSON.stringify` of payloads is not modelled; messages carry structured payloads.
  - The tweet stream's `warning` and `error` handlers are left out.
  - `watchTwitter`'s setup (the Twit client and the `statuses/filter` stream) and its status lines `'connecting to twitter api...'` and `'monitoring twitter...'` (src/server/worker.js:96, 109) are not modelled; `Worker.log` holds only the external sources' failures.
- Timing and concurrency are not modelled. This covers `setInterval` for the 5 s refresh, the 500 ms tick and the hourly refresh, and interleavings between them. Each handler is one sequential step, and ticks already in flight when the interval is cleared are not modelled.
- `Broadcast.CacheOf`: when several of the four fail, the first in list order is reported. `Promise.all` reports whichever rejects first in time.
- `UpdateExternalSources`: the market failure is logged before the poll failure. In the source the order depends on which request finishes first.
- `JSON.parse`, `parseFloat` and `moment` date parsing are function parameters, and dates are integer milliseconds.
  - The one-day lookback is exactly 24 hours, so daylight-saving days are ignored.
  - Converting minutes and hours to dates uses fixed unit lengths.
- `console.log(error.stack || error)` is modelled as logging the error string.
- `Broadcast.Server.Tick`: the `{ error }` broadcast carries the error text. In the source `JSON.stringify` of an `Error` drops its message and stack, which are not enumerable, so subscribers receive `{"error":{}}`.
- `Worker.Worker.RetrieveMarketData` and `Worker.Worker.UpdateExternalSources` follow the corrected market step `Worker.MarketInsert`. As written (src/server/worker.js:75) every response that decodes is logged as `ReferenceError: moment is not defined` and nothing is inserted; `Worker.MarketInsertAsWritten` models that.
- A rejected database call (`twitter.aggregate`, either `find(...).toArray()`, `valuesInLast`) enters as a `Result` carrying its error. Why a call rejected is not modelled.
- A failing database insert is not modelled.
- Stored poll documents are reduced to their `poll.rcp_avg` list, so a document without that field is not modelled.
- `Text.ToLower` lowers ASCII letters only. JavaScript's Unicode case mapping is not modelled.
- `_.values` is taken to follow first-insertion order of keys. JavaScript orders integer-like keys first; names are assumed not to be integer-like.
- Special property names such as `__proto__` in the market table or candidate list are not modelled.
- The candidates list and `candidate.in` (src/common/candidates.js) are not part of this model.
  - The server treats candidates as name strings.
  - The worker treats each as a `Candidate(name)` with a match predicate passed as a parameter.
  - `Worker.OnTweet` dates every insert of one tweet with the same `now`. The source calls `new Date()` once per insert.
- The `?timestamp` cache-buster appended to the poll URL is part of the request, which is not modelled.

## Findings

| source | as written | input that shows it | evidently intended | confidence | as-written member | corrected member |
|---|---|---|---|---|---|---|
| src/server/worker.js:75 | `moment(data.timestamp, ...)` is called, but worker.js never imports `moment` (its imports are lines 9-13), so evaluating the insert's argument throws a ReferenceError that the `catch` logs | any successful response whose body parses as a market table: nothing is inserted and `ReferenceError: moment is not defined` is logged, at startup and every hour | import `moment` as src/server/index.js:10 does, and insert `{ percentages, date }` with the parsed timestamp | high, not executed | Worker.MarketInsertAsWritten (with Worker.MarketInsertAsWrittenNeverSucceeds) | Worker.MarketInsert |
