/** Reading the auxiliary datasets back for the server's cache
    (`queryMarketData` and `queryPollData` in src/server/index.js). */
module Snapshot {
  import opened Wrappers
  import opened Records

  /** Reading a field of the `undefined` that an empty collection yields. */
  const NO_RECORD: string := "TypeError: Cannot read property of undefined"

  /** The `{ data, date }` object of `queryMarketData`: one entry per
      candidate, `None` where the record has no percentage for it. */
  datatype MarketView = MarketView(data: map<string, Option<real>>, date: Date)

  /** `find({}).sort({ _id: -1 }).limit(1)` and `const [ data ] = ...`: the most
      recently inserted document (collections are kept in insertion order,
      which is `_id` order), or `undefined` for an empty collection. */
  function Latest<T>(collection: seq<T>): (r: Option<T>)
    ensures r.None? <==> collection == []
    ensures r.Some? ==> r.value == collection[|collection| - 1]
  {
    if collection == [] then None else Some(collection[|collection| - 1])
  }

  /** `percentages[name]`, `None` standing for `undefined`. */
  function Lookup(percentages: map<string, real>, name: string): Option<real> {
    if name in percentages then Some(percentages[name]) else None
  }

  /** The `candidates.reduce` of `queryMarketData`: a left fold writing
      `out.data[name]` for each candidate in turn. */
  function Project(names: seq<string>, percentages: map<string, real>): (m: map<string, Option<real>>)
    ensures m.Keys == set n | n in names
    ensures forall n :: n in m ==> m[n] == Lookup(percentages, n)
    decreases |names|
  {
    if names == [] then map[]
    else
      var last := names[|names| - 1];
      Project(names[..|names| - 1], percentages)[last := Lookup(percentages, last)]
  }

  /** `queryMarketData`, given what `find({}).sort(...).limit(1).toArray()`
      produced: a rejected query rejects; otherwise the latest market
      record projected onto the candidate list, failing on an empty
      collection. */
  function QueryMarketData(candidates: seq<string>, found: Result<seq<MarketRecord>, string>): (r: Result<MarketView, string>)
    ensures r.Failure? <==> found.Failure? || found.value == []
    ensures found.Failure? ==> r == Failure(found.error)
    ensures found.Success? && found.value == [] ==> r == Failure(NO_RECORD)
    ensures r.Success? ==> r.value.date == found.value[|found.value| - 1].date
    ensures r.Success? ==> r.value.data.Keys == set n | n in candidates
    ensures r.Success? ==> forall n :: n in candidates ==>
      r.value.data[n] == Lookup(found.value[|found.value| - 1].percentages, n)
  {
    match found
    case Failure(e) => Failure(e)
    case Success(markets) =>
      match Latest(markets)
      case None => Failure(NO_RECORD)
      case Some(data) => Success(MarketView(Project(candidates, data.percentages), data.date))
  }

  /** `queryPollData`, given what its query produced: a rejected query
      rejects; otherwise `data.poll.rcp_avg[0]` of the latest poll record,
      failing on an empty collection, `None` for an empty `rcp_avg`. */
  function QueryPollData(found: Result<seq<PollRecord>, string>): (r: Result<Option<Json>, string>)
    ensures r.Failure? <==> found.Failure? || found.value == []
    ensures found.Failure? ==> r == Failure(found.error)
    ensures found.Success? && found.value == [] ==> r == Failure(NO_RECORD)
    ensures r.Success? ==> (r.value.Some? <==> found.value[|found.value| - 1].rcpAvg != [])
    ensures r.Success? && r.value.Some? ==> r.value.value == found.value[|found.value| - 1].rcpAvg[0]
  {
    match found
    case Failure(e) => Failure(e)
    case Success(polls) =>
      match Latest(polls)
      case None => Failure(NO_RECORD)
      case Some(data) => if data.rcpAvg == [] then Success(None) else Success(Some(data.rcpAvg[0]))
  }
}
