/** The documents the worker stores and the server reads back, shared by
    src/server/worker.js and src/server/index.js. */
module Records {

  /** Dates are milliseconds since the epoch. */
  type Date = int

  /** The raw JSON text of a poll figure; its structure is not looked into. */
  type Json = string

  /** A document of the `twitter` collection: `{ name, date }`, one per
      matched candidate per tweet. */
  datatype Mention = Mention(name: string, date: Date)

  /** A document of the `markets` collection: `{ percentages, date }`. */
  datatype MarketRecord = MarketRecord(percentages: map<string, real>, date: Date)

  /** A document of the `polls` collection; the server only reads its
      `poll.rcp_avg` list. */
  datatype PollRecord = PollRecord(rcpAvg: seq<Json>)
}
