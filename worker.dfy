/** The ingestion worker (src/server/worker.js): it strips the JSONP wrapper
    from the poll feed, reduces the market table to a name-to-percentage
    map, keeps each external source's failure to itself, and turns every
    tweet into one `twitter` insert per candidate it mentions. */
module Worker {
  import opened Wrappers
  import opened Text
  import opened Records

  // ---------------------------------------------------------------------
  // The poll feed: `return_json( ... );` around a JSON document.

  const JSONP_OPEN: string := "return_json("
  const JSONP_CLOSE: string := ");"

  /** `body.replace('return_json(', '').replace(');', '')`. */
  function StripJsonp(body: string): string {
    ReplaceFirst(ReplaceFirst(body, JSONP_OPEN, ""), JSONP_CLOSE, "")
  }

  /** Removing a pattern that the string starts with keeps the rest. */
  lemma ReplaceLeading(pat: string, rest: string)
    ensures ReplaceFirst(pat + rest, pat, "") == rest
  {
    var s := pat + rest;
    assert s[0..|pat|] == pat;
    assert OccursAt(s, pat, 0);
    assert s[|pat|..] == rest;
  }

  /** In `x + ");" + y`, where `x` has no `);`, the first `);` is the one
      right after `x`: none starts inside `x`, not even across the seam. */
  lemma FirstCloseAfter(x: string, y: string)
    requires forall j :: !OccursAt(x, JSONP_CLOSE, j)
    ensures forall j :: 0 <= j < |x| ==> !OccursAt(x + JSONP_CLOSE + y, JSONP_CLOSE, j)
    ensures OccursAt(x + JSONP_CLOSE + y, JSONP_CLOSE, |x|)
  {
    var s := x + JSONP_CLOSE + y;
    forall j | 0 <= j < |x| ensures !OccursAt(s, JSONP_CLOSE, j) {
      if j + 2 <= |x| {
        assert s[j..j + 2] == x[j..j + 2];
        assert !OccursAt(x, JSONP_CLOSE, j);
      } else {
        assert s[j..j + 2][1] == ')';
      }
    }
    assert s[|x|..|x| + 2] == JSONP_CLOSE;
  }

  /** Removing the first `);` of `x + ");" + y`, where `x` has none. */
  lemma CloseRemoved(x: string, y: string)
    requires forall j :: !OccursAt(x, JSONP_CLOSE, j)
    ensures ReplaceFirst(x + JSONP_CLOSE + y, JSONP_CLOSE, "") == x + y
  {
    var s := x + JSONP_CLOSE + y;
    FirstCloseAfter(x, y);
    assert ReplaceFirst(s, JSONP_CLOSE, "") == s[..|x|] + "" + s[|x| + 2..];
    assert s[..|x|] == x;
    assert s[|x| + 2..] == y;
  }

  /** Only the first `);` after the opening is removed; what follows it stays. */
  lemma StripJsonpFirstCloseOnly(x: string, y: string)
    requires forall j :: !OccursAt(x, JSONP_CLOSE, j)
    ensures StripJsonp(JSONP_OPEN + x + JSONP_CLOSE + y) == x + y
  {
    var inner := x + JSONP_CLOSE + y;
    assert JSONP_OPEN + x + JSONP_CLOSE + y == JSONP_OPEN + inner;
    ReplaceLeading(JSONP_OPEN, inner);
    CloseRemoved(x, y);
  }

  /** A wrapped document whose text has no `);` of its own comes back exactly. */
  lemma StripJsonpWrapped(x: string)
    requires forall j :: !OccursAt(x, JSONP_CLOSE, j)
    ensures StripJsonp(JSONP_OPEN + x + JSONP_CLOSE) == x
  {
    StripJsonpFirstCloseOnly(x, []);
    assert JSONP_OPEN + x + JSONP_CLOSE + [] == JSONP_OPEN + x + JSONP_CLOSE;
    assert x + [] == x;
  }

  /** A body with neither token is returned unchanged. */
  lemma StripJsonpUntouched(body: string)
    requires forall j :: !OccursAt(body, JSONP_OPEN, j)
    requires forall j :: !OccursAt(body, JSONP_CLOSE, j)
    ensures StripJsonp(body) == body
  {
  }

  // ---------------------------------------------------------------------
  // The market table.

  /** A row `[ name, percentage ]` of `data.table`. */
  datatype TableRow = TableRow(name: string, percentage: string)

  /** The parsed market document: its `table` and its `timestamp`. */
  datatype MarketJson = MarketJson(table: seq<TableRow>, timestamp: string)

  /** The `data.table.reduce` of `retrieveMarketData`: each row in turn sets
      `acc[name] = parseFloat(percentage)`. */
  function PercentagesOf(table: seq<TableRow>, parseFloat: string -> real): map<string, real>
    decreases |table|
  {
    if table == [] then map[]
    else
      var row := table[|table| - 1];
      PercentagesOf(table[..|table| - 1], parseFloat)[row.name := parseFloat(row.percentage)]
  }

  /** Row `i` is the last row named `name`. */
  predicate LastRowFor(table: seq<TableRow>, name: string, i: int) {
    0 <= i < |table| && table[i].name == name && forall j :: i < j < |table| ==> table[j].name != name
  }

  /** The keys are the rows' names, and each maps to the value of the last
      row carrying it. */
  lemma {:induction false} PercentagesLastWins(table: seq<TableRow>, parseFloat: string -> real)
    ensures PercentagesOf(table, parseFloat).Keys == set r | r in table :: r.name
    ensures forall name :: name in PercentagesOf(table, parseFloat) ==>
      exists i :: LastRowFor(table, name, i) && PercentagesOf(table, parseFloat)[name] == parseFloat(table[i].percentage)
    decreases |table|
  {
    if table != [] {
      var init := table[..|table| - 1];
      var row := table[|table| - 1];
      assert table == init + [row];
      PercentagesLastWins(init, parseFloat);
      var m := PercentagesOf(table, parseFloat);
      forall name | name in m
        ensures exists i :: LastRowFor(table, name, i) && m[name] == parseFloat(table[i].percentage)
      {
        if name == row.name {
          assert LastRowFor(table, name, |table| - 1);
        } else {
          var i :| LastRowFor(init, name, i) && PercentagesOf(init, parseFloat)[name] == parseFloat(init[i].percentage);
          assert LastRowFor(table, name, i);
        }
      }
    }
  }

  /** Of two rows with the same name, the earlier one's value never survives:
      the value kept is that of the later row or of a row after it. */
  lemma PercentagesLaterRowWins(table: seq<TableRow>, parseFloat: string -> real, i: int, j: int)
    requires 0 <= i < j < |table| && table[i].name == table[j].name
    ensures table[i].name in PercentagesOf(table, parseFloat)
    ensures exists k :: j <= k < |table| && table[k].name == table[i].name &&
                        PercentagesOf(table, parseFloat)[table[i].name] == parseFloat(table[k].percentage)
  {
    PercentagesLastWins(table, parseFloat);
    var name := table[i].name;
    assert table[i] in table;
    var k :| LastRowFor(table, name, k) && PercentagesOf(table, parseFloat)[name] == parseFloat(table[k].percentage);
    assert j <= k;
  }

  /** The reduce as the loop it runs. */
  method ReducePercentages(table: seq<TableRow>, parseFloat: string -> real) returns (acc: map<string, real>)
    ensures acc == PercentagesOf(table, parseFloat)
    ensures acc.Keys == set r | r in table :: r.name
    ensures forall name :: name in acc ==> exists i :: LastRowFor(table, name, i) && acc[name] == parseFloat(table[i].percentage)
  {
    acc := map[];
    var i := 0;
    while i < |table|
      invariant 0 <= i <= |table|
      invariant acc == PercentagesOf(table[..i], parseFloat)
    {
      assert table[..i + 1][..i] == table[..i];
      acc := acc[table[i].name := parseFloat(table[i].percentage)];
      i := i + 1;
    }
    assert table[..i] == table;
    PercentagesLastWins(table, parseFloat);
  }

  /** `moment` is never imported in worker.js: calling it throws. */
  const MOMENT_UNBOUND: string := "ReferenceError: moment is not defined"

  /** The body of the `try` in `retrieveMarketData`, with `moment` in scope:
      fetch, parse, reduce the table, parse the timestamp. */
  function MarketInsert(response: Result<string, string>, decode: string -> Result<MarketJson, string>,
                        parseFloat: string -> real, parseDate: string -> Date): (r: Result<MarketRecord, string>)
    ensures response.Failure? ==> r == Failure(response.error)
    ensures response.Success? && decode(response.value).Failure? ==> r == Failure(decode(response.value).error)
    ensures response.Success? && decode(response.value).Success? ==>
      r.Success? &&
      r.value.percentages.Keys == (set row | row in decode(response.value).value.table :: row.name) &&
      (forall name :: name in r.value.percentages ==>
         exists i :: LastRowFor(decode(response.value).value.table, name, i) &&
                     r.value.percentages[name] == parseFloat(decode(response.value).value.table[i].percentage)) &&
      r.value.date == parseDate(decode(response.value).value.timestamp)
  {
    match response
    case Failure(e) => Failure(e)
    case Success(body) =>
      match decode(body)
      case Failure(e) => Failure(e)
      case Success(data) =>
        PercentagesLastWins(data.table, parseFloat);
        Success(MarketRecord(PercentagesOf(data.table, parseFloat), parseDate(data.timestamp)))
  }

  /** The same `try` body as worker.js has it: `moment` is not imported, so
      the timestamp step throws after the table has been reduced. */
  function MarketInsertAsWritten(response: Result<string, string>, decode: string -> Result<MarketJson, string>,
                                 parseFloat: string -> real): Result<MarketRecord, string>
  {
    match response
    case Failure(e) => Failure(e)
    case Success(body) =>
      match decode(body)
      case Failure(e) => Failure(e)
      case Success(data) =>
        var percentages := PercentagesOf(data.table, parseFloat);
        Failure(MOMENT_UNBOUND)
  }

  /** As written, no market record is ever produced, even for a response
      that the corrected step turns into one. */
  lemma MarketInsertAsWrittenNeverSucceeds(response: Result<string, string>, decode: string -> Result<MarketJson, string>,
                                           parseFloat: string -> real, parseDate: string -> Date)
    ensures MarketInsertAsWritten(response, decode, parseFloat).Failure?
    ensures response.Success? && decode(response.value).Success? ==>
      MarketInsertAsWritten(response, decode, parseFloat) == Failure(MOMENT_UNBOUND) &&
      MarketInsert(response, decode, parseFloat, parseDate).Success?
  {
  }

  /** The poll task up to the insert: fetch, strip the wrapper, parse. */
  function PollInsert(response: Result<string, string>, parsePoll: string -> Result<PollRecord, string>): (r: Result<PollRecord, string>)
    ensures response.Failure? ==> r == Failure(response.error)
    ensures response.Success? ==> r == parsePoll(StripJsonp(response.value))
  {
    match response
    case Failure(e) => Failure(e)
    case Success(body) => parsePoll(StripJsonp(body))
  }

  // ---------------------------------------------------------------------
  // Tweets.

  /** An entry of the candidates list; whether a text mentions it is the
      list's own `in` predicate, not part of this model. */
  datatype Candidate = Candidate(name: string)

  /** The inserts for a lower-cased text: one `{ name }` per candidate whose
      predicate holds, in list order. */
  function Inserts(text: string, candidates: seq<Candidate>, mentions: (Candidate, string) -> bool, now: Date): seq<Mention>
    decreases |candidates|
  {
    if candidates == [] then []
    else
      Inserts(text, candidates[..|candidates| - 1], mentions, now) +
      (if mentions(candidates[|candidates| - 1], text) then [Mention(candidates[|candidates| - 1].name, now)] else [])
  }

  /** Inserts follow the candidate list: those for a list are those for its
      first part followed by those for the rest. */
  lemma {:induction false} InsertsAppend(text: string, xs: seq<Candidate>, ys: seq<Candidate>, mentions: (Candidate, string) -> bool, now: Date)
    ensures Inserts(text, xs + ys, mentions, now) == Inserts(text, xs, mentions, now) + Inserts(text, ys, mentions, now)
    decreases |ys|
  {
    if ys != [] {
      var init := ys[..|ys| - 1];
      assert (xs + ys)[..|xs + ys| - 1] == xs + init;
      assert (xs + ys)[|xs + ys| - 1] == ys[|ys| - 1];
      InsertsAppend(text, xs, init, mentions, now);
    } else {
      assert xs + ys == xs;
    }
  }

  /** One candidate gives one insert when it matches and none otherwise. */
  lemma InsertsSingle(text: string, c: Candidate, mentions: (Candidate, string) -> bool, now: Date)
    ensures Inserts(text, [c], mentions, now) == if mentions(c, text) then [Mention(c.name, now)] else []
  {
    assert [c][..0] == [];
  }

  /** A candidate matches the text. */
  predicate Matches(text: string, candidates: seq<Candidate>, mentions: (Candidate, string) -> bool, j: int) {
    0 <= j < |candidates| && mentions(candidates[j], text)
  }

  /** Some insert carries `name`. */
  ghost predicate Inserted(inserts: seq<Mention>, name: string) {
    exists m :: m in inserts && m.name == name
  }

  /** Some candidate named `name` matches the text. */
  ghost predicate Named(text: string, candidates: seq<Candidate>, mentions: (Candidate, string) -> bool, name: string) {
    exists j :: Matches(text, candidates, mentions, j) && candidates[j].name == name
  }

  /** An insert names a candidate exactly when some candidate of that name
      matches; every insert is dated `now`; no more inserts than candidates. */
  lemma {:induction false} InsertsExactly(text: string, candidates: seq<Candidate>, mentions: (Candidate, string) -> bool, now: Date)
    ensures |Inserts(text, candidates, mentions, now)| <= |candidates|
    ensures forall m :: m in Inserts(text, candidates, mentions, now) ==> m.date == now
    ensures forall name :: Inserted(Inserts(text, candidates, mentions, now), name) <==> Named(text, candidates, mentions, name)
    decreases |candidates|
  {
    if candidates != [] {
      var init := candidates[..|candidates| - 1];
      var c := candidates[|candidates| - 1];
      InsertsExactly(text, init, mentions, now);
      forall name
        ensures Inserted(Inserts(text, candidates, mentions, now), name) <==> Named(text, candidates, mentions, name)
      {
        var all, before := Inserts(text, candidates, mentions, now), Inserts(text, init, mentions, now);
        assert all == before + (if mentions(c, text) then [Mention(c.name, now)] else []);
        if Named(text, candidates, mentions, name) {
          var j :| Matches(text, candidates, mentions, j) && candidates[j].name == name;
          if j < |init| {
            assert init[j] == candidates[j];
            assert Matches(text, init, mentions, j);
            assert Named(text, init, mentions, name);
            var m :| m in before && m.name == name;
            assert m in all;
          } else {
            assert Mention(c.name, now) in all;
          }
        }
        if Inserted(all, name) {
          var m :| m in all && m.name == name;
          if m in before {
            assert Inserted(before, name);
            var j :| Matches(text, init, mentions, j) && init[j].name == name;
            assert init[j] == candidates[j];
            assert Matches(text, candidates, mentions, j);
          } else {
            assert Matches(text, candidates, mentions, |candidates| - 1);
          }
        }
      }
    }
  }

  /** A tweet no candidate matches produces no insert. */
  lemma {:induction false} InsertsNone(text: string, candidates: seq<Candidate>, mentions: (Candidate, string) -> bool, now: Date)
    requires forall j :: 0 <= j < |candidates| ==> !mentions(candidates[j], text)
    ensures Inserts(text, candidates, mentions, now) == []
    decreases |candidates|
  {
    if candidates != [] {
      InsertsNone(text, candidates[..|candidates| - 1], mentions, now);
    }
  }

  /** Tweets that differ only in letter case lead to the same inserts. */
  lemma InsertsIgnoreCase(a: string, b: string, candidates: seq<Candidate>, mentions: (Candidate, string) -> bool, now: Date)
    requires SameUpToCase(a, b)
    ensures Inserts(ToLower(a), candidates, mentions, now) == Inserts(ToLower(b), candidates, mentions, now)
  {
    ToLowerUpToCase(a, b);
  }

  // ---------------------------------------------------------------------
  // The worker's effects on the database and the console.

  class Worker {
    const candidates: seq<Candidate>
    /** `candidate.in(text)`. */
    const mentions: (Candidate, string) -> bool
    /** The `twitter`, `polls` and `markets` collections, in insertion order. */
    var twitter: seq<Mention>
    var polls: seq<PollRecord>
    var markets: seq<MarketRecord>
    /** What `console.log` printed for the external sources: their failures. */
    var log: seq<string>

    constructor (candidates: seq<Candidate>, mentions: (Candidate, string) -> bool)
      ensures this.candidates == candidates && this.mentions == mentions
      ensures twitter == [] && polls == [] && markets == [] && log == []
    {
      this.candidates := candidates;
      this.mentions := mentions;
      twitter, polls, markets, log := [], [], [], [];
    }

    /** The `tweet` handler: lower-case the text, then insert `{ name, date }`
        for every candidate whose predicate holds, in list order. */
    method OnTweet(text: string, now: Date)
      modifies this`twitter
      ensures twitter == old(twitter) + Inserts(ToLower(text), candidates, mentions, now)
    {
      var lower := ToLower(text);
      var i := 0;
      while i < |candidates|
        invariant 0 <= i <= |candidates|
        invariant twitter == old(twitter) + Inserts(lower, candidates[..i], mentions, now)
      {
        var candidate := candidates[i];
        InsertsAppend(lower, candidates[..i], [candidate], mentions, now);
        InsertsSingle(lower, candidate, mentions, now);
        assert candidates[..i + 1] == candidates[..i] + [candidate];
        if mentions(candidate, lower) {
          twitter := twitter + [Mention(candidate.name, now)];
        }
        i := i + 1;
      }
      assert candidates[..i] == candidates;
    }

    /** `retrievePollData`: insert the parsed feed, or reject with the error. */
    method RetrievePollData(response: Result<string, string>, parsePoll: string -> Result<PollRecord, string>)
      returns (outcome: Result<(), string>)
      modifies this`polls
      ensures outcome.Failure? <==> PollInsert(response, parsePoll).Failure?
      ensures outcome.Failure? ==> outcome.error == PollInsert(response, parsePoll).error
      ensures polls == old(polls) + (if outcome.Success? then [PollInsert(response, parsePoll).value] else [])
    {
      var body := match response case Success(b) => Success(StripJsonp(b)) case Failure(e) => Failure(e);
      if body.Failure? {
        return Failure(body.error);
      }
      var data := parsePoll(body.value);
      if data.Failure? {
        return Failure(data.error);
      }
      polls := polls + [data.value];
      outcome := Success(());
    }

    /** `retrieveMarketData`: insert the market record, or log the failure;
        nothing escapes. */
    method RetrieveMarketData(response: Result<string, string>, decode: string -> Result<MarketJson, string>,
                              parseFloat: string -> real, parseDate: string -> Date)
      modifies this`markets, this`log
      ensures match MarketInsert(response, decode, parseFloat, parseDate)
              case Success(record) => markets == old(markets) + [record] && log == old(log)
              case Failure(error) => markets == old(markets) && log == old(log) + [error]
    {
      var body;
      match response {
        case Failure(e) => log := log + [e]; return;
        case Success(b) => body := b;
      }
      var data;
      match decode(body) {
        case Failure(e) => log := log + [e]; return;
        case Success(d) => data := d;
      }
      var percentages := ReducePercentages(data.table, parseFloat);
      markets := markets + [MarketRecord(percentages, parseDate(data.timestamp))];
    }

    /** `updateExternalSources`: start both tasks; a rejection of the poll task
        is logged, so neither source's failure escapes or stops the other. */
    method UpdateExternalSources(marketResponse: Result<string, string>, decode: string -> Result<MarketJson, string>,
                                 parseFloat: string -> real, parseDate: string -> Date,
                                 pollResponse: Result<string, string>, parsePoll: string -> Result<PollRecord, string>)
      modifies this`markets, this`polls, this`log
      ensures markets == old(markets) + (match MarketInsert(marketResponse, decode, parseFloat, parseDate)
                                         case Success(record) => [record] case Failure(_) => [])
      ensures polls == old(polls) + (match PollInsert(pollResponse, parsePoll)
                                     case Success(record) => [record] case Failure(_) => [])
      ensures log == old(log)
                     + (match MarketInsert(marketResponse, decode, parseFloat, parseDate)
                        case Success(_) => [] case Failure(e) => [e])
                     + (match PollInsert(pollResponse, parsePoll) case Success(_) => [] case Failure(e) => [e])
    {
      RetrieveMarketData(marketResponse, decode, parseFloat, parseDate);
      var outcome := RetrievePollData(pollResponse, parsePoll);
      if outcome.Failure? {
        log := log + [outcome.error];
      }
    }
  }
}
