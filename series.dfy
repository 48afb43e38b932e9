/** Series reconstruction of the websocket server (`seriesPer` in
    src/server/index.js): choose a lookback window for a granularity, then fold
    the rows returned by the aggregation into one series per candidate name,
    re-basing every point on the window's start. */
module Series {
  import opened Wrappers
  import opened Records

  const MINUTE_MS: int := 60 * 1000
  const HOUR_MS: int := 60 * MINUTE_MS
  const DAY_MS: int := 24 * HOUR_MS

  const INVALID_TIME: string := "Invalid time for series!"

  /** The two granularities the server knows: `'minute'` and `'hour'`. */
  datatype Granularity = Minute | Hour

  /** The `switch(time)` of `seriesPer`: a known granularity, or the error it throws. */
  function GranularityOf(time: string): (r: Result<Granularity, string>)
    ensures r == Success(Minute) <==> time == "minute"
    ensures r == Success(Hour) <==> time == "hour"
    ensures r.Failure? <==> time != "minute" && time != "hour"
    ensures r.Failure? ==> r.error == INVALID_TIME
  {
    if time == "minute" then Success(Minute)
    else if time == "hour" then Success(Hour)
    else Failure(INVALID_TIME)
  }

  /** The lookback unit: one hour of minutes, one day of hours. */
  function LookbackMs(g: Granularity): int {
    match g
    case Minute => HOUR_MS
    case Hour => DAY_MS
  }

  /** Length of one unit of the granularity, as `moment#add(n, time)` adds it. */
  function UnitMs(g: Granularity): int {
    match g
    case Minute => MINUTE_MS
    case Hour => HOUR_MS
  }

  /** The window starts one lookback unit before `now`. */
  function Baseline(g: Granularity, now: Date): (b: Date)
    ensures b < now
  {
    now - LookbackMs(g)
  }

  /** One row of the aggregation: `{ _id: { name, date }, value }`, where
      `date` is the `$minute` or `$hour` field of the grouped tweets. */
  datatype Row = Row(name: string, offset: int, value: nat)

  /** A point of a series: `{ value, date }`. */
  datatype Point = Point(value: nat, date: Date)

  /** A series: `{ _id: name, points }`. */
  datatype NamedSeries = NamedSeries(id: string, points: seq<Point>)

  /** The point a row becomes: its value, dated `baseline + offset` units. */
  function PointOf(r: Row, baseline: Date, g: Granularity): Point {
    Point(r.value, baseline + r.offset * UnitMs(g))
  }

  /** The distinct names of `rows`, in order of first appearance. This is
      the key order of the `out` object, which `_.values` follows. */
  function Names(rows: seq<Row>): seq<string>
    decreases |rows|
  {
    if rows == [] then []
    else
      var before := Names(rows[..|rows| - 1]);
      var n := rows[|rows| - 1].name;
      if n in before then before else before + [n]
  }

  /** The points pushed onto `out[name].points`, in row order. */
  function PointsOf(rows: seq<Row>, name: string, baseline: Date, g: Granularity): seq<Point>
    decreases |rows|
  {
    if rows == [] then []
    else
      var before := PointsOf(rows[..|rows| - 1], name, baseline, g);
      var last := rows[|rows| - 1];
      if last.name == name then before + [PointOf(last, baseline, g)] else before
  }

  /** What `seriesPer` returns for the rows of the aggregation. */
  function Grouped(rows: seq<Row>, baseline: Date, g: Granularity): seq<NamedSeries> {
    var names := Names(rows);
    seq(|names|, i requires 0 <= i < |names| => NamedSeries(names[i], PointsOf(rows, names[i], baseline, g)))
  }

  /** Appending one row extends the points of its own name by that row's
      point and leaves every other name's points alone. */
  lemma PointsOfSnoc(rows: seq<Row>, r: Row, baseline: Date, g: Granularity)
    ensures Names(rows + [r]) == if r.name in Names(rows) then Names(rows) else Names(rows) + [r.name]
    ensures forall n :: PointsOf(rows + [r], n, baseline, g) ==
                        PointsOf(rows, n, baseline, g) + (if r.name == n then [PointOf(r, baseline, g)] else [])
  {
    assert (rows + [r])[..|rows|] == rows;
  }

  /** The `_.each` loop of `seriesPer`: `out[name]` is created on a name's
      first row and each row's point is pushed onto it. */
  method CollectRows(rows: seq<Row>, baseline: Date, g: Granularity) returns (order: seq<string>, byName: map<string, seq<Point>>)
    ensures order == Names(rows)
    ensures forall n :: n in byName <==> n in order
    ensures forall n :: n in byName ==> byName[n] == PointsOf(rows, n, baseline, g)
  {
    byName := map[];
    order := [];
    var i := 0;
    while i < |rows|
      invariant 0 <= i <= |rows|
      invariant order == Names(rows[..i])
      invariant forall n :: n in byName <==> n in order
      invariant forall n :: n in byName ==> byName[n] == PointsOf(rows[..i], n, baseline, g)
    {
      var r := rows[i];
      assert rows[..i + 1] == rows[..i] + [r];
      PointsOfSnoc(rows[..i], r, baseline, g);
      if r.name !in byName {
        PointsOfAbsent(rows[..i], r.name, baseline, g);
        byName := byName[r.name := []];
        order := order + [r.name];
      }
      byName := byName[r.name := byName[r.name] + [PointOf(r, baseline, g)]];
      i := i + 1;
    }
    assert rows[..i] == rows;
  }

  /** `seriesPer`'s grouping: the `_.each` loop, then `_.values(out)`. */
  method GroupRows(rows: seq<Row>, baseline: Date, g: Granularity) returns (out: seq<NamedSeries>)
    ensures out == Grouped(rows, baseline, g)
  {
    var order, byName := CollectRows(rows, baseline, g);
    out := [];
    var k := 0;
    while k < |order|
      invariant 0 <= k <= |order|
      invariant |out| == k
      invariant forall j :: 0 <= j < k ==> out[j] == NamedSeries(order[j], byName[order[j]])
    {
      out := out + [NamedSeries(order[k], byName[order[k]])];
      k := k + 1;
    }
  }

  /** The MongoDB pipeline of `seriesPer`, given the window start and the
      granularity: its rows, or the error `twitter.aggregate` rejected with. */
  type Pipeline = (Date, Granularity) -> Result<seq<Row>, string>

  /** The whole of `seriesPer(time)` at instant `now`. */
  function SeriesResult(time: string, now: Date, aggregate: Pipeline): (r: Result<seq<NamedSeries>, string>)
    ensures time != "minute" && time != "hour" ==> r == Failure(INVALID_TIME)
    ensures time == "minute" ==> (r.Failure? <==> aggregate(now - HOUR_MS, Minute).Failure?)
    ensures time == "hour" ==> (r.Failure? <==> aggregate(now - DAY_MS, Hour).Failure?)
  {
    match GranularityOf(time)
    case Failure(e) => Failure(e)
    case Success(g) =>
      var baseline := Baseline(g, now);
      match aggregate(baseline, g)
      case Failure(e) => Failure(e)
      case Success(rows) => Success(Grouped(rows, baseline, g))
  }

  method SeriesPer(time: string, now: Date, aggregate: Pipeline) returns (r: Result<seq<NamedSeries>, string>)
    ensures time != "minute" && time != "hour" ==> r == Failure(INVALID_TIME)
    ensures time == "minute" ==> match aggregate(now - HOUR_MS, Minute)
                                 case Failure(e) => r == Failure(e)
                                 case Success(rows) => r == Success(Grouped(rows, now - HOUR_MS, Minute))
    ensures time == "hour" ==> match aggregate(now - DAY_MS, Hour)
                               case Failure(e) => r == Failure(e)
                               case Success(rows) => r == Success(Grouped(rows, now - DAY_MS, Hour))
    ensures r == SeriesResult(time, now, aggregate)
  {
    var g;
    match GranularityOf(time) {
      case Failure(e) => return Failure(e);
      case Success(v) => g := v;
    }
    var baseline := Baseline(g, now);
    var rows;
    match aggregate(baseline, g) {
      case Failure(e) => return Failure(e);
      case Success(v) => rows := v;
    }
    var out := GroupRows(rows, baseline, g);
    r := Success(out);
  }

  // ---------------------------------------------------------------------
  // What the grouping promises.

  /** The rows carrying `name`, in input order; an independent reference
      for `PointsOf`. */
  function RowsNamed(rows: seq<Row>, name: string): seq<Row> {
    if rows == [] then []
    else (if rows[0].name == name then [rows[0]] else []) + RowsNamed(rows[1..], name)
  }

  lemma {:induction false} RowsNamedAppend(rows: seq<Row>, r: Row, name: string)
    ensures RowsNamed(rows + [r], name) == RowsNamed(rows, name) + (if r.name == name then [r] else [])
  {
    var own := if r.name == name then [r] else [];
    if rows == [] {
      assert rows + [r] == [r];
      assert [r][1..] == [];
      assert RowsNamed([r], name) == own + RowsNamed([], name);
    } else {
      var t := rows + [r];
      var head := if rows[0].name == name then [rows[0]] else [];
      assert t[0] == rows[0];
      assert t[1..] == rows[1..] + [r];
      assert RowsNamed(t, name) == head + RowsNamed(rows[1..] + [r], name);
      RowsNamedAppend(rows[1..], r, name);
      assert RowsNamed(rows, name) == head + RowsNamed(rows[1..], name);
      assert head + (RowsNamed(rows[1..], name) + own) == (head + RowsNamed(rows[1..], name)) + own;
    }
  }

  /** Each series holds exactly the rows of its name, in row order, each
      with its value copied and dated `baseline + offset` units. */
  lemma {:induction false} PointsOfRowsNamed(rows: seq<Row>, name: string, baseline: Date, g: Granularity)
    ensures |PointsOf(rows, name, baseline, g)| == |RowsNamed(rows, name)|
    ensures forall j :: 0 <= j < |RowsNamed(rows, name)| ==>
      PointsOf(rows, name, baseline, g)[j].value == RowsNamed(rows, name)[j].value &&
      PointsOf(rows, name, baseline, g)[j].date == baseline + RowsNamed(rows, name)[j].offset * UnitMs(g)
    decreases |rows|
  {
    if rows != [] {
      var init := rows[..|rows| - 1];
      assert init + [rows[|rows| - 1]] == rows;
      RowsNamedAppend(init, rows[|rows| - 1], name);
      PointsOfRowsNamed(init, name, baseline, g);
    }
  }

  /** Some row carries `name`. */
  predicate Carries(rows: seq<Row>, name: string) {
    exists k :: 0 <= k < |rows| && rows[k].name == name
  }

  /** Some series of `out` has `_id` equal to `name`. */
  predicate HasSeries(out: seq<NamedSeries>, name: string) {
    exists i :: 0 <= i < |out| && out[i].id == name
  }

  /** Point `p` is what some row named `name` becomes. */
  predicate FromRow(rows: seq<Row>, name: string, p: Point, baseline: Date, g: Granularity) {
    exists k :: 0 <= k < |rows| && rows[k].name == name && p == PointOf(rows[k], baseline, g)
  }

  /** Every point of the series named `name` comes from a row of that name. */
  lemma {:induction false} PointsFromRows(rows: seq<Row>, name: string, baseline: Date, g: Granularity)
    ensures forall p :: p in PointsOf(rows, name, baseline, g) ==> FromRow(rows, name, p, baseline, g)
    decreases |rows|
  {
    if rows != [] {
      var init := rows[..|rows| - 1];
      PointsFromRows(init, name, baseline, g);
      forall p | p in PointsOf(rows, name, baseline, g) ensures FromRow(rows, name, p, baseline, g) {
        if p in PointsOf(init, name, baseline, g) {
          var k :| 0 <= k < |init| && init[k].name == name && p == PointOf(init[k], baseline, g);
          assert rows[k] == init[k];
        } else {
          assert p == PointOf(rows[|rows| - 1], baseline, g);
        }
      }
    }
  }

  /** A name is among the series' names exactly when some row carries it. */
  lemma {:induction false} NamesComplete(rows: seq<Row>, name: string)
    ensures name in Names(rows) <==> Carries(rows, name)
    decreases |rows|
  {
    if rows != [] {
      var init := rows[..|rows| - 1];
      NamesComplete(init, name);
      if Carries(rows, name) {
        var k :| 0 <= k < |rows| && rows[k].name == name;
        if k < |init| { assert init[k] == rows[k]; }
      }
      if Carries(init, name) {
        var k :| 0 <= k < |init| && init[k].name == name;
        assert rows[k] == init[k];
      }
    }
  }

  /** The names of the series are pairwise distinct. */
  lemma {:induction false} NamesDistinct(rows: seq<Row>)
    ensures forall i, j :: 0 <= i < j < |Names(rows)| ==> Names(rows)[i] != Names(rows)[j]
    decreases |rows|
  {
    if rows != [] {
      NamesDistinct(rows[..|rows| - 1]);
    }
  }

  /** Exactly one series per distinct row name, no duplicate `_id`, and no
      series for a name that no row carries. */
  lemma SeriesPerName(rows: seq<Row>, baseline: Date, g: Granularity)
    ensures forall i, j :: 0 <= i < j < |Grouped(rows, baseline, g)| ==>
      Grouped(rows, baseline, g)[i].id != Grouped(rows, baseline, g)[j].id
    ensures forall name :: HasSeries(Grouped(rows, baseline, g), name) <==> Carries(rows, name)
  {
    NamesDistinct(rows);
    var out := Grouped(rows, baseline, g);
    forall name ensures HasSeries(out, name) <==> Carries(rows, name) {
      NamesComplete(rows, name);
      if name in Names(rows) {
        var i :| 0 <= i < |Names(rows)| && Names(rows)[i] == name;
        assert out[i].id == name;
      }
    }
  }

  /** Every row lands in the series of its own name, as one of its points. */
  lemma RowInItsSeries(rows: seq<Row>, baseline: Date, g: Granularity, k: nat)
    requires k < |rows|
    ensures exists i :: 0 <= i < |Grouped(rows, baseline, g)| && Grouped(rows, baseline, g)[i].id == rows[k].name &&
                        PointOf(rows[k], baseline, g) in Grouped(rows, baseline, g)[i].points
  {
    SeriesPerName(rows, baseline, g);
    var out := Grouped(rows, baseline, g);
    assert Carries(rows, rows[k].name);
    var i :| 0 <= i < |out| && out[i].id == rows[k].name;
    RowInPoints(rows, rows[k].name, baseline, g, k);
  }

  lemma {:induction false} RowInPoints(rows: seq<Row>, name: string, baseline: Date, g: Granularity, k: nat)
    requires k < |rows| && rows[k].name == name
    ensures PointOf(rows[k], baseline, g) in PointsOf(rows, name, baseline, g)
    decreases |rows|
  {
    if k < |rows| - 1 {
      var init := rows[..|rows| - 1];
      assert init[k] == rows[k];
      RowInPoints(init, name, baseline, g, k);
    }
  }

  /** Sum of the lengths of the series' point lists. */
  function TotalPoints(out: seq<NamedSeries>): nat {
    if out == [] then 0 else TotalPoints(out[..|out| - 1]) + |out[|out| - 1].points|
  }

  /** Sum over `names` of the number of points `rows` gives each. */
  function CountOver(names: seq<string>, rows: seq<Row>, baseline: Date, g: Granularity): nat {
    if names == [] then 0
    else CountOver(names[..|names| - 1], rows, baseline, g) + |PointsOf(rows, names[|names| - 1], baseline, g)|
  }

  lemma {:induction false} TotalIsCountOver(rows: seq<Row>, baseline: Date, g: Granularity, m: nat)
    requires m <= |Names(rows)|
    ensures TotalPoints(Grouped(rows, baseline, g)[..m]) == CountOver(Names(rows)[..m], rows, baseline, g)
  {
    if m > 0 {
      var out := Grouped(rows, baseline, g);
      assert out[..m][..m - 1] == out[..m - 1];
      assert Names(rows)[..m][..m - 1] == Names(rows)[..m - 1];
      TotalIsCountOver(rows, baseline, g, m - 1);
    }
  }

  /** Adding a row adds one to the count of its own name and nothing to the others. */
  lemma {:induction false} CountOverStep(names: seq<string>, rows: seq<Row>, r: Row, baseline: Date, g: Granularity)
    requires forall i, j :: 0 <= i < j < |names| ==> names[i] != names[j]
    ensures CountOver(names, rows + [r], baseline, g) ==
      CountOver(names, rows, baseline, g) + (if r.name in names then 1 else 0)
  {
    if names != [] {
      var init := names[..|names| - 1];
      assert (rows + [r])[..|rows + [r]| - 1] == rows;
      CountOverStep(init, rows, r, baseline, g);
      assert names == init + [names[|names| - 1]];
      assert r.name in names <==> r.name in init || r.name == names[|names| - 1];
    }
  }

  /** A name no row carries has no points. */
  lemma {:induction false} PointsOfAbsent(rows: seq<Row>, name: string, baseline: Date, g: Granularity)
    requires name !in Names(rows)
    ensures PointsOf(rows, name, baseline, g) == []
    decreases |rows|
  {
    if rows != [] {
      var init := rows[..|rows| - 1];
      assert name !in Names(init);
      PointsOfAbsent(init, name, baseline, g);
    }
  }

  lemma {:induction false} CountOverAll(rows: seq<Row>, baseline: Date, g: Granularity)
    ensures CountOver(Names(rows), rows, baseline, g) == |rows|
    decreases |rows|
  {
    if rows != [] {
      var init := rows[..|rows| - 1];
      var r := rows[|rows| - 1];
      assert init + [r] == rows;
      CountOverAll(init, baseline, g);
      NamesDistinct(init);
      CountOverStep(Names(init), init, r, baseline, g);
      if r.name !in Names(init) {
        PointsOfAbsent(init, r.name, baseline, g);
        assert Names(rows) == Names(init) + [r.name];
        assert Names(rows)[..|Names(rows)| - 1] == Names(init);
      }
    }
  }

  /** The number of points over all series equals the number of rows. */
  lemma PointsTotal(rows: seq<Row>, baseline: Date, g: Granularity)
    ensures TotalPoints(Grouped(rows, baseline, g)) == |rows|
  {
    var out := Grouped(rows, baseline, g);
    TotalIsCountOver(rows, baseline, g, |Names(rows)|);
    assert out[..|out|] == out;
    assert Names(rows)[..|Names(rows)|] == Names(rows);
    CountOverAll(rows, baseline, g);
  }

  /** Rows sorted ascending by `_id.date`, as the pipeline's `$sort` yields them. */
  predicate SortedByOffset(rows: seq<Row>) {
    forall i, j :: 0 <= i < j < |rows| ==> rows[i].offset <= rows[j].offset
  }

  lemma ScaleMonotone(a: int, b: int, m: int)
    requires a <= b && m > 0
    ensures a * m <= b * m
  {
  }

  lemma {:induction false} PointsOfSorted(rows: seq<Row>, name: string, baseline: Date, g: Granularity)
    requires SortedByOffset(rows)
    ensures forall i, j :: 0 <= i < j < |PointsOf(rows, name, baseline, g)| ==>
      PointsOf(rows, name, baseline, g)[i].date <= PointsOf(rows, name, baseline, g)[j].date
    decreases |rows|
  {
    if rows != [] {
      var init := rows[..|rows| - 1];
      var last := rows[|rows| - 1];
      PointsOfSorted(init, name, baseline, g);
      PointsFromRows(init, name, baseline, g);
      var before := PointsOf(init, name, baseline, g);
      forall i | 0 <= i < |before| ensures before[i].date <= PointOf(last, baseline, g).date {
        assert before[i] in before;
        var k :| 0 <= k < |init| && init[k].name == name && before[i] == PointOf(init[k], baseline, g);
        assert init[k] == rows[k];
        ScaleMonotone(init[k].offset, last.offset, UnitMs(g));
      }
    }
  }

  /** With rows sorted by offset, every series' dates are nondecreasing. */
  lemma SeriesSorted(rows: seq<Row>, baseline: Date, g: Granularity)
    requires SortedByOffset(rows)
    ensures forall s :: s in Grouped(rows, baseline, g) ==>
      forall i, j :: 0 <= i < j < |s.points| ==> s.points[i].date <= s.points[j].date
  {
    forall s | s in Grouped(rows, baseline, g)
      ensures forall i, j :: 0 <= i < j < |s.points| ==> s.points[i].date <= s.points[j].date
    {
      PointsOfSorted(rows, s.id, baseline, g);
    }
  }

  /** No point is dated before the window's start when no offset is negative
      (`$minute` and `$hour` never are). */
  lemma SeriesInWindow(rows: seq<Row>, baseline: Date, g: Granularity)
    requires forall k :: 0 <= k < |rows| ==> rows[k].offset >= 0
    ensures forall s, p :: s in Grouped(rows, baseline, g) && p in s.points ==> p.date >= baseline
  {
    forall s, p | s in Grouped(rows, baseline, g) && p in s.points ensures p.date >= baseline {
      PointsFromRows(rows, s.id, baseline, g);
      var k :| 0 <= k < |rows| && rows[k].name == s.id && p == PointOf(rows[k], baseline, g);
      ScaleMonotone(0, rows[k].offset, UnitMs(g));
    }
  }

  // ---------------------------------------------------------------------
  // The aggregation pipeline, as a reference relation between the stored
  // mentions and the rows it returns.

  /** `{ $minute: '$date' }` or `{ $hour: '$date' }`: the UTC minute of the
      hour or hour of the day of a date. */
  function Field(g: Granularity, d: Date): (f: int)
    ensures 0 <= f < (if g == Minute then 60 else 24)
  {
    match g
    case Minute => (d / MINUTE_MS) % 60
    case Hour => (d / HOUR_MS) % 24
  }

  /** The number of mentions after `baseline` with this name and field. */
  function CountKey(events: seq<Mention>, baseline: Date, g: Granularity, name: string, offset: int): nat {
    if events == [] then 0
    else
      var e := events[|events| - 1];
      CountKey(events[..|events| - 1], baseline, g, name, offset) +
        (if e.date > baseline && e.name == name && Field(g, e.date) == offset then 1 else 0)
  }

  /** Some mention after `baseline` carries `name`. */
  predicate Mentioned(events: seq<Mention>, baseline: Date, name: string) {
    exists e :: e in events && e.date > baseline && e.name == name
  }

  /** Some row has the key `(name, offset)`. */
  predicate HasKey(rows: seq<Row>, name: string, offset: int) {
    exists k :: 0 <= k < |rows| && rows[k].name == name && rows[k].offset == offset
  }

  /** `rows` is a result of `$match` on `date > baseline`, `$group` by
      `(field of date, name)` with `$sum: 1`, then `$sort` on the field. */
  predicate IsAggregation(events: seq<Mention>, baseline: Date, g: Granularity, rows: seq<Row>) {
    && (forall k :: 0 <= k < |rows| ==>
          rows[k].value > 0 && rows[k].value == CountKey(events, baseline, g, rows[k].name, rows[k].offset))
    && (forall e :: e in events && e.date > baseline ==> HasKey(rows, e.name, Field(g, e.date)))
    && (forall i, j :: 0 <= i < j < |rows| ==> rows[i].name != rows[j].name || rows[i].offset != rows[j].offset)
    && SortedByOffset(rows)
  }

  /** Some mention after `baseline` has this name and field. */
  predicate KeyMentioned(events: seq<Mention>, baseline: Date, g: Granularity, name: string, offset: int) {
    exists e :: e in events && e.date > baseline && e.name == name && Field(g, e.date) == offset
  }

  /** A key with a positive count is the key of some mention in the window. */
  lemma {:induction false} CountKeyWitness(events: seq<Mention>, baseline: Date, g: Granularity, name: string, offset: int)
    requires CountKey(events, baseline, g, name, offset) > 0
    ensures KeyMentioned(events, baseline, g, name, offset)
    decreases |events|
  {
    var init := events[..|events| - 1];
    var e := events[|events| - 1];
    if CountKey(init, baseline, g, name, offset) > 0 {
      CountKeyWitness(init, baseline, g, name, offset);
      var w :| w in init && w.date > baseline && w.name == name && Field(g, w.date) == offset;
      assert w in events;
    } else {
      assert e in events;
    }
  }

  /** A series exists exactly for the names mentioned inside the window:
      no mentioned candidate is omitted, and none without mentions appears. */
  lemma AggregatedNames(events: seq<Mention>, baseline: Date, g: Granularity, rows: seq<Row>)
    requires IsAggregation(events, baseline, g, rows)
    ensures forall name :: HasSeries(Grouped(rows, baseline, g), name) <==> Mentioned(events, baseline, name)
  {
    SeriesPerName(rows, baseline, g);
    forall name ensures HasSeries(Grouped(rows, baseline, g), name) <==> Mentioned(events, baseline, name) {
      if Carries(rows, name) {
        var k :| 0 <= k < |rows| && rows[k].name == name;
        CountKeyWitness(events, baseline, g, name, rows[k].offset);
        var e :| e in events && e.date > baseline && e.name == name && Field(g, e.date) == rows[k].offset;
      }
      if Mentioned(events, baseline, name) {
        var e :| e in events && e.date > baseline && e.name == name;
        var k :| 0 <= k < |rows| && rows[k].name == e.name && rows[k].offset == Field(g, e.date);
        assert Carries(rows, name);
      }
    }
  }

  /** Over aggregated rows, every series is in date order and no point is
      dated before the window's start. */
  lemma AggregatedSeriesOrdered(events: seq<Mention>, baseline: Date, g: Granularity, rows: seq<Row>)
    requires IsAggregation(events, baseline, g, rows)
    ensures forall s :: s in Grouped(rows, baseline, g) ==>
      forall i, j :: 0 <= i < j < |s.points| ==> s.points[i].date <= s.points[j].date
    ensures forall s, p :: s in Grouped(rows, baseline, g) && p in s.points ==> p.date >= baseline
  {
    forall k | 0 <= k < |rows| ensures rows[k].offset >= 0 {
      CountKeyWitness(events, baseline, g, rows[k].name, rows[k].offset);
      var e :| e in events && e.date > baseline && e.name == rows[k].name && Field(g, e.date) == rows[k].offset;
    }
    SeriesSorted(rows, baseline, g);
    SeriesInWindow(rows, baseline, g);
  }
}
