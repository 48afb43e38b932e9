/** The websocket side of the server (`startSocket` in src/server/index.js):
    a cached 4-tuple refreshed from the database, a subscriber counter that
    every connect and disconnect changes and broadcasts, and a periodic tick
    that stops for good after broadcasting one error. */
module Broadcast {
  import opened Wrappers
  import opened Records
  import opened Series
  import opened Snapshot

  /** A socket.io connection. */
  type SocketId = nat

  /** The cached `[ minute, hour, polls, markets ]`. */
  datatype Cache = Cache(minute: seq<NamedSeries>, hour: seq<NamedSeries>, polls: Option<Json>, markets: MarketView)

  /** A row of `valuesInLast`: `{ _id: name, value }`. */
  datatype Sum = Sum(id: string, value: nat)

  /** What a message carries, before `JSON.stringify`. */
  datatype Payload =
    | SeriesData(minute: seq<NamedSeries>, hour: seq<NamedSeries>)  // { type: 'series', data: { minute, hour } }
    | PollsData(poll: Option<Json>)
    | MarketsData(market: MarketView)
    | ClientCount(clients: int)                                      // { clients }
    | PointData(minuteSums: seq<Sum>, hourSums: seq<Sum>)            // { type: 'point', data: { minute, hour } }
    | TickError(error: string)                                       // { error }

  /** `ws.sendJSON(tag, data)` to one socket, or `wss.broadcast(data, tag)`
      to every connected socket. */
  datatype Message = Emit(to: SocketId, tag: string, payload: Payload) | ToAll(tag: string, payload: Payload)

  /** `updateCachedSeries`: the four queries of `await* [...]`, each given
      what its database call produced. The tuple exists only when all four
      succeed; otherwise the first failure in list order rejects it. */
  function CacheOf(candidates: seq<string>, now: Date, aggregate: Pipeline,
                   polls: Result<seq<PollRecord>, string>, markets: Result<seq<MarketRecord>, string>): (r: Result<Cache, string>)
    ensures r.Success? <==>
      && aggregate(now - HOUR_MS, Minute).Success? && aggregate(now - DAY_MS, Hour).Success?
      && polls.Success? && polls.value != [] && markets.Success? && markets.value != []
    ensures aggregate(now - HOUR_MS, Minute).Failure? ==> r == Failure(aggregate(now - HOUR_MS, Minute).error)
    ensures r.Success? ==> r.value.minute == Grouped(aggregate(now - HOUR_MS, Minute).value, now - HOUR_MS, Minute)
    ensures r.Success? ==> r.value.hour == Grouped(aggregate(now - DAY_MS, Hour).value, now - DAY_MS, Hour)
    ensures r.Success? ==> r.value.polls == QueryPollData(polls).value
    ensures r.Success? ==> r.value.markets == QueryMarketData(candidates, markets).value
  {
    match SeriesResult("minute", now, aggregate)
    case Failure(e) => Failure(e)
    case Success(minute) =>
      match SeriesResult("hour", now, aggregate)
      case Failure(e) => Failure(e)
      case Success(hour) =>
        match QueryPollData(polls)
        case Failure(e) => Failure(e)
        case Success(poll) =>
          match QueryMarketData(candidates, markets)
          case Failure(e) => Failure(e)
          case Success(market) => Success(Cache(minute, hour, poll, market))
  }

  /** `updateCachedSeries` up to the assignment to `cache`. */
  method AssembleCache(candidates: seq<string>, now: Date, aggregate: Pipeline,
                       polls: Result<seq<PollRecord>, string>, markets: Result<seq<MarketRecord>, string>)
    returns (r: Result<Cache, string>)
    ensures r == CacheOf(candidates, now, aggregate, polls, markets)
  {
    var minute := SeriesPer("minute", now, aggregate);
    if minute.Failure? { return Failure(minute.error); }
    var hour := SeriesPer("hour", now, aggregate);
    if hour.Failure? { return Failure(hour.error); }
    var poll := QueryPollData(polls);
    if poll.Failure? { return Failure(poll.error); }
    var market := QueryMarketData(candidates, markets);
    if market.Failure? { return Failure(market.error); }
    r := Success(Cache(minute.value, hour.value, poll.value, market.value));
  }

  /** The subscriber count of the last `count` broadcast, 0 before any. */
  function LastCount(outbox: seq<Message>): int {
    if outbox == [] then 0
    else
      var m := outbox[|outbox| - 1];
      if m.ToAll? && m.tag == "count" && m.payload.ClientCount? then m.payload.clients
      else LastCount(outbox[..|outbox| - 1])
  }

  /** The number of `{ error }` broadcasts. */
  function ErrorCount(outbox: seq<Message>): nat {
    if outbox == [] then 0
    else ErrorCount(outbox[..|outbox| - 1]) + (if outbox[|outbox| - 1].payload.TickError? then 1 else 0)
  }

  /** Message `i` of `outbox` is the series snapshot sent to `ws`, and `ws`
      received nothing before it. */
  ghost predicate Greeted(outbox: seq<Message>, audience: seq<set<SocketId>>, ws: SocketId, i: int) {
    && 0 <= i < |outbox| && i < |audience|
    && outbox[i].Emit? && outbox[i].to == ws && outbox[i].tag == "data" && outbox[i].payload.SeriesData?
    && forall j :: 0 <= j < i ==> ws !in audience[j]
  }

  /** Who received what: `audience[i]` is the set of sockets message `i`
      reached, all of them sockets that connected (the keys of `greeting`);
      a direct message reaches its socket only; every socket that connected
      got a series snapshot, at index `greeting[ws]`, as the first message it
      received, and it is the only series snapshot sent to that socket. */
  ghost predicate Delivered(outbox: seq<Message>, audience: seq<set<SocketId>>, greeting: map<SocketId, nat>) {
    && |audience| == |outbox|
    && (forall i {:trigger Reached(outbox[i], audience[i], greeting, i)} :: 0 <= i < |outbox| ==> Reached(outbox[i], audience[i], greeting, i))
    && (forall ws {:trigger Greeted(outbox, audience, ws, greeting[ws])} :: ws in greeting ==> Greeted(outbox, audience, ws, greeting[ws]))
  }

  /** Message `m`, number `i`, reached the sockets `to`: sockets that
      connected; only its addressee if it is direct; and a series snapshot
      is the one recorded for its socket. */
  ghost predicate Reached(m: Message, to: set<SocketId>, greeting: map<SocketId, nat>, i: int) {
    && to <= greeting.Keys
    && (m.Emit? ==> to == {m.to})
    && (m.Emit? && m.payload.SeriesData? ==> m.to in greeting && greeting[m.to] == i)
  }

  lemma GreetedExtend(outbox: seq<Message>, audience: seq<set<SocketId>>, ws: SocketId, i: int, m: Message, to: set<SocketId>)
    requires Greeted(outbox, audience, ws, i)
    ensures Greeted(outbox + [m], audience + [to], ws, i)
  {
    assert (outbox + [m])[i] == outbox[i];
    assert forall j :: 0 <= j < i ==> (audience + [to])[j] == audience[j];
  }

  /** Any message other than a series snapshot, sent to sockets that have
      connected, keeps the delivery record consistent. */
  lemma DeliveredExtend(outbox: seq<Message>, audience: seq<set<SocketId>>, greeting: map<SocketId, nat>, m: Message, to: set<SocketId>)
    requires Delivered(outbox, audience, greeting)
    requires to <= greeting.Keys && (m.Emit? ==> to == {m.to}) && !(m.Emit? && m.payload.SeriesData?)
    ensures Delivered(outbox + [m], audience + [to], greeting)
  {
    var o, a := outbox + [m], audience + [to];
    assert forall i :: 0 <= i < |outbox| ==> o[i] == outbox[i] && a[i] == audience[i];
    assert Reached(m, to, greeting, |outbox|);
    forall ws | ws in greeting ensures Greeted(o, a, ws, greeting[ws]) {
      GreetedExtend(outbox, audience, ws, greeting[ws], m, to);
    }
  }

  /** The series snapshot for a socket that never connected before is its greeting. */
  lemma DeliveredGreet(outbox: seq<Message>, audience: seq<set<SocketId>>, greeting: map<SocketId, nat>, ws: SocketId, p: Payload)
    requires Delivered(outbox, audience, greeting) && ws !in greeting && p.SeriesData?
    ensures Delivered(outbox + [Emit(ws, "data", p)], audience + [{ws}], greeting[ws := |outbox|])
  {
    var m := Emit(ws, "data", p);
    var o, a, g := outbox + [m], audience + [{ws}], greeting[ws := |outbox|];
    assert forall i :: 0 <= i < |outbox| ==> o[i] == outbox[i] && a[i] == audience[i];
    forall i | 0 <= i < |o| ensures Reached(o[i], a[i], g, i) {
      if i < |outbox| {
        assert Reached(outbox[i], audience[i], greeting, i);
      }
    }
    forall j | 0 <= j < |outbox| ensures ws !in a[j] {
      assert Reached(outbox[j], audience[j], greeting, j);
    }
    assert Greeted(o, a, ws, |outbox|);
    forall w | w in g ensures Greeted(o, a, w, g[w]) {
      if w != ws {
        GreetedExtend(outbox, audience, w, greeting[w], m, {ws});
      }
    }
  }

  /** What the `connect` handler sends: the cached series, polls and markets
      to the new socket, in that order, then the new count to everyone. */
  function ConnectMessages(ws: SocketId, c: Cache, clients: int): seq<Message> {
    [ Emit(ws, "data", SeriesData(c.minute, c.hour)),
      Emit(ws, "polls", PollsData(c.polls)),
      Emit(ws, "markets", MarketsData(c.markets)),
      ToAll("count", ClientCount(clients)) ]
  }

  lemma AppendFour<T>(s: seq<T>, a: T, b: T, c: T, d: T)
    ensures s + [a, b, c, d] == s + [a] + [b] + [c] + [d]
  {
  }

  /** The series snapshot, polls and markets to the new socket. */
  lemma DeliveredGreeting(outbox: seq<Message>, audience: seq<set<SocketId>>, greeting: map<SocketId, nat>, ws: SocketId,
                          m0: Message, m1: Message, m2: Message)
    requires Delivered(outbox, audience, greeting) && ws !in greeting
    requires m0 == Emit(ws, "data", m0.payload) && m0.payload.SeriesData?
    requires m1 == Emit(ws, "polls", m1.payload) && m1.payload.PollsData?
    requires m2 == Emit(ws, "markets", m2.payload) && m2.payload.MarketsData?
    ensures Delivered(outbox + [m0] + [m1] + [m2], audience + [{ws}] + [{ws}] + [{ws}], greeting[ws := |outbox|])
    ensures ErrorCount(outbox + [m0] + [m1] + [m2]) == ErrorCount(outbox)
  {
    var g := greeting[ws := |outbox|];
    DeliveredGreet(outbox, audience, greeting, ws, m0.payload);
    var o1, a1 := outbox + [m0], audience + [{ws}];
    DeliveredExtend(o1, a1, g, m1, {ws});
    var o2, a2 := o1 + [m1], a1 + [{ws}];
    DeliveredExtend(o2, a2, g, m2, {ws});
    CountersExtend(outbox, m0);
    CountersExtend(o1, m1);
    CountersExtend(o2, m2);
  }

  lemma DeliveredConnect(outbox: seq<Message>, audience: seq<set<SocketId>>, greeting: map<SocketId, nat>, ws: SocketId,
                         c: Cache, clients: int, open: set<SocketId>)
    requires Delivered(outbox, audience, greeting) && ws !in greeting && open <= greeting.Keys + {ws}
    ensures Delivered(outbox + ConnectMessages(ws, c, clients), audience + [{ws}, {ws}, {ws}, open], greeting[ws := |outbox|])
    ensures LastCount(outbox + ConnectMessages(ws, c, clients)) == clients
    ensures ErrorCount(outbox + ConnectMessages(ws, c, clients)) == ErrorCount(outbox)
  {
    var sent := ConnectMessages(ws, c, clients);
    DeliveredGreeting(outbox, audience, greeting, ws, sent[0], sent[1], sent[2]);
    var o3 := outbox + [sent[0]] + [sent[1]] + [sent[2]];
    var a3 := audience + [{ws}] + [{ws}] + [{ws}];
    DeliveredExtend(o3, a3, greeting[ws := |outbox|], sent[3], open);
    CountersExtend(o3, sent[3]);
    AppendFour(outbox, sent[0], sent[1], sent[2], sent[3]);
    AppendFour(audience, {ws}, {ws}, {ws}, open);
  }

  lemma CardinalityAdd(s: set<SocketId>, x: SocketId)
    requires x !in s
    ensures |s + {x}| == |s| + 1
  {
    assert s + {x} - {x} == s;
  }

  lemma CardinalityRemove(s: set<SocketId>, x: SocketId)
    requires x in s
    ensures |s - {x}| == |s| - 1
  {
    assert (s - {x}) + {x} == s;
    CardinalityAdd(s - {x}, x);
  }

  lemma CountersExtend(outbox: seq<Message>, m: Message)
    ensures LastCount(outbox + [m]) ==
      (if m.ToAll? && m.tag == "count" && m.payload.ClientCount? then m.payload.clients else LastCount(outbox))
    ensures ErrorCount(outbox + [m]) == ErrorCount(outbox) + (if m.payload.TickError? then 1 else 0)
  {
    assert (outbox + [m])[..|outbox|] == outbox;
  }

  /** The server's invariant, over the values of its fields: the counter is
      the number of connected sockets and connects minus disconnects, the last
      `count` broadcast carries it, one `{ error }` was broadcast exactly
      when the tick has stopped, and the delivery record is consistent. */
  ghost predicate Consistent(clients: int, ticking: bool, outbox: seq<Message>, audience: seq<set<SocketId>>,
                             open: set<SocketId>, greeting: map<SocketId, nat>, connects: nat, disconnects: nat) {
    && Delivered(outbox, audience, greeting)
    && open <= greeting.Keys
    && clients == |open|
    && clients == connects - disconnects
    && LastCount(outbox) == clients
    && ErrorCount(outbox) == (if ticking then 0 else 1)
  }

  lemma ConsistentConnect(clients: int, ticking: bool, outbox: seq<Message>, audience: seq<set<SocketId>>,
                          open: set<SocketId>, greeting: map<SocketId, nat>, connects: nat, disconnects: nat,
                          ws: SocketId, c: Cache)
    requires Consistent(clients, ticking, outbox, audience, open, greeting, connects, disconnects)
    requires ws !in greeting
    ensures Consistent(clients + 1, ticking, outbox + ConnectMessages(ws, c, clients + 1),
                       audience + [{ws}, {ws}, {ws}, open + {ws}],
                       open + {ws}, greeting[ws := |outbox|], connects + 1, disconnects)
  {
    CardinalityAdd(open, ws);
    DeliveredConnect(outbox, audience, greeting, ws, c, clients + 1, open + {ws});
  }

  lemma ConsistentDisconnect(clients: int, ticking: bool, outbox: seq<Message>, audience: seq<set<SocketId>>,
                             open: set<SocketId>, greeting: map<SocketId, nat>, connects: nat, disconnects: nat,
                             ws: SocketId)
    requires Consistent(clients, ticking, outbox, audience, open, greeting, connects, disconnects)
    requires ws in open
    ensures Consistent(clients - 1, ticking, outbox + [ToAll("count", ClientCount(clients - 1))],
                       audience + [open - {ws}], open - {ws}, greeting, connects, disconnects + 1)
  {
    CardinalityRemove(open, ws);
    DeliveredExtend(outbox, audience, greeting, ToAll("count", ClientCount(clients - 1)), open - {ws});
    CountersExtend(outbox, ToAll("count", ClientCount(clients - 1)));
  }

  lemma ConsistentTick(clients: int, ticking: bool, outbox: seq<Message>, audience: seq<set<SocketId>>,
                       open: set<SocketId>, greeting: map<SocketId, nat>, connects: nat, disconnects: nat,
                       m: Message)
    requires Consistent(clients, ticking, outbox, audience, open, greeting, connects, disconnects)
    requires ticking && m.ToAll? && m.tag == "data" && (m.payload.PointData? || m.payload.TickError?)
    ensures Consistent(clients, !m.payload.TickError?, outbox + [m], audience + [open], open, greeting, connects, disconnects)
  {
    DeliveredExtend(outbox, audience, greeting, m, open);
    CountersExtend(outbox, m);
  }

  class Server {
    const candidates: seq<string>
    /** `clients`: the subscriber counter. */
    var clients: int
    /** `cache`: the last complete result of `updateCachedSeries`. */
    var cache: Cache
    /** False once `clearInterval(interval)` has run. */
    var ticking: bool
    /** Every message sent, in order. */
    var outbox: seq<Message>
    /** What `console.log` printed once serving: the errors of the tick. */
    var log: seq<string>

    /** The sockets socket.io holds as connected (the audience of a broadcast). */
    ghost var open: set<SocketId>
    /** Every socket that ever connected, with the index of its series snapshot. */
    ghost var greeting: map<SocketId, nat>
    /** For each message of `outbox`, the sockets it reached. */
    ghost var audience: seq<set<SocketId>>
    ghost var connects: nat
    ghost var disconnects: nat

    ghost predicate Valid()
      reads this
    {
      Consistent(clients, ticking, outbox, audience, open, greeting, connects, disconnects)
    }

    /** The server as `startSocket` leaves it once the first `updateCachedSeries`
        has completed: no subscriber, the tick armed, nothing sent. */
    constructor (candidates: seq<string>, cache: Cache)
      ensures Valid()
      ensures this.candidates == candidates && this.cache == cache
      ensures clients == 0 && ticking && outbox == [] && log == [] && open == {}
      ensures greeting == map[] && audience == [] && connects == 0 && disconnects == 0
    {
      this.candidates := candidates;
      this.cache := cache;
      clients := 0;
      ticking := true;
      outbox, log := [], [];
      open, greeting, audience := {}, map[], [];
      connects, disconnects := 0, 0;
    }

    /** The 5-second `updateCachedSeries`: the cache is replaced only when all
        four queries succeed; a rejection leaves the previous tuple. */
    method Refresh(now: Date, aggregate: Pipeline,
                   polls: Result<seq<PollRecord>, string>, markets: Result<seq<MarketRecord>, string>)
      requires Valid()
      modifies this`cache
      ensures Valid()
      ensures cache == match CacheOf(candidates, now, aggregate, polls, markets)
                       case Success(c) => c
                       case Failure(_) => old(cache)
    {
      var r := AssembleCache(candidates, now, aggregate, polls, markets);
      if r.Success? {
        cache := r.value;
      }
    }

    /** The `connect` handler: the new socket gets the cached series, polls
        and markets, in that order; then the counter rises and is broadcast. */
    method Connect(ws: SocketId)
      requires Valid()
      requires ws !in greeting
      modifies this
      ensures Valid()
      ensures outbox == old(outbox) + ConnectMessages(ws, cache, old(clients) + 1)
      ensures clients == old(clients) + 1
      ensures cache == old(cache) && ticking == old(ticking) && log == old(log)
      ensures open == old(open) + {ws} && connects == old(connects) + 1 && disconnects == old(disconnects)
      ensures greeting == old(greeting)[ws := |old(outbox)|]
      ensures audience == old(audience) + [{ws}, {ws}, {ws}, open]
    {
      var sent := ConnectMessages(ws, cache, clients + 1);
      ghost var to := [{ws}, {ws}, {ws}, open + {ws}];
      ConsistentConnect(clients, ticking, outbox, audience, open, greeting, connects, disconnects, ws, cache);
      outbox, audience, open, greeting, clients, connects :=
        outbox + sent, audience + to, open + {ws}, greeting[ws := |outbox|], clients + 1, connects + 1;
    }

    /** The `disconnect` handler: the socket has left socket.io's set; the
        counter falls and is broadcast to the sockets that remain. */
    method Disconnect(ws: SocketId)
      requires Valid()
      requires ws in open
      modifies this
      ensures Valid()
      ensures outbox == old(outbox) + [ToAll("count", ClientCount(old(clients) - 1))]
      ensures clients == old(clients) - 1
      ensures cache == old(cache) && ticking == old(ticking) && log == old(log)
      ensures open == old(open) - {ws} && disconnects == old(disconnects) + 1 && connects == old(connects)
      ensures greeting == old(greeting) && audience == old(audience) + [open]
    {
      ConsistentDisconnect(clients, ticking, outbox, audience, open, greeting, connects, disconnects, ws);
      outbox, audience := outbox + [ToAll("count", ClientCount(clients - 1))], audience + [open - {ws}];
      open, clients, disconnects := open - {ws}, clients - 1, disconnects + 1;
    }

    /** One run of the 500 ms interval, given what the two `valuesInLast`
        queries produced: a `point` broadcast, or on the first failure one
        `{ error }` broadcast, the error logged and `clearInterval`; a cleared
        interval runs no more. */
    method Tick(sums: Result<(seq<Sum>, seq<Sum>), string>)
      requires Valid()
      modifies this
      ensures Valid()
      ensures clients == old(clients) && cache == old(cache) && open == old(open)
      ensures greeting == old(greeting) && connects == old(connects) && disconnects == old(disconnects)
      ensures audience == if old(ticking) then old(audience) + [open] else old(audience)
      ensures !old(ticking) ==> outbox == old(outbox) && log == old(log) && !ticking
      ensures old(ticking) && sums.Success? ==>
        outbox == old(outbox) + [ToAll("data", PointData(sums.value.0, sums.value.1))] && log == old(log) && ticking
      ensures old(ticking) && sums.Failure? ==>
        outbox == old(outbox) + [ToAll("data", TickError(sums.error))] && log == old(log) + [sums.error] && !ticking
    {
      if !ticking {
        return;
      }
      var m := match sums
        case Success((minute, hour)) => ToAll("data", PointData(minute, hour))
        case Failure(error) => ToAll("data", TickError(error));
      ConsistentTick(clients, ticking, outbox, audience, open, greeting, connects, disconnects, m);
      outbox, audience, ticking, log :=
        outbox + [m], audience + [open], sums.Success?, if sums.Success? then log else log + [sums.error];
    }
  }

  /** What `startSocket` prints before opening the socket and before arming the tick. */
  const STARTING_SOCKET: string := "starting websocket..."
  const STARTING_BROADCAST: string := "starting websocket broadcast..."

  /** `startSocket`: fill the cache once, then serve. If that first refresh
      fails the error is logged and no socket is opened; otherwise the two
      status lines are printed and the server holds the startup candidate
      list, which every later refresh projects the market data onto. */
  method StartSocket(candidates: seq<string>, now: Date, aggregate: Pipeline,
                     polls: Result<seq<PollRecord>, string>, markets: Result<seq<MarketRecord>, string>)
    returns (server: Server?, log: seq<string>)
    ensures server == null <==> CacheOf(candidates, now, aggregate, polls, markets).Failure?
    ensures server == null ==> log == [CacheOf(candidates, now, aggregate, polls, markets).error]
    ensures server != null ==> fresh(server) && server.Valid() && log == [STARTING_SOCKET, STARTING_BROADCAST]
    ensures server != null ==> server.candidates == candidates
    ensures server != null ==> server.cache == CacheOf(candidates, now, aggregate, polls, markets).value
    ensures server != null ==> server.clients == 0 && server.ticking && server.outbox == [] && server.log == []
    ensures server != null ==> server.open == {} && server.greeting == map[]
  {
    var r := AssembleCache(candidates, now, aggregate, polls, markets);
    match r {
      case Failure(e) =>
        server, log := null, [e];
      case Success(c) =>
        log := [STARTING_SOCKET];
        server := new Server(candidates, c);
        log := log + [STARTING_BROADCAST];
    }
  }

  /** Two sockets connect to a freshly started server and the first leaves:
      each is greeted with the cached series before anything else, and the
      last count broadcast is 1. */
  method ConnectTwiceDisconnectOnce(candidates: seq<string>, cache: Cache) returns (server: Server)
    ensures server.Valid()
    ensures server.clients == 1 && LastCount(server.outbox) == 1
    ensures server.outbox == ConnectMessages(0, cache, 1) + ConnectMessages(1, cache, 2) + [ToAll("count", ClientCount(1))]
    ensures server.outbox[0] == Emit(0, "data", SeriesData(cache.minute, cache.hour))
    ensures server.outbox[4] == Emit(1, "data", SeriesData(cache.minute, cache.hour))
  {
    server := new Server(candidates, cache);
    server.Connect(0);
    server.Connect(1);
    server.Disconnect(0);
  }
}
