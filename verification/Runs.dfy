/** Whole runs of one engine: orders submitted, triggered stops delivered and orders cancelled, in any sequence
    (backend/app/api/v1/trading.py:194-246).  Delivering a stop is an event of its own, so whatever else reaches the
    engine while stops are pending, followers' copies included, may come before it or between two of them.

    `seen` holds the current value of every order object ever handed to the engine, `trades` every trade; the pending
    stops of the engine are all that are triggered and not yet delivered, those already taken off its list first. */
module Runs {
  import opened Orders
  import opened Sums
  import opened Priority
  import opened Matching
  import opened Levels
  import opened EngineModel
  import opened EngineProofs

  datatype World = World(engine: State, seen: map<OrderId, Order>, trades: seq<Trade>)

  datatype Event = Submit(order: Order, expired: bool) | Deliver(index: nat) | CancelOrder(id: OrderId)

  const Start := World(EmptyState, map[], [])

  function AfterFill(f: Fill): Order {
    f.maker.Filling(f.quantity)
  }

  /** The makers' objects after a match has filled them. */
  function Record(seen: map<OrderId, Order>, fills: seq<Fill>): map<OrderId, Order>
    decreases |fills|
  {
    if fills == [] then seen
    else Record(seen[fills[0].maker.id := AfterFill(fills[0])], fills[1..])
  }

  ghost function Handle(w: World, o: Order, expired: bool, fees: Fees): World {
    var (e, r) := Process(w.engine, o, expired);
    World(e, Record(w.seen, r.fills)[o.id := r.taker], w.trades + TradesOf(r.fills, o, fees))
  }

  predicate IsStop(o: Order) {
    o.kind.StopMarket? || o.kind.StopLimit?
  }

  /** A triggered stop becomes a plain order. */
  function Converted(o: Order): Order
    requires IsStop(o)
  {
    o.(kind := if o.kind.StopMarket? then Market else Limit)
  }

  function PopPending(e: State): State
    requires e.pending != []
  {
    e.(pending := e.pending[1..])
  }

  function TakePending(e: State, i: nat): State
    requires i < |e.pending|
  {
    e.(pending := e.pending[..i] + e.pending[i + 1..])
  }

  lemma CheckStopsCount(e: State)
    ensures CheckStops(e).StopCount() == e.StopCount()
    ensures Stops(CheckStops(e)) == Stops(e)
  {
    FiredMembers(Buy, e.stopBuys, e.lastPrice);
    FiredMembers(Sell, e.stopSells, e.lastPrice);
  }

  function LastPrice(before: real, fills: seq<Fill>): real {
    if fills == [] then before else fills[|fills| - 1].maker.price
  }

  /** Processing a plain order touches the stops only by checking them, if at all. */
  lemma ProcessChecked(e: State, o: Order, expired: bool) returns (x: State)
    requires !IsStop(o)
    ensures x.stopBuys == e.stopBuys && x.stopSells == e.stopSells && x.pending == e.pending
    ensures x.lastPrice == LastPrice(e.lastPrice, Process(e, o, expired).1.fills)
    ensures Process(e, o, expired).0 == x || Process(e, o, expired).0 == CheckStops(x)
  {
    hide MatchQuantity, MatchMarket, Fillable, Insert, LimitTaker, MarketTaker, CheckStops;
    x := e.(sequence := e.sequence + 1);
    if !expired {
      if o.kind.Limit? && !Killed(x, o) {
        var m := MatchQuantity(x.Makers(o.side.Opposite()), o.side, At(o.price), o.quantity);
        var e1, taker := AfterMatch(x, o.side, m.fills, m.book), LimitTaker(o, m.left);
        x := if m.left > 0.0 && o.tif in {Gtc, Gtd}
             then e1.WithMakers(o.side, Insert(ByPrice, o.side, e1.Makers(o.side), taker)) else e1;
      } else if o.kind.Market? && (o.quantity > 0.0 || o.quote > 0.0) && !Killed(x, o) {
        var (fills, book) := MatchMarket(x.Makers(o.side.Opposite()), o);
        x := AfterMatch(x, o.side, fills, book);
      }
    }
  }

  /** Matching only moves stops from the stop book to the pending list. */
  lemma StopCountKept(e: State, o: Order, expired: bool)
    requires !IsStop(o)
    ensures Process(e, o, expired).0.StopCount() == e.StopCount()
    ensures Stops(Process(e, o, expired).0) == Stops(e)
  {
    hide Process, CheckStops;
    var x := ProcessChecked(e, o, expired);
    CheckStopsCount(x);
  }

  /** Deliver one of the pending stops, as the plain order it becomes. */
  ghost function DeliverAt(w: World, i: nat, fees: Fees): World {
    if i < |w.engine.pending| then
      var o, w1 := w.engine.pending[i], w.(engine := TakePending(w.engine, i));
      if IsStop(o) then Handle(w1, Converted(o), false, fees) else w1
    else w
  }

  /** Deliver pending stops first in, first out, until none is left; also returns them in that order. */
  ghost function Cascade(w: World, fees: Fees): (World, seq<Order>)
    decreases w.engine.StopCount()
  {
    if w.engine.pending == [] then (w, [])
    else
      var o, w1 := w.engine.pending[0], w.(engine := PopPending(w.engine));
      if IsStop(o) then
        StopCountKept(w1.engine, Converted(o), false);
        var (w2, rest) := Cascade(Handle(w1, Converted(o), false, fees), fees);
        (w2, [o] + rest)
      else
        var (w2, rest) := Cascade(w1, fees);
        (w2, [o] + rest)
  }

  ghost function Step(w: World, ev: Event, fees: Fees): World {
    match ev
    case Submit(o, expired) => Handle(w, o, expired, fees)
    case Deliver(i) => DeliverAt(w, i, fees)
    case CancelOrder(id) =>
      var e := w.engine;
      World(Cancel(e, id),
            if id in w.seen && !Absent(e, id) then w.seen[id := w.seen[id].(status := Cancelled)] else w.seen,
            w.trades)
  }

  /** Callers submit fresh, well-formed orders. */
  ghost predicate Admits(w: World, ev: Event) {
    ev.Submit? ==> Incoming(ev.order) && ev.order.id !in w.seen
  }

  ghost predicate Admissible(w: World, evs: seq<Event>, fees: Fees)
    decreases |evs|
  {
    evs == [] || (Admits(w, evs[0]) && Admissible(Step(w, evs[0], fees), evs[1..], fees))
  }

  ghost function Run(w: World, evs: seq<Event>, fees: Fees): World
    decreases |evs|
  {
    if evs == [] then w else Run(Step(w, evs[0], fees), evs[1..], fees)
  }

  // ----- the invariant of every run -----

  /** All stops waiting or triggered but not yet delivered. */
  ghost function Stops(e: State): multiset<Order> {
    multiset(e.stopBuys) + multiset(e.stopSells) + multiset(e.pending)
  }

  ghost predicate Waiting(o: Order) {
    IsStop(o) && o.status.Pending? && Incoming(o)
  }

  ghost predicate StopsSound(e: State) {
    && Ordered(ByStop, Buy, e.stopBuys) && Ordered(ByStop, Sell, e.stopSells)
    && (forall o :: o in e.stopBuys ==> o.side.Buy?)
    && (forall o :: o in e.stopSells ==> o.side.Sell?)
    && (forall o :: o in Stops(e) ==> Waiting(o) && Stops(e)[o] == 1)
  }

  ghost predicate Registered(e: State, seen: map<OrderId, Order>) {
    && Known(e.bids, seen) && Known(e.asks, seen)
    && (forall o :: o in Stops(e) ==> o.id in seen && seen[o.id] == o)
  }

  ghost predicate Known(s: seq<Order>, seen: map<OrderId, Order>) {
    forall o :: o in s ==> o.id in seen && seen[o.id] == o
  }

  ghost function TradedAmounts(trades: seq<Trade>, id: OrderId): seq<real> {
    seq(|trades|, i requires 0 <= i < |trades| =>
      if trades[i].makerOrder == id || trades[i].takerOrder == id then trades[i].quantity else 0.0)
  }

  /** What an order has traded, as maker or taker. */
  ghost function Traded(trades: seq<Trade>, id: OrderId): real {
    Total(TradedAmounts(trades, id))
  }

  ghost predicate Accounted(seen: map<OrderId, Order>, trades: seq<Trade>) {
    forall id :: id in seen ==>
      && seen[id].id == id
      && 0.0 <= seen[id].filled <= seen[id].quantity
      && (QuantityFunded(seen[id]) ==> seen[id].filled == Traded(trades, id))
  }

  /** Not a market order with a quote budget, whose `filled` the engine does not keep. */
  predicate QuantityFunded(o: Order) {
    o.kind.Limit? || o.kind.StopLimit? || o.quote == 0.0
  }

  ghost predicate Sound(w: World) {
    && BookSound(w.engine)
    && StopsSound(w.engine)
    && Registered(w.engine, w.seen)
    && Accounted(w.seen, w.trades)
    && (forall i :: 0 <= i < |w.trades| ==> w.trades[i].makerOrder in w.seen && w.trades[i].takerOrder in w.seen)
  }

  // ----- recording fills -----

  /** Each fill finds its maker exactly as last recorded. */
  ghost predicate Faithful(seen: map<OrderId, Order>, fills: seq<Fill>)
    decreases |fills|
  {
    fills != [] ==>
      var f := fills[0];
      && f.maker.id in seen && seen[f.maker.id] == f.maker
      && 0.0 < f.quantity <= f.maker.Remaining() && f.maker.status.Live() && f.maker.filled >= 0.0
      && f.maker.kind.Limit?
      && Faithful(seen[f.maker.id := AfterFill(f)], fills[1..])
  }

  lemma {:induction false} FaithfulAppend(seen: map<OrderId, Order>, a: seq<Fill>, b: seq<Fill>)
    requires Faithful(seen, a) && Faithful(Record(seen, a), b)
    ensures Faithful(seen, a + b) && Record(seen, a + b) == Record(Record(seen, a), b)
  {
    if a == [] {
      assert a + b == b;
    } else {
      assert (a + b)[1..] == a[1..] + b;
      FaithfulAppend(seen[a[0].maker.id := AfterFill(a[0])], a[1..], b);
    }
  }

  ghost predicate Touches(fills: seq<Fill>, id: OrderId) {
    exists i :: 0 <= i < |fills| && fills[i].maker.id == id
  }

  /** Recording fills of distinct makers changes exactly those makers. */
  lemma {:induction false} RecordEffect(seen: map<OrderId, Order>, fills: seq<Fill>)
    requires forall i, j :: 0 <= i < j < |fills| ==> fills[i].maker.id != fills[j].maker.id
    ensures forall i :: 0 <= i < |fills| ==>
      fills[i].maker.id in Record(seen, fills) && Record(seen, fills)[fills[i].maker.id] == AfterFill(fills[i])
    ensures forall id :: id in seen && !Touches(fills, id) ==>
      id in Record(seen, fills) && Record(seen, fills)[id] == seen[id]
    decreases |fills|
  {
    hide Order.Filling;
    if fills == [] {
    } else {
      var f, tail := fills[0], fills[1..];
      var seen1 := seen[f.maker.id := AfterFill(f)];
      RecordEffect(seen1, tail);
      forall id | !Touches(fills, id) ensures !Touches(tail, id) && f.maker.id != id {
        forall i | 0 <= i < |tail| ensures tail[i].maker.id != id {
          assert fills[i + 1].maker.id != id;
        }
        assert fills[0].maker.id != id;
      }
      assert !Touches(tail, f.maker.id) by {
        forall i | 0 <= i < |tail| ensures tail[i].maker.id != f.maker.id {
          assert fills[i + 1].maker.id != fills[0].maker.id;
        }
      }
      forall i | 0 <= i < |fills|
        ensures fills[i].maker.id in Record(seen, fills)
        ensures Record(seen, fills)[fills[i].maker.id] == AfterFill(fills[i])
      {
        if i > 0 { assert fills[i] == tail[i - 1]; }
      }
    }
  }

  lemma {:induction false} RecordKeys(seen: map<OrderId, Order>, fills: seq<Fill>)
    requires Faithful(seen, fills)
    ensures Record(seen, fills).Keys == seen.Keys
    decreases |fills|
  {
    if fills == [] {
    } else {
      var f := fills[0];
      assert seen[f.maker.id := AfterFill(f)].Keys == seen.Keys;
      RecordKeys(seen[f.maker.id := AfterFill(f)], fills[1..]);
    }
  }

  /** Greedy fills over registered makers are faithful. */
  lemma {:induction false} GreedyFaithful(seen: map<OrderId, Order>, side: Side, makers: seq<Order>, fills: seq<Fill>)
    requires SideSound(side, makers) && Known(makers, seen) && Greedy(makers, fills)
    ensures Faithful(seen, fills)
    decreases |fills|
  {
    hide Order.Filling;
    if fills == [] {
    } else {
      var f, tail := fills[0], makers[1..];
      assert f.maker in makers;
      var seen1 := seen[f.maker.id := AfterFill(f)];
      SideTail(side, makers);
      forall o | o in tail ensures o.id in seen1 && seen1[o.id] == o {
        var j :| 0 <= j < |tail| && tail[j] == o;
        assert makers[j + 1] == o && o in makers;
      }
      GreedyTail(makers, fills);
      GreedyFaithful(seen1, side, tail, fills[1..]);
    }
  }

  lemma GreedyTail(makers: seq<Order>, fills: seq<Fill>)
    requires Greedy(makers, fills) && fills != []
    ensures Greedy(makers[1..], fills[1..])
  {
    var a, b := makers[1..], fills[1..];
    forall i | 0 <= i < |b| ensures a[i] == makers[i + 1] && b[i] == fills[i + 1] {}
  }

  lemma GreedyDistinct(side: Side, makers: seq<Order>, fills: seq<Fill>)
    requires SideSound(side, makers) && Greedy(makers, fills)
    ensures forall i, j :: 0 <= i < j < |fills| ==> fills[i].maker.id != fills[j].maker.id
  {
    forall i, j | 0 <= i < j < |fills| ensures fills[i].maker.id != fills[j].maker.id {
      assert makers[i].id != makers[j].id;
    }
  }

  lemma SideTail(side: Side, makers: seq<Order>)
    requires SideSound(side, makers) && makers != []
    ensures SideSound(side, makers[1..])
  {
    assert forall o :: o in makers[1..] ==> o in makers;
  }

  /** One greedy match: everything still on either side, and every stop, is registered afterwards. */
  lemma MatchRegistered(e: State, seen: map<OrderId, Order>, side: Side, fills: seq<Fill>)
    requires BookSound(e) && StopsSound(e) && Registered(e, seen) && Greedy(e.Makers(side), fills)
    ensures Faithful(seen, fills) && Record(seen, fills).Keys == seen.Keys
    ensures Registered(e.WithMakers(side, Leftover(side, e.Makers(side), fills)), Record(seen, fills))
  {
    hide Leftover, Insert, Record, Faithful, Greedy, Order.Filling, Incoming, MakersOk, UniqueIds, Touches, Ordered,
         StopsSound, Uncrossed;
    var makers := e.Makers(side);
    var seen' := Record(seen, fills);
    GreedyFaithful(seen, side, makers, fills);
    GreedyDistinct(side, makers, fills);
    RecordKeys(seen, fills);
    RecordEffect(seen, fills);
    forall o: Order | o.id in seen && seen[o.id] == o && (!o.status.Live() || o.side != side)
      ensures seen'[o.id] == o
    {
      UntouchedOther(side, makers, seen, fills, o.id);
    }
    LeftoverKnown(side, makers, fills, seen');
    forall o | o in Stops(e) ensures o.id in seen' && seen'[o.id] == o {
      StopIdle(e, o);
    }
  }

  lemma StopIdle(e: State, o: Order)
    requires StopsSound(e) && o in Stops(e)
    ensures !o.status.Live()
  {
  }

  lemma UntouchedOther(side: Side, makers: seq<Order>, seen: map<OrderId, Order>, fills: seq<Fill>, id: OrderId)
    requires SideSound(side, makers) && Known(makers, seen) && Greedy(makers, fills)
    requires id in seen && (!seen[id].status.Live() || seen[id].side != side)
    ensures !Touches(fills, id)
  {
    forall i | 0 <= i < |fills| ensures fills[i].maker.id != id {
      assert makers[i] in makers;
    }
  }

  lemma LeftoverKnown(side: Side, makers: seq<Order>, fills: seq<Fill>, seen': map<OrderId, Order>)
    requires SideSound(side, makers) && Greedy(makers, fills)
    requires forall i :: 0 <= i < |fills| ==>
      fills[i].maker.id in seen' && seen'[fills[i].maker.id] == AfterFill(fills[i])
    requires forall o :: o in makers && !Touches(fills, o.id) ==> o.id in seen' && seen'[o.id] == o
    ensures Known(Leftover(side, makers, fills), seen')
  {
    hide Leftover;
    LeftoverKeeps(side, makers, fills);
    forall o | o in makers[|fills|..] ensures o.id in seen' && seen'[o.id] == o {
      var j :| 0 <= j < |makers[|fills|..]| && makers[|fills|..][j] == o;
      assert makers[|fills| + j] == o && o in makers;
      forall i | 0 <= i < |fills| ensures fills[i].maker.id != o.id {
        assert makers[i].id != makers[|fills| + j].id;
      }
    }
  }

  // ----- one processed order -----

  ghost predicate AbsentAll(e: State, id: OrderId) {
    Absent(e, id) && forall x :: x in Stops(e) ==> x.id != id
  }

  lemma AddTaker(e: State, seen: map<OrderId, Order>, t: Order)
    requires Registered(e, seen) && AbsentAll(e, t.id)
    ensures Registered(e, seen[t.id := t])
  {
  }

  /** Matching leaves an absent id absent and every survivor registered. */
  lemma MatchLeaves(e: State, seen: map<OrderId, Order>, taker: Side, fills: seq<Fill>, id: OrderId) returns (e1: State)
    requires BookSound(e) && StopsSound(e) && Registered(e, seen) && AbsentAll(e, id)
    requires Greedy(e.Makers(taker.Opposite()), fills)
    ensures e1 == e.WithMakers(taker.Opposite(), Leftover(taker.Opposite(), e.Makers(taker.Opposite()), fills))
    ensures BookSound(e1) && StopsSound(e1) && Registered(e1, Record(seen, fills)) && AbsentAll(e1, id)
    ensures Faithful(seen, fills)
  {
    hide Leftover, Greedy, Insert, Record, Faithful, SideSound, Uncrossed, Ordered, Incoming;
    e1 := e.WithMakers(taker.Opposite(), Leftover(taker.Opposite(), e.Makers(taker.Opposite()), fills));
    MatchRegistered(e, seen, taker.Opposite(), fills);
    MatchSound(e, taker, fills);
    AbsentAfter(e, taker, fills, id);
    assert Stops(e1) == Stops(e);
  }

  /** Registration does not depend on the last price, the sequence number or where a stop waits. */
  lemma SameBook(a: State, b: State, seen: map<OrderId, Order>)
    requires a.bids == b.bids && a.asks == b.asks && Stops(a) == Stops(b) && Registered(a, seen)
    ensures Registered(b, seen)
  {
  }

  lemma Finish(e1: State, a: State, seen: map<OrderId, Order>)
    requires Registered(e1, seen) && a.bids == e1.bids && a.asks == e1.asks
    requires a.stopBuys == e1.stopBuys && a.stopSells == e1.stopSells && a.pending == e1.pending
    ensures Registered(CheckStops(a), seen)
  {
    hide Stops, CheckStops;
    SameStops(e1, a);
    CheckStopsCount(a);
    CheckStopsKeepsBook(a);
    SameBook(e1, CheckStops(a), seen);
  }

  lemma LimitRegistered(e: State, seen: map<OrderId, Order>, o: Order)
    requires BookSound(e) && StopsSound(e) && Registered(e, seen)
    requires Incoming(o) && o.kind.Limit? && AbsentAll(e, o.id)
    ensures var (e', r) := ProcessLimit(e, o);
      Faithful(seen, r.fills) && Registered(e', Record(seen, r.fills)[o.id := r.taker])
  {
    hide MatchQuantity, Leftover, Greedy, Insert, Fillable, SideSound, Uncrossed, Record, LimitTaker, StopsSound,
         CheckStops, Stops;
    var makers := e.Makers(o.side.Opposite());
    if Killed(e, o) {
      AddTaker(e, seen, o.(status := Cancelled));
      assert Faithful(seen, []) && Record(seen, []) == seen by { NothingRecorded(seen); }
    } else {
      var m := MatchQuantity(makers, o.side, At(o.price), o.quantity);
      SideOf(e, o.side.Opposite());
      QuantityIsGreedy(makers, o.side, At(o.price), o.quantity);
      var e1 := MatchLeaves(e, seen, o.side, m.fills, o.id);
      TakerId(o, m.left);
      AddTaker(e1, Record(seen, m.fills), LimitTaker(o, m.left));
      RestRegistered(e, e1, Record(seen, m.fills), o, m);
    }
  }

  /** Whether the taker rests or not, what is on the book and waiting stays registered. */
  lemma RestRegistered(e: State, e1: State, seen: map<OrderId, Order>, o: Order, m: Outcome)
    requires BookSound(e1) && o.kind.Limit? && !Killed(e, o)
    requires m == MatchQuantity(e.Makers(o.side.Opposite()), o.side, At(o.price), o.quantity)
    requires e1 == e.WithMakers(o.side.Opposite(), m.book)
    requires Registered(e1, seen[o.id := LimitTaker(o, m.left)])
    ensures Registered(ProcessLimit(e, o).0, seen[o.id := LimitTaker(o, m.left)])
  {
    hide MatchQuantity, Insert, Fillable, SideSound, Uncrossed, LimitTaker, CheckStops, Stops;
    var t := LimitTaker(o, m.left);
    var a := AfterMatch(e, o.side, m.fills, m.book);
    var e2 := if m.left > 0.0 && o.tif in {Gtc, Gtd}
              then a.WithMakers(o.side, Insert(ByPrice, o.side, e.Makers(o.side), t)) else a;
    TakerId(o, m.left);
    SideOf(e1, o.side);
    InsertMembers(ByPrice, o.side, e.Makers(o.side), t);
    assert Stops(e2) == Stops(e1) by { SameStops(e2, e1); }
    Finish(e2, e2, seen[o.id := t]);
  }

  lemma SameStops(a: State, b: State)
    requires a.stopBuys == b.stopBuys && a.stopSells == b.stopSells && a.pending == b.pending
    ensures Stops(a) == Stops(b)
  {
  }

  lemma NothingRecorded(seen: map<OrderId, Order>)
    ensures Faithful(seen, []) && Record(seen, []) == seen
  {
  }

  lemma TakerId(o: Order, left: real)
    ensures LimitTaker(o, left).id == o.id
  {
  }

  lemma MarketRegistered(e: State, seen: map<OrderId, Order>, o: Order)
    requires BookSound(e) && StopsSound(e) && Registered(e, seen) && AbsentAll(e, o.id)
    ensures var (e', r) := ProcessMarket(e, o);
      Faithful(seen, r.fills) && Registered(e', Record(seen, r.fills)[o.id := r.taker])
  {
    hide MatchQuantity, MatchBudget, MatchMarket, Leftover, Greedy, Insert, Fillable, SideSound, Uncrossed, Record,
         StopsSound, CheckStops, Stops, FillTotal, Registered, Faithful, AbsentAll, MarketTaker, FillWorth, AfterMatch;
    NothingRecorded(seen);
    AddTaker(e, seen, o.(status := Rejected));
    AddTaker(e, seen, o.(status := Cancelled));
    MarketMatched(e, seen, o);
  }

  lemma MarketMatched(e: State, seen: map<OrderId, Order>, o: Order)
    requires BookSound(e) && StopsSound(e) && Registered(e, seen) && AbsentAll(e, o.id)
    ensures var (fills, book) := MatchMarket(e.Makers(o.side.Opposite()), o);
      Faithful(seen, fills)
      && Registered(CheckStops(AfterMatch(e, o.side, fills, book)),
                    Record(seen, fills)[o.id := MarketTaker(o, FillTotal(fills))])
  {
    hide MatchQuantity, MatchBudget, MatchMarket, Leftover, Greedy, Insert, Fillable, SideSound, Uncrossed, Record,
         StopsSound, CheckStops, Stops, FillTotal, Registered, Faithful, AbsentAll, FillWorth;
    SideOf(e, o.side.Opposite());
    var q, b := MarketLegs(e.Makers(o.side.Opposite()), o);
    var e1 := MatchLeaves(e, seen, o.side, q.fills, o.id);
    var e2 := MatchLeaves(e1, Record(seen, q.fills), o.side, b.fills, o.id);
    FaithfulAppend(seen, q.fills, b.fills);
    var fills := q.fills + b.fills;
    var t := MarketTaker(o, FillTotal(fills));
    AddTaker(e2, Record(seen, fills), t);
    Finish(e2, AfterMatch(e, o.side, fills, b.book), Record(seen, fills)[o.id := t]);
  }

  lemma AddStopStops(e: State, o: Order)
    requires StopsSound(e)
    ensures Stops(AddStop(e, o)) == Stops(e) + multiset{o}
    ensures AddStop(e, o).StopCount() == e.StopCount() + 1
  {
    hide Insert, Waiting, Ordered;
    InsertMembers(ByStop, o.side, if o.side.Buy? then e.stopBuys else e.stopSells, o);
  }

  lemma StopRegistered(e: State, seen: map<OrderId, Order>, t: Order)
    requires StopsSound(e) && Registered(e, seen) && AbsentAll(e, t.id)
    ensures Registered(AddStop(e, t), seen[t.id := t])
  {
    hide Insert, AddStop;
    AddTaker(e, seen, t);
    AddStopStops(e, t);
    AddStopBook(e, t);
  }

  lemma ProcessRegistered(e: State, seen: map<OrderId, Order>, o: Order, expired: bool)
    requires BookSound(e) && StopsSound(e) && Registered(e, seen) && Incoming(o) && AbsentAll(e, o.id)
    ensures var (e', r) := Process(e, o, expired);
      Faithful(seen, r.fills) && Registered(e', Record(seen, r.fills)[o.id := r.taker]) && r.taker.id == o.id
  {
    hide ProcessLimit, ProcessMarket, SideSound, Uncrossed, Record, Ordered, AddStop, Incoming, Faithful, Known, Absent;
    NothingRecorded(seen);
    var e0 := e.(sequence := e.sequence + 1);
    assert Stops(e0) == Stops(e);
    assert StopsSound(e0) && Registered(e0, seen) && AbsentAll(e0, o.id) by { AbsentSame(e, e0, o.id); }
    hide Stops, StopsSound, Registered, AbsentAll;
    AddTaker(e0, seen, o.(status := Expired));
    if !expired {
      match o.kind
      case Limit => LimitRegistered(e0, seen, o); TakerSame(e0, o);
      case Market => MarketRegistered(e0, seen, o); TakerSame(e0, o);
      case _ => StopRegistered(e0, seen, o.(status := Pending));
    }
  }

  lemma AbsentSame(a: State, b: State, id: OrderId)
    requires a.bids == b.bids && a.asks == b.asks && AbsentAll(a, id)
    ensures Absent(b, id)
  {
  }

  lemma AddStopBook(e: State, o: Order)
    ensures AddStop(e, o).bids == e.bids && AddStop(e, o).asks == e.asks
  {
  }

  lemma TakerSame(e: State, o: Order)
    ensures ProcessLimit(e, o).1.taker.id == o.id == ProcessMarket(e, o).1.taker.id
  {
    hide MatchQuantity, MatchMarket, Fillable;
  }

  // ----- stops -----

  lemma CheckStopsSound(e: State)
    requires StopsSound(e)
    ensures StopsSound(CheckStops(e))
  {
    hide Incoming, Ordered;
    CheckStopsCount(e);
    UnfiredOrdered(Buy, e.stopBuys, e.lastPrice);
    UnfiredOrdered(Sell, e.stopSells, e.lastPrice);
    FiredMembers(Buy, e.stopBuys, e.lastPrice);
    FiredMembers(Sell, e.stopSells, e.lastPrice);
  }

  lemma AddStopSound(e: State, t: Order)
    requires StopsSound(e) && Waiting(t) && AbsentAll(e, t.id)
    ensures StopsSound(AddStop(e, t))
  {
    hide Insert, Ordered, Absent, Incoming;
    var list := if t.side.Buy? then e.stopBuys else e.stopSells;
    AddStopStops(e, t);
    InsertOrdered(ByStop, t.side, list, t);
    InsertMembers(ByStop, t.side, list, t);
    assert Stops(e)[t] == 0;
  }

  lemma ProcessStops(e: State, o: Order, expired: bool)
    requires StopsSound(e) && Incoming(o) && AbsentAll(e, o.id)
    ensures StopsSound(Process(e, o, expired).0)
  {
    hide MatchQuantity, MatchMarket, Fillable, Insert, LimitTaker, MarketTaker, CheckStops, Ordered, Absent, AddStop,
         ProcessLimit, ProcessMarket;
    var e0 := e.(sequence := e.sequence + 1);
    assert Stops(e0) == Stops(e);
    if !IsStop(o) {
      var x := ProcessChecked(e, o, expired);
      assert Stops(x) == Stops(e);
      CheckStopsSound(x);
    } else if !expired {
      AddStopSound(e0, o.(status := Pending)) by { AbsentSame(e, e0, o.id); }
    }
  }

  // ----- filled quantities -----

  ghost function GivenAmounts(fills: seq<Fill>, id: OrderId): seq<real> {
    seq(|fills|, i requires 0 <= i < |fills| => if fills[i].maker.id == id then fills[i].quantity else 0.0)
  }

  /** What an order gives up as maker. */
  ghost function Given(fills: seq<Fill>, id: OrderId): real {
    Total(GivenAmounts(fills, id))
  }

  lemma {:induction false} FaithfulGives(seen: map<OrderId, Order>, fills: seq<Fill>, id: OrderId)
    requires Faithful(seen, fills) && id in seen && seen[id].id == id
    ensures id in Record(seen, fills)
    ensures var o := Record(seen, fills)[id];
      && o.id == id && o.kind == seen[id].kind && o.quote == seen[id].quote && o.quantity == seen[id].quantity
      && o.filled == seen[id].filled + Given(fills, id)
      && (0.0 <= seen[id].filled <= seen[id].quantity ==> 0.0 <= o.filled <= o.quantity)
    ensures seen[id].status.Terminal() || seen[id].status.Pending? ==>
      Record(seen, fills)[id] == seen[id] && !Touches(fills, id) && Given(fills, id) == 0.0
    decreases |fills|
  {
    if fills == [] {
    } else {
      var f, tail := fills[0], fills[1..];
      FillingFacts(f.maker, f.quantity);
      FaithfulGives(seen[f.maker.id := AfterFill(f)], tail, id);
      assert GivenAmounts(fills, id)[1..] == GivenAmounts(tail, id);
      if seen[id].status.Terminal() || seen[id].status.Pending? {
        forall i | 0 <= i < |fills| ensures fills[i].maker.id != id {
          if i > 0 { assert fills[i] == tail[i - 1]; }
        }
      }
    }
  }

  lemma TradedAppend(trades: seq<Trade>, fills: seq<Fill>, o: Order, fees: Fees, id: OrderId)
    requires !Touches(fills, o.id)
    ensures Traded(trades + TradesOf(fills, o, fees), id)
         == Traded(trades, id) + (if id == o.id then FillTotal(fills) else Given(fills, id))
  {
    hide Mul;
    var more := TradesOf(fills, o, fees);
    assert TradedAmounts(trades + more, id) == TradedAmounts(trades, id) + TradedAmounts(more, id);
    TotalAppend(TradedAmounts(trades, id), TradedAmounts(more, id));
    assert TradedAmounts(more, id) == if id == o.id then Amounts(fills) else GivenAmounts(fills, id);
  }

  /** The engine's own count of a taker's fill is the total of its fills. */
  lemma TakerFilled(e: State, o: Order, expired: bool)
    requires BookSound(e) && Incoming(o) && Absent(e, o.id)
    ensures var r := Process(e, o, expired).1;
      && 0.0 <= r.taker.filled <= r.taker.quantity && r.taker.quote == o.quote
      && (r.taker.kind == o.kind)
      && (QuantityFunded(o) ==> r.taker.filled == FillTotal(r.fills))
  {
    hide MatchQuantity, MatchMarket, Fillable, Insert, CheckStops, AfterMatch, SideSound, AddStop, Mul, Uncrossed;
    var e0 := e.(sequence := e.sequence + 1);
    var makers := e0.Makers(o.side.Opposite());
    SideOf(e0, o.side.Opposite());
    if !expired && o.kind.Limit? && !Killed(e0, o) {
      LimitConserves(e0, o);
      var m := MatchQuantity(makers, o.side, At(o.price), o.quantity);
      QuantityIsGreedy(makers, o.side, At(o.price), o.quantity);
      QuantityAtMost(makers, o.side, At(o.price), o.quantity);
      LimitTakerFacts(o, m.left);
    }
    if !expired && o.kind.Market? {
      MarketQuantityLeg(makers, o);
    }
  }

  /** A new order, or a stop that has waited without trading. */
  predicate FreshOrWaiting(seen: map<OrderId, Order>, o: Order) {
    o.id in seen ==>
      var s := seen[o.id];
      s.status.Pending? && s.filled == 0.0 && QuantityFunded(s) == QuantityFunded(o)
  }

  /** Handling one order keeps a sound world sound. */
  lemma HandleSound(w: World, o: Order, expired: bool, fees: Fees)
    requires Sound(w) && Incoming(o) && AbsentAll(w.engine, o.id) && FreshOrWaiting(w.seen, o)
    ensures Sound(Handle(w, o, expired, fees))
  {
    hide Process, BookSound, StopsSound, Registered, Record, Faithful, AbsentAll, Incoming, Traded, Given,
         QuantityFunded, Touches;
    var (e, r) := Process(w.engine, o, expired);
    assert BookSound(e) by { ProcessSound(w.engine, o, expired) by { AbsentBook(w.engine, o.id); } }
    ProcessStops(w.engine, o, expired);
    ProcessRegistered(w.engine, w.seen, o, expired);
    TakerFilled(w.engine, o, expired) by { AbsentBook(w.engine, o.id); }
    RecordKeys(w.seen, r.fills);
    HandleAccounts(w, o, expired, fees);
    FillsKnown(w.seen, r.fills);
  }

  lemma AbsentBook(e: State, id: OrderId)
    requires AbsentAll(e, id)
    ensures Absent(e, id)
  {
  }

  lemma {:induction false} FillsKnown(seen: map<OrderId, Order>, fills: seq<Fill>)
    requires Faithful(seen, fills)
    ensures forall i :: 0 <= i < |fills| ==> fills[i].maker.id in seen
    decreases |fills|
  {
    if fills == [] {
    } else {
      FillsKnown(seen[fills[0].maker.id := AfterFill(fills[0])], fills[1..]);
    }
  }

  lemma HandleAccounts(w: World, o: Order, expired: bool, fees: Fees)
    requires Sound(w) && Incoming(o) && AbsentAll(w.engine, o.id) && FreshOrWaiting(w.seen, o)
    ensures Accounted(Handle(w, o, expired, fees).seen, Handle(w, o, expired, fees).trades)
  {
    hide Process, BookSound, StopsSound, Registered, Record, Faithful, AbsentAll, Incoming, Traded, Given,
         QuantityFunded, Touches, TradesOf;
    var (e, r) := Process(w.engine, o, expired);
    ProcessRegistered(w.engine, w.seen, o, expired);
    TakerFilled(w.engine, o, expired) by { AbsentBook(w.engine, o.id); }
    RecordKeys(w.seen, r.fills);
    NotOwnMaker(w, o, r.fills);
    var w' := Handle(w, o, expired, fees);
    forall id | id in w'.seen
      ensures w'.seen[id].id == id && 0.0 <= w'.seen[id].filled <= w'.seen[id].quantity
      ensures QuantityFunded(w'.seen[id]) ==> w'.seen[id].filled == Traded(w'.trades, id)
    {
      TradedAppend(w.trades, r.fills, o, fees, id);
      if id == o.id {
        assert QuantityFunded(r.taker) == QuantityFunded(o) by { SameFunding(r.taker, o); }
        if o.id !in w.seen { NeverTraded(w, o.id); }
      } else {
        FaithfulGives(w.seen, r.fills, id);
        assert QuantityFunded(w'.seen[id]) == QuantityFunded(w.seen[id]) by { SameFunding(w'.seen[id], w.seen[id]); }
      }
    }
  }

  lemma SameFunding(a: Order, b: Order)
    requires a.kind == b.kind && a.quote == b.quote
    ensures QuantityFunded(a) == QuantityFunded(b)
  {
  }

  lemma NotOwnMaker(w: World, o: Order, fills: seq<Fill>)
    requires Accounted(w.seen, w.trades) && Faithful(w.seen, fills)
    requires o.id in w.seen ==> w.seen[o.id].status.Pending?
    ensures !Touches(fills, o.id)
  {
    FillsKnown(w.seen, fills);
    if o.id in w.seen { FaithfulGives(w.seen, fills, o.id); }
  }

  lemma NeverTraded(w: World, id: OrderId)
    requires id !in w.seen
    requires forall i :: 0 <= i < |w.trades| ==> w.trades[i].makerOrder in w.seen && w.trades[i].takerOrder in w.seen
    ensures Traded(w.trades, id) == 0.0
  {
    TotalZero(TradedAmounts(w.trades, id));
  }
}
