/** What becomes of stops: a triggered stop-limit order goes on as a limit order at its own limit, a triggered
    stop-market order as a market order. */
module StopFates {
  import opened Orders
  import opened Sums
  import opened Priority
  import opened Matching
  import opened EngineModel
  import opened EngineProofs
  import opened Runs
  import opened RunTheorems
  import opened Matches
  import opened Statuses

  /** An order's later value: its terms are as they were, but for the kind of a stop that has been delivered and for the
      size an iceberg rests with. */
  predicate Becomes(a: Order, b: Order) {
    && b == a.(kind := b.kind, quantity := b.quantity, filled := b.filled, status := b.status)
    && (b.kind == a.kind || (a.kind.StopMarket? && b.kind.Market?) || (a.kind.StopLimit? && b.kind.Limit?))
  }

  ghost predicate TermsKept(seen: map<OrderId, Order>, seen': map<OrderId, Order>) {
    forall id :: id in seen ==> id in seen' && Becomes(seen[id], seen'[id])
  }

  /** Not beyond an order's limit. */
  predicate Within(o: Order, price: real) {
    if o.side.Buy? then price <= o.price else price >= o.price
  }

  /** Every trade so far was taken by a plain order, within its limit if it had one, from a limit order at its price. */
  ghost predicate Honoured(w: World) {
    forall i :: 0 <= i < |w.trades| ==> TradeHonoured(w.seen, w.trades[i])
  }

  ghost predicate TradeHonoured(seen: map<OrderId, Order>, t: Trade) {
    && t.takerOrder in seen && t.makerOrder in seen
    && var taker, maker := seen[t.takerOrder], seen[t.makerOrder];
    && !IsStop(taker) && (taker.kind.Limit? ==> Within(taker, t.price))
    && maker.kind.Limit? && maker.price == t.price
  }

  lemma StaysHonoured(seen: map<OrderId, Order>, seen': map<OrderId, Order>, t: Trade)
    requires TermsKept(seen, seen') && TradeHonoured(seen, t)
    ensures TradeHonoured(seen', t)
  {
    assert Becomes(seen[t.takerOrder], seen'[t.takerOrder]) && Becomes(seen[t.makerOrder], seen'[t.makerOrder]);
  }

  lemma {:induction false} RecordBecomes(seen: map<OrderId, Order>, fills: seq<Fill>)
    requires Faithful(seen, fills)
    ensures TermsKept(seen, Record(seen, fills))
    ensures forall i :: 0 <= i < |fills| ==>
      var m := fills[i].maker; m.id in Record(seen, fills) && Becomes(m, Record(seen, fills)[m.id]) && m.kind.Limit?
    decreases |fills|
  {
    if fills == [] {
    } else {
      var f, tail := fills[0], fills[1..];
      var seen1 := seen[f.maker.id := AfterFill(f)];
      RecordBecomes(seen1, tail);
      assert Becomes(f.maker, seen1[f.maker.id]);
      forall i | 0 <= i < |fills|
        ensures var m := fills[i].maker;
          m.id in Record(seen, fills) && Becomes(m, Record(seen, fills)[m.id]) && m.kind.Limit?
      {
        if i > 0 { assert fills[i] == tail[i - 1]; }
      }
    }
  }

  /** Processing an order leaves its terms alone, keeps its fills within its limit, and fills no stop. */
  lemma TakerBecomes(e: State, o: Order, expired: bool)
    requires BookSound(e) && Incoming(o) && Absent(e, o.id)
    ensures var r := Process(e, o, expired).1;
      && Becomes(o, r.taker) && r.taker.kind == o.kind
      && (r.fills != [] ==> !IsStop(o))
      && (o.kind.Limit? ==> forall f :: f in r.fills ==> Within(o, f.maker.price))
  {
    hide CrossingDepth, Depth, BookSound, Absent, Fillable, FillTotal, ProcessLimit, ProcessMarket, AddStop, Greedy,
         Leftover, LimitShape;
    if !expired {
      match o.kind
      case Limit =>
        LimitStatus(e, o);
        LimitGreedy(e, o);
      case Market => MarketStatus(e, o);
      case _ =>
    }
  }

  lemma HandleHonoured(w: World, o: Order, expired: bool, fees: Fees)
    requires Runs.Sound(w) && Incoming(o) && AbsentAll(w.engine, o.id) && FreshOrWaiting(w.seen, o) && Honoured(w)
    requires o.id in w.seen ==> Becomes(w.seen[o.id], o)
    ensures var w' := Handle(w, o, expired, fees);
      TermsKept(w.seen, w'.seen) && o.id in w'.seen && Becomes(o, w'.seen[o.id]) && Honoured(w')
  {
    hide Process, BookSound, StopsSound, Registered, Record, Faithful, AbsentAll, Incoming, Accounted, Mul, IsStop,
         FreshOrWaiting, TradeHonoured;
    var r := Process(w.engine, o, expired).1;
    var w', more := Handle(w, o, expired, fees), TradesOf(r.fills, o, fees);
    AbsentBook(w.engine, o.id);
    ProcessRegistered(w.engine, w.seen, o, expired);
    RecordBecomes(w.seen, r.fills);
    TakerBecomes(w.engine, o, expired);
    NotOwnMaker(w, o, r.fills) by { Waits(w.seen, o); }
    forall i | 0 <= i < |w'.trades| ensures TradeHonoured(w'.seen, w'.trades[i]) {
      if i < |w.trades| {
        StaysHonoured(w.seen, w'.seen, w.trades[i]);
      } else {
        NewHonoured(w'.seen, r, o, r.fills[i - |w.trades|], fees);
      }
    }
  }

  lemma Waits(seen: map<OrderId, Order>, o: Order)
    requires FreshOrWaiting(seen, o)
    ensures o.id in seen ==> seen[o.id].status.Pending?
  {
  }

  lemma NewHonoured(seen: map<OrderId, Order>, r: EngineModel.Result, o: Order, f: Fill, fees: Fees)
    requires o.id in seen && seen[o.id] == r.taker && Becomes(o, r.taker) && r.taker.kind == o.kind && !IsStop(o)
    requires f.maker.id in seen && Becomes(f.maker, seen[f.maker.id]) && f.maker.kind.Limit?
    requires o.kind.Limit? ==> Within(o, f.maker.price)
    ensures TradeHonoured(seen, TradeOf(f, o, fees))
  {
    hide Mul;
  }

  lemma StepHonoured(w: World, ev: Event, fees: Fees)
    requires Runs.Sound(w) && Admits(w, ev) && Honoured(w)
    ensures TermsKept(w.seen, Step(w, ev, fees).seen) && Honoured(Step(w, ev, fees))
    ensures ev.Submit? ==>
      ev.order.id in Step(w, ev, fees).seen && Becomes(ev.order, Step(w, ev, fees).seen[ev.order.id])
  {
    hide Runs.Sound, Handle, Stops, Absent, Incoming, AbsentAll, TradeHonoured;
    match ev
    case Submit(o, expired) =>
      SubmitReady(w, o);
      HandleHonoured(w, o, expired, fees);
    case Deliver(i) =>
      if i < |w.engine.pending| {
        TakenReady(w, i);
        HandleHonoured(w.(engine := TakePending(w.engine, i)), Converted(w.engine.pending[i]), false, fees);
      }
    case CancelOrder(id) =>
      forall j | 0 <= j < |w.trades| ensures TradeHonoured(Step(w, ev, fees).seen, w.trades[j]) {
        StaysHonoured(w.seen, Step(w, ev, fees).seen, w.trades[j]);
      }
  }

  lemma {:induction false} RunHonoured(w: World, evs: seq<Event>, fees: Fees)
    requires Runs.Sound(w) && Admissible(w, evs, fees) && Honoured(w)
    ensures TermsKept(w.seen, Run(w, evs, fees).seen) && Honoured(Run(w, evs, fees))
    decreases |evs|
  {
    hide Runs.Sound, Step, Admits, TradeHonoured;
    if evs == [] {
    } else {
      var w1 := Step(w, evs[0], fees);
      StepSound(w, evs[0], fees);
      StepHonoured(w, evs[0], fees);
      RunHonoured(w1, evs[1..], fees);
      TermsChain(w.seen, w1.seen, Run(w, evs, fees).seen);
    }
  }

  lemma TermsChain(a: map<OrderId, Order>, b: map<OrderId, Order>, c: map<OrderId, Order>)
    requires TermsKept(a, b) && TermsKept(b, c)
    ensures TermsKept(a, c)
  {
    forall id | id in a ensures id in c && Becomes(a[id], c[id]) {
      assert Becomes(a[id], b[id]) && Becomes(b[id], c[id]);
    }
  }

  lemma {:induction false} RunSplit(w: World, a: seq<Event>, b: seq<Event>, fees: Fees)
    ensures Run(w, a + b, fees) == Run(Run(w, a, fees), b, fees)
    ensures Admissible(w, a + b, fees) <==> Admissible(w, a, fees) && Admissible(Run(w, a, fees), b, fees)
    decreases |a|
  {
    hide Step, Admits;
    if a == [] {
      assert a + b == b;
    } else {
      assert (a + b)[1..] == a[1..] + b;
      RunSplit(Step(w, a[0], fees), a[1..], b, fees);
    }
  }

  /** An order submitted in a run, seen at its end. */
  lemma SubmittedBecomes(before: seq<Event>, o: Order, expired: bool, after: seq<Event>, fees: Fees)
    requires Admissible(Start, before + ([Submit(o, expired)] + after), fees)
    ensures var w := Run(Start, before + ([Submit(o, expired)] + after), fees);
      Runs.Sound(w) && Honoured(w) && o.id in w.seen && Becomes(o, w.seen[o.id])
  {
    hide Run, Admissible, Runs.Sound, Honoured, TermsKept, Step, Becomes;
    var ev, rest := Submit(o, expired), [Submit(o, expired)] + after;
    var w0 := Run(Start, before, fees);
    RunSplit(Start, before, rest, fees);
    RunSplit(w0, [ev], after, fees);
    StartHonoured();
    RunSound(Start, before, fees);
    RunHonoured(Start, before, fees);
    OneEvent(w0, ev, fees);
    StepSound(w0, ev, fees);
    StepHonoured(w0, ev, fees);
    var w1 := Step(w0, ev, fees);
    RunSound(w1, after, fees);
    RunHonoured(w1, after, fees);
    KeptBecomes(o, w1.seen, Run(w1, after, fees).seen);
  }

  lemma StartHonoured()
    ensures Runs.Sound(Start) && Honoured(Start)
  {
    StartSound();
  }

  lemma OneEvent(w: World, ev: Event, fees: Fees)
    ensures Run(w, [ev], fees) == Step(w, ev, fees) && (Admissible(w, [ev], fees) <==> Admits(w, ev))
  {
    hide Step, Admits;
    assert [ev][1..] == [];
  }

  lemma KeptBecomes(o: Order, a: map<OrderId, Order>, b: map<OrderId, Order>)
    requires o.id in a && Becomes(o, a[o.id]) && TermsKept(a, b)
    ensures o.id in b && Becomes(o, b[o.id])
  {
    assert Becomes(a[o.id], b[o.id]);
  }

  /** In every run a stop-limit order stays one until it is delivered and is a limit order from then on, and no trade it
      takes part in, whenever it is triggered and delivered, is worse than its own limit. */
  lemma StopLimitHonoured(before: seq<Event>, o: Order, after: seq<Event>, fees: Fees, i: nat)
    requires o.kind.StopLimit? && Admissible(Start, before + ([Submit(o, false)] + after), fees)
    ensures var w := Run(Start, before + ([Submit(o, false)] + after), fees);
      && o.id in w.seen && w.seen[o.id].kind in {StopLimit, Limit} && w.seen[o.id].price == o.price
      && (i < |w.trades| && w.trades[i].takerOrder == o.id ==>
            if o.side.Buy? then w.trades[i].price <= o.price else w.trades[i].price >= o.price)
      && (i < |w.trades| && w.trades[i].makerOrder == o.id ==> w.trades[i].price == o.price)
  {
    hide Run, Admissible, Runs.Sound;
    SubmittedBecomes(before, o, false, after, fees);
    var w := Run(Start, before + ([Submit(o, false)] + after), fees);
    if i < |w.trades| { assert TradeHonoured(w.seen, w.trades[i]); }
  }

  /** In every run a stop-market order never rests on the book. */
  lemma StopMarketNeverRests(before: seq<Event>, o: Order, after: seq<Event>, fees: Fees)
    requires o.kind.StopMarket? && Admissible(Start, before + ([Submit(o, false)] + after), fees)
    ensures var w := Run(Start, before + ([Submit(o, false)] + after), fees);
      Absent(w.engine, o.id) && o.id in w.seen && w.seen[o.id].kind in {StopMarket, Market}
  {
    hide Run, Admissible, Honoured, Uncrossed, MakersOk, UniqueIds, StopsSound, Accounted, Stops;
    SubmittedBecomes(before, o, false, after, fees);
  }

  // ----- one delivery -----

  /** A plain order rests, as its result says, or is nowhere on its side. */
  lemma RestsOrNot(e: State, o: Order)
    requires BookSound(e) && Incoming(o) && o.kind.Limit? && Absent(e, o.id)
    ensures var (e', r) := Process(e, o, false);
      if o.tif in {Gtc, Gtd} && r.remaining > 0.0 then r.taker in e'.Makers(o.side) else Absent(e', o.id)
  {
    hide MatchQuantity, Insert, SideSound, Uncrossed, Fillable, LimitTaker, CheckStops, Greedy, Leftover;
    var e0 := e.(sequence := e.sequence + 1);
    var m := MatchQuantity(e.Makers(o.side.Opposite()), o.side, At(o.price), o.quantity);
    SideOf(e0, o.side);
    SideOf(e0, o.side.Opposite());
    QuantityIsGreedy(e.Makers(o.side.Opposite()), o.side, At(o.price), o.quantity);
    InsertMembers(ByPrice, o.side, e.Makers(o.side), LimitTaker(o, m.left));
    assert Absent(e0, o.id);
    AbsentAfter(e0, o.side, m.fills, o.id);
    forall x: State ensures CheckStops(x).bids == x.bids && CheckStops(x).asks == x.asks { CheckStopsKeepsBook(x); }
  }

  lemma MarketAway(e: State, o: Order)
    requires BookSound(e) && o.kind.Market? && Absent(e, o.id)
    ensures Absent(Process(e, o, false).0, o.id)
  {
    hide MatchMarket, SideSound, Uncrossed, Fillable, CheckStops, Greedy, Leftover, MatchQuantity, MatchBudget,
         FillWorth;
    var e0, opp := e.(sequence := e.sequence + 1), o.side.Opposite();
    SideOf(e0, opp);
    var q, b := MarketLegs(e0.Makers(opp), o);
    assert Absent(e0, o.id);
    AbsentAfter(e0, o.side, q.fills, o.id);
    var e1 := e0.WithMakers(opp, q.book);
    MatchSound(e0, o.side, q.fills);
    AbsentAfter(e1, o.side, b.fills, o.id);
    forall x: State ensures CheckStops(x).bids == x.bids && CheckStops(x).asks == x.asks { CheckStopsKeepsBook(x); }
  }

  /** Delivered, a stop-limit order fills min(quantity, what crosses its limit) and what is left of it, if it may rest,
      is on its side at its limit, as much of it as it shows; fill-or-kill goes through only in full. */
  lemma StopLimitDelivered(w: World, i: nat, fees: Fees)
    requires Runs.Sound(w) && i < |w.engine.pending| && w.engine.pending[i].kind.StopLimit?
    ensures var w', o := Step(w, Deliver(i), fees), w.engine.pending[i];
      var reach := CrossingDepth(w.engine.Makers(o.side.Opposite()), o.side, At(o.price));
      var left := o.quantity - Min(o.quantity, reach);
      && o.id in w'.seen && var t := w'.seen[o.id];
      && t.kind.Limit? && t.price == o.price && t.side == o.side
      && Traded(w'.trades, o.id) == t.filled == (if o.tif.Fok? && left > 0.0 then 0.0 else o.quantity - left)
      && if o.tif in {Gtc, Gtd} && left > 0.0 then
           t in w'.engine.Makers(o.side) && t.Remaining() == (if o.peak > 0.0 then Min(o.peak, left) else left)
         else Absent(w'.engine, o.id)
  {
    hide Runs.Sound, Process, CrossingDepth, Stops, Registered, BookSound, AbsentAll, Incoming, Absent, FillTotal,
         Record, Traded;
    var o, w1 := w.engine.pending[i], w.(engine := TakePending(w.engine, i));
    TakenReady(w, i);
    assert BookSound(w1.engine) by { SoundBook(w1); }
    AbsentBook(w1.engine, o.id);
    LimitStatus(w1.engine, Converted(o));
    RestsOrNot(w1.engine, Converted(o));
    HandleSound(w1, Converted(o), false, fees);
    TradedIs(Handle(w1, Converted(o), false, fees), o.id);
  }

  lemma SoundBook(w: World)
    requires Runs.Sound(w)
    ensures BookSound(w.engine)
  {
    hide BookSound, StopsSound, Registered, Accounted;
  }

  lemma TradedIs(w: World, id: OrderId)
    requires Runs.Sound(w) && id in w.seen && QuantityFunded(w.seen[id])
    ensures Traded(w.trades, id) == w.seen[id].filled
  {
    hide BookSound, StopsSound, Registered, Traded, QuantityFunded;
  }

  lemma PendingSized(w: World, i: nat)
    requires Runs.Sound(w) && i < |w.engine.pending|
    ensures w.engine.pending[i].quantity > 0.0
  {
    hide BookSound, Registered, Accounted, Ordered;
    assert w.engine.pending[i] in Stops(w.engine);
  }

  /** Delivered, a stop-market order fills min(quantity, depth) and is on no book. */
  lemma StopMarketDelivered(w: World, i: nat, fees: Fees)
    requires Runs.Sound(w) && i < |w.engine.pending| && w.engine.pending[i].kind.StopMarket?
    ensures var w', o := Step(w, Deliver(i), fees), w.engine.pending[i];
      var depth := Depth(w.engine.Makers(o.side.Opposite()));
      && o.id in w'.seen && w'.seen[o.id].kind.Market? && Absent(w'.engine, o.id)
      && w'.seen[o.id].filled == (if o.tif.Fok? && depth < o.quantity then 0.0 else Min(o.quantity, depth))
      && (o.quote == 0.0 ==> Traded(w'.trades, o.id) == w'.seen[o.id].filled)
  {
    hide Runs.Sound, Process, Depth, CrossingDepth, Stops, Registered, BookSound, AbsentAll, Absent, FillTotal, Record,
         Traded;
    var o, w1 := w.engine.pending[i], w.(engine := TakePending(w.engine, i));
    TakenReady(w, i);
    PendingSized(w, i);
    assert BookSound(w1.engine) by { SoundBook(w1); }
    AbsentBook(w1.engine, o.id);
    MarketStatus(w1.engine, Converted(o));
    CrossingAny(w1.engine.Makers(o.side.Opposite()), o.side);
    MarketAway(w1.engine, Converted(o));
    HandleSound(w1, Converted(o), false, fees);
    if o.quote == 0.0 { TradedIs(Handle(w1, Converted(o), false, fees), o.id); }
  }
}
