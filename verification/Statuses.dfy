/** What an order's status says of its fill: in one call, and in every run of one engine. */
module Statuses {
  import opened Orders
  import opened Priority
  import opened Matching
  import opened Levels
  import opened EngineModel
  import opened EngineProofs
  import opened Runs
  import opened RunTheorems
  import opened Matches

  // ----- one call -----

  /** An expired order does nothing but move the sequence number. */
  lemma ExpiredDoesNothing(e: State, o: Order)
    ensures var (e', r) := Process(e, o, true);
      && e' == e.(sequence := e.sequence + 1)
      && r.taker == o.(status := Expired) && r.fills == [] && r.remaining == 0.0
  {
  }

  /** Every processed order moves the sequence number by one. */
  lemma SequenceCounts(e: State, o: Order, expired: bool)
    ensures Process(e, o, expired).0.sequence == e.sequence + 1
  {
    hide MatchQuantity, MatchMarket, Fillable, LimitTaker, MarketTaker, Fired, Unfired;
  }

  /** A limit order fills min(quantity, what crosses) and says so: filled in full, partly, or not at all and then open
      if it may rest and cancelled if not.  It keeps its quantity unless it rests with part of it hidden.  Fill-or-kill
      that cannot be filled is cancelled untouched. */
  lemma LimitStatus(e: State, o: Order)
    requires BookSound(e) && Incoming(o) && o.kind.Limit? && Absent(e, o.id)
    ensures var r := Process(e, o, false).1; var t := r.taker;
      var reach := CrossingDepth(e.Makers(o.side.Opposite()), o.side, At(o.price));
      if o.tif.Fok? && reach < o.quantity then
        t == o.(status := Cancelled) && r.fills == [] && r.remaining == 0.0
      else
        var left := o.quantity - Min(o.quantity, reach);
        && FillTotal(r.fills) == t.filled == Min(o.quantity, reach) && r.remaining == left && reach >= 0.0
        && t.status == (if reach >= o.quantity then Filled else if reach > 0.0 then PartiallyFilled
                        else if o.tif in {Gtc, Gtd} then Open else Cancelled)
        && t == o.(filled := t.filled, status := t.status, quantity := t.quantity)
        && t.quantity == (if o.tif in {Gtc, Gtd} && o.peak > 0.0 && left > 0.0 then t.filled + Min(o.peak, left)
                          else o.quantity)
  {
    hide Process, MatchQuantity, CrossingDepth, SideSound, Uncrossed, FillTotal;
    var makers, opp := e.Makers(o.side.Opposite()), o.side.Opposite();
    var e0 := e.(sequence := e.sequence + 1);
    SideOf(e, opp);
    CrossingNonneg(makers, o.side, At(o.price)) by { Unfinished(opp, makers); }
    LimitSteps(e, o);
    if !Killed(e, o) {
      QuantityFillsExactly(makers, o.side, At(o.price), o.quantity);
      QuantityIsGreedy(makers, o.side, At(o.price), o.quantity);
      QuantityAtMost(makers, o.side, At(o.price), o.quantity);
    }
  }

  lemma Unfinished(side: Side, makers: seq<Order>)
    requires SideSound(side, makers)
    ensures forall o :: o in makers ==> o.Remaining() > 0.0
  {
  }

  /** A market order is rejected without funding and cancelled if fill-or-kill cannot be filled; otherwise it fills
      min(quantity, depth) of its quantity and says so, cancelled if that is nothing of something. */
  lemma MarketStatus(e: State, o: Order)
    requires BookSound(e) && Incoming(o) && o.kind.Market?
    ensures var r := Process(e, o, false).1; var t := r.taker; var makers := e.Makers(o.side.Opposite());
      && t == o.(filled := t.filled, status := t.status)
      && if o.quantity == 0.0 && o.quote == 0.0 then t.status.Rejected? && t.filled == 0.0 && r.fills == []
         else if o.tif.Fok? &&
                 (if o.quantity > 0.0 then Depth(makers) < o.quantity else Notional(makers) < o.quote) then
           t.status.Cancelled? && t.filled == 0.0 && r.fills == []
         else
           && t.filled == Min(o.quantity, Depth(makers))
           && t.status == (if Depth(makers) >= o.quantity then Filled
                           else if Depth(makers) > 0.0 then PartiallyFilled else Cancelled)
  {
    hide MatchMarket, Depth, Notional, FillTotal, SideSound, Uncrossed, CheckStops, CrossingDepth;
    var makers := e.Makers(o.side.Opposite());
    SideOf(e, o.side.Opposite());
    CrossingAny(makers, o.side);
    MarketFilled(makers, o);
  }

  lemma MarketFilled(makers: seq<Order>, o: Order)
    requires SideSound(o.side.Opposite(), makers) && o.quantity >= 0.0 && o.quote >= 0.0
    ensures Min(o.quantity, FillTotal(MatchMarket(makers, o).0)) == Min(o.quantity, Depth(makers))
    ensures Depth(makers) >= 0.0
  {
    hide MatchQuantity, MatchBudget, MatchMarket, Leftover, Greedy, Depth, FillTotal, FillWorth, CrossingDepth,
         SideSound;
    var side := o.side.Opposite();
    var q, b := MarketLegs(makers, o);
    Sound(side, makers);
    Sound(side, q.book);
    Sound(side, b.book) by { LeftoverSound(side, q.book, b.fills); }
    QuantityFillsExactly(makers, o.side, AnyPrice, o.quantity);
    CrossingAny(makers, o.side);
    FillAppend(q.fills, b.fills);
    FillsNonneg(q.book, b.fills);
    LeftoverDepth(side, makers, q.fills);
    LeftoverDepth(side, q.book, b.fills);
    NoneLeft(side, makers);
    NoneLeft(side, b.book);
  }

  lemma Sound(side: Side, makers: seq<Order>)
    requires SideSound(side, makers)
    ensures MakersOk(side, makers) && forall o :: o in makers ==> o.price > 0.0
  {
  }

  // ----- every run -----

  /** An order's status tells what has become of it. */
  predicate Told(o: Order) {
    match o.status
    case Open => o.filled == 0.0 < o.quantity
    case PartiallyFilled => 0.0 < o.filled < o.quantity
    case Filled => o.filled >= o.quantity
    case Cancelled => o.quantity > 0.0 ==> o.filled < o.quantity
    case Pending => o.filled == 0.0 < o.quantity
    case Rejected => o.filled == 0.0 == o.quantity
    case Expired => o.filled == 0.0
    case Triggered => false
  }

  ghost predicate AllTold(seen: map<OrderId, Order>) {
    forall id :: id in seen ==> Told(seen[id])
  }

  lemma {:induction false} RecordTold(seen: map<OrderId, Order>, fills: seq<Fill>)
    requires AllTold(seen) && Faithful(seen, fills)
    ensures AllTold(Record(seen, fills))
    decreases |fills|
  {
    if fills == [] {
    } else {
      RecordTold(seen[fills[0].maker.id := AfterFill(fills[0])], fills[1..]);
    }
  }

  lemma TakerTold(e: State, o: Order, expired: bool)
    requires BookSound(e) && Incoming(o) && Absent(e, o.id)
    ensures Told(Process(e, o, expired).1.taker)
  {
    hide CrossingDepth, Depth, BookSound, Absent, Fillable, FillTotal, ProcessLimit, ProcessMarket, AddStop;
    if !expired {
      match o.kind
      case Limit => LimitStatus(e, o);
      case Market => MarketStatus(e, o);
      case _ =>
    }
  }

  lemma HandleTold(w: World, o: Order, expired: bool, fees: Fees)
    requires Runs.Sound(w) && Incoming(o) && AbsentAll(w.engine, o.id) && AllTold(w.seen)
    ensures AllTold(Handle(w, o, expired, fees).seen)
  {
    hide Process, BookSound, StopsSound, Registered, Record, Faithful, AbsentAll, Incoming, Accounted, Told;
    AbsentBook(w.engine, o.id);
    ProcessRegistered(w.engine, w.seen, o, expired);
    RecordTold(w.seen, Process(w.engine, o, expired).1.fills);
    TakerTold(w.engine, o, expired);
  }

  lemma RestingLive(w: World, id: OrderId)
    requires Runs.Sound(w) && id in w.seen && !Absent(w.engine, id)
    ensures w.seen[id].status.Live()
  {
    hide StopsSound, Accounted, BookSound, Registered, Absent;
    if !w.seen[id].status.Live() { LiveNotPending(w.engine, w.seen, id); }
  }

  lemma StepTold(w: World, ev: Event, fees: Fees)
    requires Runs.Sound(w) && Admits(w, ev) && AllTold(w.seen)
    ensures AllTold(Step(w, ev, fees).seen)
  {
    hide Runs.Sound, Handle, Stops, Absent;
    match ev
    case Submit(o, expired) =>
      SubmitReady(w, o);
      HandleTold(w, o, expired, fees);
    case Deliver(i) =>
      if i < |w.engine.pending| {
        TakenReady(w, i);
        HandleTold(w.(engine := TakePending(w.engine, i)), Converted(w.engine.pending[i]), false, fees);
      }
    case CancelOrder(id) =>
      if id in w.seen && !Absent(w.engine, id) { RestingLive(w, id); }
  }

  lemma {:induction false} RunTold(w: World, evs: seq<Event>, fees: Fees)
    requires Runs.Sound(w) && AllTold(w.seen) && Admissible(w, evs, fees)
    ensures AllTold(Run(w, evs, fees).seen)
    decreases |evs|
  {
    hide Runs.Sound, Step, AllTold, Admits;
    if evs == [] {
    } else {
      StepSound(w, evs[0], fees);
      StepTold(w, evs[0], fees);
      RunTold(Step(w, evs[0], fees), evs[1..], fees);
    }
  }

  /** In every run of one engine: an open order is untouched, a partly filled one is just that, an order of some
      quantity is filled exactly when nothing of it is left, and on the book an order is open exactly while it is
      untouched and partly filled exactly from its first fill on. */
  lemma StatusesTell(evs: seq<Event>, fees: Fees, id: OrderId)
    requires Admissible(Start, evs, fees) && id in Run(Start, evs, fees).seen
    ensures var w := Run(Start, evs, fees); var o := w.seen[id];
      && (o.status.Open? ==> o.filled == 0.0 < o.quantity)
      && (o.status.PartiallyFilled? ==> 0.0 < o.filled < o.quantity)
      && (o.quantity > 0.0 ==> (o.status.Filled? <==> o.filled == o.quantity))
      && (!Absent(w.engine, id) ==>
            (o.status.Open? <==> o.filled == 0.0) && (o.status.PartiallyFilled? <==> o.filled > 0.0))
  {
    hide Run, Admissible, Absent, BookSound, StopsSound, Registered;
    StartSound();
    RunSound(Start, evs, fees);
    RunTold(Start, evs, fees);
    var w := Run(Start, evs, fees);
    if !Absent(w.engine, id) { RestingLive(w, id); }
    assert Told(w.seen[id]);
  }
}
