/** What processing one limit or market order leaves of an engine without stops, in terms of its fills. */
module Matches {
  import opened Orders
  import opened Sums
  import opened Priority
  import opened Matching
  import opened EngineModel
  import opened EngineProofs
  import opened ExchangeModel
  import opened Agreement

  /** The order's fills are two greedy matches of the other side, `a` then `b`; its own side keeps every order and
      gains at most the taker. */
  ghost predicate Matched(e: State, e': State, o: Order, r: EngineModel.Result, a: seq<Fill>, b: seq<Fill>) {
    var opp := o.side.Opposite();
    && BookSound(e') && NoStopsHeld(e')
    && r.fills == a + b && Legs(opp, e.Makers(opp), a, b) && e'.Makers(opp) == AfterLegs(opp, e.Makers(opp), a, b)
    && (forall x :: x in e'.Makers(o.side) ==> x in e.Makers(o.side) || x == r.taker)
    && (forall x :: x in e.Makers(o.side) ==> x in e'.Makers(o.side))
    && r.taker.id == o.id && r.taker.user == o.user && r.taker.side == o.side && r.taker.kind == o.kind
    && r.taker.price == o.price
    && (o.kind.Limit? ==> forall f :: f in r.fills ==> Crosses(o.side, At(o.price), f.maker.price))
  }

  /** One greedy match is two, the second of them empty. */
  lemma OneLegLegs(side: Side, makers: seq<Order>, fills: seq<Fill>)
    requires Greedy(makers, fills)
    ensures Legs(side, makers, fills, []) && AfterLegs(side, makers, fills, []) == Leftover(side, makers, fills)
    ensures fills + [] == fills
  {
    hide Leftover;
    NoFills(Leftover(side, makers, fills), side);
  }

  /** A limit order's stored row accounts for all it asked for: filled, still open, or kept back. */
  ghost predicate LimitShape(o: Order, r: EngineModel.Result) {
    var t, rest := r.taker, o.quantity - FillTotal(r.fills);
    && 0.0 <= t.filled <= t.quantity && KeptBack(o, r) >= 0.0 && rest >= 0.0
    && (t.status.Terminal() || t.status.Live())
    && (if t.status.Terminal() then 0.0 else t.Remaining()) + KeptBack(o, r) == rest
  }

  lemma LimitTakerShape(o: Order, left: real, fills: seq<Fill>)
    requires Incoming(o) && o.kind.Limit? && 0.0 <= left <= o.quantity && left == o.quantity - FillTotal(fills)
    ensures LimitShape(o, EngineModel.Result(LimitTaker(o, left), fills, left))
    ensures LimitTaker(o, left).user == o.user && LimitTaker(o, left).id == o.id && LimitTaker(o, left).side == o.side
    ensures LimitTaker(o, left).kind == o.kind && LimitTaker(o, left).price == o.price
  {
    hide FillTotal;
  }

  lemma NoStopsChecked(e: State)
    requires NoStopsHeld(e)
    ensures CheckStops(e) == e
  {
    assert [] + ([] + []) == e.pending;
  }

  /** A limit order's own side keeps every order it had, and gains at most the taker. */
  lemma LimitOwnSide(e: State, o: Order)
    requires BookSound(e) && NoStopsHeld(e) && o.kind.Limit?
    ensures var (e', r) := Process(e, o, false);
      && NoStopsHeld(e')
      && (forall x :: x in e'.Makers(o.side) ==> x in e.Makers(o.side) || x == r.taker)
      && (forall x :: x in e.Makers(o.side) ==> x in e'.Makers(o.side))
  {
    hide MatchQuantity, Insert, Uncrossed, Fillable, LimitTaker, CheckStops;
    var m := MatchQuantity(e.Makers(o.side.Opposite()), o.side, At(o.price), o.quantity);
    SideOf(e, o.side);
    InsertMembers(ByPrice, o.side, e.Makers(o.side), LimitTaker(o, m.left));
    forall x | NoStopsHeld(x) ensures CheckStops(x) == x { NoStopsChecked(x); }
  }

  /** A limit order, killed or matched. */
  lemma LimitSteps(e: State, o: Order)
    requires o.kind.Limit?
    ensures var (e', r) := Process(e, o, false); var opp := o.side.Opposite();
      if o.tif == Fok && !Fillable(e.Makers(opp), o) then
        e'.Makers(opp) == e.Makers(opp) && r == EngineModel.Result(o.(status := Cancelled), [], 0.0)
      else
        var m := MatchQuantity(e.Makers(opp), o.side, At(o.price), o.quantity);
        e'.Makers(opp) == m.book && r == EngineModel.Result(LimitTaker(o, m.left), m.fills, m.left)
  {
    hide MatchQuantity, Insert, Fillable, LimitTaker, CheckStops;
    forall x: State ensures CheckStops(x).bids == x.bids && CheckStops(x).asks == x.asks { CheckStopsKeepsBook(x); }
  }

  /** A limit order's fills are a greedy match of the other side within its limit. */
  lemma LimitGreedy(e: State, o: Order)
    requires BookSound(e) && Incoming(o) && o.kind.Limit?
    ensures var (e', r) := Process(e, o, false); var opp := o.side.Opposite();
      && Greedy(e.Makers(opp), r.fills) && e'.Makers(opp) == Leftover(opp, e.Makers(opp), r.fills)
      && (forall f :: f in r.fills ==> Crosses(o.side, At(o.price), f.maker.price))
      && LimitShape(o, r)
      && r.taker.id == o.id && r.taker.user == o.user && r.taker.side == o.side && r.taker.kind == o.kind
      && r.taker.price == o.price
  {
    hide Process, MatchQuantity, Leftover, Greedy, SideSound, Uncrossed, Fillable, LimitTaker, FillTotal, LimitShape;
    var makers := e.Makers(o.side.Opposite());
    SideOf(e, o.side.Opposite());
    LimitSteps(e, o);
    if o.tif == Fok && !Fillable(makers, o) {
      NoFills(makers, o.side.Opposite());
      NoFillTotals();
      KilledShape(o);
    } else {
      var m := MatchQuantity(makers, o.side, At(o.price), o.quantity);
      QuantityIsGreedy(makers, o.side, At(o.price), o.quantity);
      QuantityCrosses(makers, o.side, At(o.price), o.quantity);
      QuantityAtMost(makers, o.side, At(o.price), o.quantity);
      LimitTakerShape(o, m.left, m.fills);
    }
  }

  lemma KilledShape(o: Order)
    requires Incoming(o) && o.kind.Limit?
    ensures LimitShape(o, EngineModel.Result(o.(status := Cancelled), [], 0.0))
  {
    hide FillTotal;
    NoFillTotals();
  }

  lemma LimitMatches(e: State, o: Order)
    requires BookSound(e) && NoStopsHeld(e) && Incoming(o) && o.kind.Limit? && Absent(e, o.id)
    ensures var (e', r) := Process(e, o, false); Matched(e, e', o, r, r.fills, []) && LimitShape(o, r)
  {
    hide Process, Leftover, Greedy, Incoming, Absent, LimitShape, NoStopsHeld, BookSound, Legs, AfterLegs;
    ProcessSound(e, o, false);
    LimitGreedy(e, o);
    LimitOwnSide(e, o);
    var (e', r) := Process(e, o, false);
    OneLegLegs(o.side.Opposite(), e.Makers(o.side.Opposite()), r.fills);
  }

  /** Whether a market order is a single match of the side. */
  ghost predicate Single(makers: seq<Order>, o: Order) {
    o.quantity == 0.0 || !SpendsOn(makers, o)
  }

  /** A market order matches its quantity and then its budget, and only one of them unless it spends on. */
  lemma MarketLegsOf(makers: seq<Order>, o: Order) returns (a: seq<Fill>, b: seq<Fill>)
    requires SideSound(o.side.Opposite(), makers) && o.quantity >= 0.0 && o.quote >= 0.0
    ensures var (fills, book) := MatchMarket(makers, o);
      && fills == a + b && Legs(o.side.Opposite(), makers, a, b) && book == AfterLegs(o.side.Opposite(), makers, a, b)
      && (Single(makers, o) ==> b == [])
  {
    hide MatchQuantity, Leftover, Greedy, Mul, Div, MatchBudget, MatchMarket, SpendsOn;
    var q, z := MarketLegs(makers, o);
    a, b := q.fills, z.fills;
    if o.quantity == 0.0 {
      NoQuantity(makers, o.side);
      NoFills(makers, o.side.Opposite());
      assert [] + z.fills == z.fills;
      a, b := z.fills, [];
      OneLegLegs(o.side.Opposite(), makers, a);
    } else if !SpendsOn(makers, o) {
      FillsBeyondQuantity(makers, o);
      b := [];
      OneLegLegs(o.side.Opposite(), makers, a);
    }
  }

  lemma MakersPriced(side: Side, makers: seq<Order>)
    requires SideSound(side, makers)
    ensures forall o :: o in makers ==> o.price > 0.0
  {
  }

  lemma MarketMatches(e: State, o: Order) returns (a: seq<Fill>, b: seq<Fill>)
    requires BookSound(e) && NoStopsHeld(e) && Incoming(o) && o.kind.Market? && o.tif != Fok && Absent(e, o.id)
    requires o.quantity > 0.0 || o.quote > 0.0
    ensures var (e', r) := Process(e, o, false); var makers := e.Makers(o.side.Opposite());
      && Matched(e, e', o, r, a, b)
      && r.taker == MarketTaker(o, FillTotal(r.fills)) && 0.0 <= FillTotal(r.fills)
      && (o.quantity > 0.0 ==> (FillTotal(r.fills) <= o.quantity <==> !SpendsOn(makers, o)))
      && (o.quantity == 0.0 ==> 0.0 <= FillWorth(r.fills) <= o.quote)
      && (Single(makers, o) ==> b == [])
  {
    hide MatchMarket, Leftover, Greedy, SideSound, Uncrossed, Fillable, CheckStops, FillTotal, FillWorth, Depth,
         Notional,
         Absent, Legs, AfterLegs, SpendsOn;
    var e0 := e.(sequence := e.sequence + 1);
    var makers := e.Makers(o.side.Opposite());
    ProcessSound(e, o, false);
    SideOf(e0, o.side.Opposite());
    a, b := MarketLegsOf(makers, o);
    MarketQuantityLeg(makers, o);
    if o.quantity > 0.0 { FillsBeyondQuantity(makers, o); }
    if o.quantity == 0.0 { MarketWorth(makers, o); }
    forall x | NoStopsHeld(x) ensures CheckStops(x) == x { NoStopsChecked(x); }
  }

  lemma MarketWorth(makers: seq<Order>, o: Order)
    requires SideSound(o.side.Opposite(), makers) && o.quantity == 0.0 && o.quote >= 0.0
    ensures 0.0 <= FillWorth(MatchMarket(makers, o).0)
  {
    hide FillWorth, FillTotal, MatchMarket, Notional, Leftover, Greedy;
    MarketQuantityLeg(makers, o);
    NotionalNonneg(makers) by { MakersPriced(o.side.Opposite(), makers); }
  }
}
