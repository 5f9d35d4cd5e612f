/** What one processed order keeps and achieves. */
module EngineProofs {
  import opened Orders
  import opened Sums
  import opened Priority
  import opened Matching
  import opened EngineModel

  /** The part of an engine order processing can read or change besides the stops. */
  ghost predicate Absent(e: State, id: OrderId) {
    IdFree(e.bids, id) && IdFree(e.asks, id)
  }

  lemma SideOf(e: State, side: Side)
    requires BookSound(e)
    ensures SideSound(side, e.Makers(side)) && MakersOk(side, e.Makers(side))
  {
  }

  /** Greedy fills against one side keep the book sound. */
  lemma MatchSound(e: State, taker: Side, fills: seq<Fill>)
    requires BookSound(e) && Greedy(e.Makers(taker.Opposite()), fills)
    ensures BookSound(e.WithMakers(taker.Opposite(), Leftover(taker.Opposite(), e.Makers(taker.Opposite()), fills)))
  {
    hide Leftover, Greedy;
    var side := taker.Opposite();
    var left := Leftover(side, e.Makers(side), fills);
    LeftoverSound(side, e.Makers(side), fills);
  }

  /** An order that crosses nothing may rest. */
  lemma RestSound(e: State, o: Order)
    requires BookSound(e) && Absent(e, o.id)
    requires Resting(o.side, o) && o.price > 0.0 && o.filled >= 0.0 && o.Remaining() > 0.0
    requires forall m :: m in e.Makers(o.side.Opposite()) ==> !Crosses(o.side, At(o.price), m.price)
    ensures BookSound(e.WithMakers(o.side, Insert(ByPrice, o.side, e.Makers(o.side), o)))
  {
    hide Insert, SideSound;
    InsertSound(o.side, e.Makers(o.side), o);
  }

  lemma CheckStopsKeepsBook(e: State)
    ensures CheckStops(e).bids == e.bids && CheckStops(e).asks == e.asks
    ensures CheckStops(e).lastPrice == e.lastPrice && CheckStops(e).sequence == e.sequence
  {
  }

  /** What is left of the makers a limit order met does not cross it. */
  lemma LimitStops(makers: seq<Order>, o: Order)
    requires MakersOk(o.side.Opposite(), makers)
    requires MatchQuantity(makers, o.side, At(o.price), o.quantity).left > 0.0
    ensures forall m :: m in MatchQuantity(makers, o.side, At(o.price), o.quantity).book ==>
      !Crosses(o.side, At(o.price), m.price)
  {
    hide MatchQuantity;
    QuantityCrosses(makers, o.side, At(o.price), o.quantity);
    var r := MatchQuantity(makers, o.side, At(o.price), o.quantity);
    NothingCrosses(r.book, o.side, At(o.price));
  }

  lemma LimitTakerFacts(o: Order, left: real)
    requires Incoming(o) && o.kind.Limit? && 0.0 <= left <= o.quantity
    ensures var t := LimitTaker(o, left);
      && t.filled == o.quantity - left && t.id == o.id && t.price == o.price && t.side == o.side && t.kind.Limit?
      && (left > 0.0 && o.tif in {Gtc, Gtd} ==>
            t.Remaining() == o.Visible(left) > 0.0 && Resting(o.side, t))
      && (left <= 0.0 <==> t.status.Filled?)
      && 0.0 <= t.filled <= t.quantity <= o.quantity
  {
  }

  /** Processing a limit order keeps both sides sound, and in particular never leaves the book crossed. */
  lemma LimitSound(e: State, o: Order)
    requires BookSound(e) && Incoming(o) && o.kind.Limit? && Absent(e, o.id)
    ensures BookSound(ProcessLimit(e, o).0)
  {
    hide MatchQuantity, Leftover, Greedy, Insert, Fillable, SideSound, Uncrossed, LimitTaker;
    var makers := e.Makers(o.side.Opposite());
    SideOf(e, o.side.Opposite());
    if !(o.tif == Fok && !Fillable(makers, o)) {
      var m := MatchQuantity(makers, o.side, At(o.price), o.quantity);
      QuantityIsGreedy(makers, o.side, At(o.price), o.quantity);
      QuantityAtMost(makers, o.side, At(o.price), o.quantity);
      MatchSound(e, o.side, m.fills);
      var e1 := AfterMatch(e, o.side, m.fills, m.book);
      assert BookSound(e1) by { BookOnly(e1, e.WithMakers(o.side.Opposite(), m.book)); }
      if m.left > 0.0 && o.tif in {Gtc, Gtd} {
        LimitTakerFacts(o, m.left);
        LimitStops(makers, o);
        AbsentAfter(e, o.side, m.fills, o.id);
        RestSound(e1, LimitTaker(o, m.left));
      }
    }
  }

  lemma BookOnly(a: State, b: State)
    requires a.bids == b.bids && a.asks == b.asks && BookSound(b)
    ensures BookSound(a)
  {
  }

  lemma AbsentAfter(e: State, taker: Side, fills: seq<Fill>, id: OrderId)
    requires BookSound(e) && Greedy(e.Makers(taker.Opposite()), fills) && Absent(e, id)
    ensures IdFree(Leftover(taker.Opposite(), e.Makers(taker.Opposite()), fills), id)
  {
    hide Leftover, Greedy;
    LeftoverSound(taker.Opposite(), e.Makers(taker.Opposite()), fills);
  }

  lemma {:induction false} QuantityAtMost(makers: seq<Order>, taker: Side, bound: Bound, want: real)
    requires MakersOk(taker.Opposite(), makers)
    ensures MatchQuantity(makers, taker, bound, want).left <= want
  {
    if makers != [] && want > 0.0 && Crosses(taker, bound, makers[0].price) && want >= makers[0].Remaining() {
      MakersTail(taker.Opposite(), makers);
      QuantityAtMost(makers[1..], taker, bound, want - makers[0].Remaining());
    }
  }

  /** A market order's two legs are each a greedy match. */
  lemma MarketLegs(makers: seq<Order>, o: Order) returns (q: Outcome, b: Outcome)
    requires SideSound(o.side.Opposite(), makers)
    ensures q == MatchQuantity(makers, o.side, AnyPrice, o.quantity)
    ensures b == MatchBudget(q.book, o.side, o.quote - FillWorth(q.fills))
    ensures Greedy(makers, q.fills) && q.book == Leftover(o.side.Opposite(), makers, q.fills)
    ensures SideSound(o.side.Opposite(), q.book)
    ensures Greedy(q.book, b.fills) && b.book == Leftover(o.side.Opposite(), q.book, b.fills)
    ensures MatchMarket(makers, o) == (q.fills + b.fills, b.book)
  {
    hide MatchQuantity, MatchBudget, Leftover, Greedy;
    q := MatchQuantity(makers, o.side, AnyPrice, o.quantity);
    b := MatchBudget(q.book, o.side, o.quote - FillWorth(q.fills));
    QuantityIsGreedy(makers, o.side, AnyPrice, o.quantity);
    LeftoverSound(o.side.Opposite(), makers, q.fills);
    BudgetIsGreedy(q.book, o.side, o.quote - FillWorth(q.fills));
  }

  lemma MarketSound(e: State, o: Order)
    requires BookSound(e)
    ensures BookSound(ProcessMarket(e, o).0)
  {
    hide MatchQuantity, MatchBudget, Leftover, Greedy, Fillable, SideSound, Uncrossed, MatchMarket;
    var side := o.side.Opposite();
    SideOf(e, side);
    var q, b := MarketLegs(e.Makers(side), o);
    MatchSound(e, o.side, q.fills);
    var e1 := e.WithMakers(side, q.book);
    MatchSound(e1, o.side, b.fills);
    assert e1.WithMakers(side, b.book) == e.WithMakers(side, b.book);
    BookOnly(AfterMatch(e, o.side, q.fills + b.fills, b.book), e.WithMakers(side, b.book));
  }

  lemma ProcessSound(e: State, o: Order, expired: bool)
    requires BookSound(e) && Incoming(o) && Absent(e, o.id)
    ensures BookSound(Process(e, o, expired).0)
  {
    hide ProcessLimit, ProcessMarket, SideSound, Uncrossed;
    var e0 := e.(sequence := e.sequence + 1);
    assert BookSound(e0);
    if !expired {
      if o.kind.Limit? { LimitSound(e0, o); }
      if o.kind.Market? { MarketSound(e0, o); }
    }
  }

  lemma CancelSound(e: State, id: OrderId)
    requires BookSound(e)
    ensures BookSound(Cancel(e, id)) && Absent(Cancel(e, id), id)
    ensures forall o :: o in Cancel(e, id).bids <==> o in e.bids && o.id != id
    ensures forall o :: o in Cancel(e, id).asks <==> o in e.asks && o.id != id
  {
    hide SideSound;
    WithoutSound(Buy, e.bids, id);
    WithoutSound(Sell, e.asks, id);
  }

  // ----- what a limit order achieves -----

  ghost predicate Killed(e: State, o: Order) {
    o.tif == Fok && !Fillable(e.Makers(o.side.Opposite()), o)
  }

  /** A limit order that is not killed fills min(quantity, crossing depth); the maker side loses exactly
      that depth, the taker's own side gains exactly what it shows, and nothing else moves. */
  lemma LimitConserves(e: State, o: Order)
    requires BookSound(e) && Incoming(o) && o.kind.Limit? && Absent(e, o.id) && !Killed(e, o)
    ensures var (e', r) := ProcessLimit(e, o); var opp := o.side.Opposite();
      && r.remaining == o.quantity - FillTotal(r.fills)
      && FillTotal(r.fills) == r.taker.filled == Min(o.quantity, CrossingDepth(e.Makers(opp), o.side, At(o.price)))
      && Depth(e'.Makers(opp)) == Depth(e.Makers(opp)) - r.taker.filled
      && Depth(e'.Makers(o.side)) == Depth(e.Makers(o.side))
           + (if o.tif in {Gtc, Gtd} && r.remaining > 0.0 then o.Visible(r.remaining) else 0.0)
  {
    hide MatchQuantity, Leftover, Greedy, Insert, LimitTaker, Mul, CrossingDepth;
    var opp := o.side.Opposite();
    var makers := e.Makers(opp);
    SideOf(e, opp);
    SideOf(e, o.side);
    var m := MatchQuantity(makers, o.side, At(o.price), o.quantity);
    QuantityIsGreedy(makers, o.side, At(o.price), o.quantity);
    QuantityAtMost(makers, o.side, At(o.price), o.quantity);
    QuantityFillsExactly(makers, o.side, At(o.price), o.quantity);
    LeftoverDepth(opp, makers, m.fills);
    LimitTakerFacts(o, m.left);
    DepthInsert(ByPrice, o.side, e.Makers(o.side), LimitTaker(o, m.left));
  }

  /** What crossing depth leaves of a limit order. */
  ghost function Rest(e: State, o: Order): real {
    o.quantity - Min(o.quantity, CrossingDepth(e.Makers(o.side.Opposite()), o.side, At(o.price)))
  }

  /** An iceberg loses what it hides: the depth an order adds to its own side is all that crossing depth leaves
      of it if and only if it is no iceberg or its peak covers that rest. */
  lemma IcebergLosesHidden(e: State, o: Order)
    requires BookSound(e) && Incoming(o) && o.kind.Limit? && Absent(e, o.id) && o.tif in {Gtc, Gtd}
    ensures Depth(ProcessLimit(e, o).0.Makers(o.side)) == Depth(e.Makers(o.side)) + Rest(e, o)
       <==> !o.IsIceberg() || o.peak >= Rest(e, o)
  {
    hide ProcessLimit, Depth, CrossingDepth;
    LimitConserves(e, o);
  }

  /** It does: ten units with a peak of three, on an empty book, show three and the other seven are gone. */
  lemma IcebergExample(user: UserId)
    ensures var o := Order(0, user, Buy, Limit, 1.0, 10.0, 0.0, 0.0, 0.0, Gtc, 3.0, Pending);
      Depth(ProcessLimit(EmptyState, o).0.bids) == 3.0
  {
    hide CheckStops;
    var o := Order(0, user, Buy, Limit, 1.0, 10.0, 0.0, 0.0, 0.0, Gtc, 3.0, Pending);
    CrossingAny([], Buy);
    LimitConserves(EmptyState, o);
  }

  /** No fill of a limit order is worse than its limit, each is at the maker's own price, and prices only
      move away from the taker. */
  lemma LimitPrices(e: State, o: Order, fees: Fees, i: nat, j: nat)
    requires BookSound(e) && Incoming(o) && o.kind.Limit?
    requires i <= j < |ProcessLimit(e, o).1.fills|
    ensures var r := ProcessLimit(e, o).1; var t := TradesOf(r.fills, r.taker, fees);
      && |r.fills| <= |e.Makers(o.side.Opposite())|
      && t[i].makerOrder == e.Makers(o.side.Opposite())[i].id
      && t[i].price == e.Makers(o.side.Opposite())[i].price
      && (if o.side.Buy? then t[i].price <= t[j].price <= o.price else t[i].price >= t[j].price >= o.price)
  {
    hide MatchQuantity, LimitTaker, Mul, Fillable, CheckStops, AfterMatch, Insert;
    var makers := e.Makers(o.side.Opposite());
    SideOf(e, o.side.Opposite());
    var r := ProcessLimit(e, o).1;
    var m := MatchQuantity(makers, o.side, At(o.price), o.quantity);
    assert r.fills == m.fills;
    QuantityIsGreedy(makers, o.side, At(o.price), o.quantity);
    QuantityCrosses(makers, o.side, At(o.price), o.quantity);
    PricesMonotone(o.side.Opposite(), makers, m.fills, i, j);
    assert m.fills[j] in m.fills;
  }

  // ----- fill or kill -----

  lemma MarketQuantityLeg(makers: seq<Order>, o: Order)
    requires SideSound(o.side.Opposite(), makers)
    requires o.quantity >= 0.0 && o.quote >= 0.0
    ensures var (fills, book) := MatchMarket(makers, o);
      && (o.quote == 0.0 ==> FillTotal(fills) == Min(o.quantity, Depth(makers)))
      && (o.quantity == 0.0 ==> FillWorth(fills) == Min(o.quote, Notional(makers)))
      && (Depth(makers) >= o.quantity > 0.0 ==> FillTotal(fills) >= o.quantity)
      && FillTotal(fills) >= 0.0
      && Depth(book) == Depth(makers) - FillTotal(fills)
  {
    hide MatchQuantity, MatchBudget, Leftover, Greedy, Mul, Div, CrossingDepth;
    var side := o.side.Opposite();
    var q, b := MarketLegs(makers, o);
    QuantityFillsExactly(makers, o.side, AnyPrice, o.quantity);
    CrossingAny(makers, o.side);
    FillAppend(q.fills, b.fills);
    LeftoverDepth(side, makers, q.fills);
    LeftoverDepth(side, q.book, b.fills);
    FillsNonneg(q.book, b.fills);
    FillsNonneg(makers, q.fills);
    if o.quote == 0.0 { NoBudget(q.book, o.side, o.quote - FillWorth(q.fills)); }
    if o.quantity == 0.0 {
      NoQuantity(makers, o.side);
      BudgetSpendsExactly(makers, o.side, o.quote);
    }
  }

  lemma NoBudget(makers: seq<Order>, taker: Side, budget: real)
    requires budget <= 0.0
    ensures MatchBudget(makers, taker, budget).fills == []
  {
  }

  lemma NoQuantity(makers: seq<Order>, taker: Side)
    ensures MatchQuantity(makers, taker, AnyPrice, 0.0) == Outcome([], makers, 0.0)
    ensures FillWorth([]) == 0.0
  {
  }

  lemma FillsNonneg(makers: seq<Order>, fills: seq<Fill>)
    requires Greedy(makers, fills) && forall o :: o in makers ==> o.price > 0.0
    ensures FillTotal(fills) >= 0.0 && FillWorth(fills) >= 0.0
    ensures fills != [] ==> FillTotal(fills) > 0.0 && FillWorth(fills) > 0.0
  {
    hide Mul;
    forall i | 0 <= i < |fills| ensures FillWorths(fills)[i] > 0.0 {
      assert makers[i] in makers;
      MulSign(makers[i].price, fills[i].quantity);
    }
    TotalBounds(Amounts(fills));
    TotalBounds(FillWorths(fills));
    if fills != [] {
      assert Amounts(fills)[0] <= FillTotal(fills);
      assert FillWorths(fills)[0] <= FillWorth(fills);
    }
  }

  /** Fill-or-kill is all or nothing.  The preflight says yes exactly when the reachable depth covers the quantity or,
      without one, the side's worth covers the budget; then the request is filled entirely, otherwise there is no fill
      and only the sequence number of the engine moves. */
  lemma FillOrKill(e: State, o: Order)
    requires BookSound(e) && Incoming(o) && Absent(e, o.id) && o.tif == Fok
    requires o.kind.Limit? || (o.kind.Market? && (o.quantity > 0.0 || o.quote > 0.0))
    ensures var (e', r) := Process(e, o, false); var makers := e.Makers(o.side.Opposite());
      var enough := if o.kind.Limit? then CrossingDepth(makers, o.side, At(o.price)) >= o.quantity
                    else if o.quantity > 0.0 then Depth(makers) >= o.quantity
                    else Notional(makers) >= o.quote;
      if enough then
        && r.taker.status.Filled?
        && (o.quantity > 0.0 ==> r.taker.filled == o.quantity)
        && (o.kind.Limit? || (o.quantity > 0.0 && o.quote == 0.0) ==> FillTotal(r.fills) == o.quantity)
        && (o.kind.Market? && o.quantity == 0.0 ==> FillWorth(r.fills) == o.quote)
      else
        r.fills == [] && r.taker.status.Cancelled? && r.taker.filled == 0.0
        && e' == e.(sequence := e.sequence + 1)
  {
    hide MatchQuantity, MatchBudget, MatchMarket, CrossingDepth, LimitTaker, CheckStops, AfterMatch, Mul, SideSound,
         Depth, Notional;
    var e0 := e.(sequence := e.sequence + 1);
    var makers := e0.Makers(o.side.Opposite());
    SideOf(e0, o.side.Opposite());
    CrossingAny(makers, o.side);
    if Fillable(makers, o) {
      if o.kind.Limit? {
        LimitConserves(e0, o);
        var m := MatchQuantity(makers, o.side, At(o.price), o.quantity);
        QuantityIsGreedy(makers, o.side, At(o.price), o.quantity);
        LimitTakerFacts(o, m.left);
      } else {
        MarketQuantityLeg(makers, o);
      }
    }
  }

  /** A quantity-funded market order fills min(quantity, depth); a quote-funded one spends
      min(budget, notional); either way the side loses exactly the base filled. */
  lemma MarketFills(e: State, o: Order)
    requires BookSound(e) && Incoming(o) && o.kind.Market? && o.tif != Fok
    requires o.quantity > 0.0 <==> o.quote == 0.0
    ensures var (e', r) := Process(e, o, false); var makers := e.Makers(o.side.Opposite());
      && (o.quantity > 0.0 ==> FillTotal(r.fills) == r.taker.filled == Min(o.quantity, Depth(makers)))
      && (o.quantity == 0.0 ==> FillWorth(r.fills) == Min(o.quote, Notional(makers)))
      && Depth(e'.Makers(o.side.Opposite())) == Depth(makers) - FillTotal(r.fills)
      && e'.Makers(o.side) == e.Makers(o.side)
  {
    hide MatchQuantity, MatchBudget, MatchMarket, Depth, Notional, FillTotal, FillWorth, SideSound;
    SideOf(e, o.side.Opposite());
    MarketQuantityLeg(e.Makers(o.side.Opposite()), o);
  }

  // ----- a market order funded both ways -----

  lemma NoneLeft(side: Side, makers: seq<Order>)
    requires MakersOk(side, makers)
    ensures Depth(makers) >= 0.0 && (Depth(makers) == 0.0 <==> makers == [])
  {
    TotalBounds(Rests(makers));
    if makers != [] {
      assert makers[0] in makers;
      assert Rests(makers)[0] <= Depth(makers);
    }
  }

  /** A market order whose quantity leaves some of the side and some of its budget: the loop goes on to spend
      that budget. */
  ghost predicate SpendsOn(makers: seq<Order>, o: Order) {
    o.quantity > 0.0 && Depth(makers) > o.quantity && o.quote > FirstWorth(makers, o.quantity)
  }

  /** A market order given a quantity fills more than that quantity if and only if the side is deeper than the
      quantity and the budget exceeds what the first `quantity` units of the side are worth; otherwise its
      budget plays no part. */
  lemma FillsBeyondQuantity(makers: seq<Order>, o: Order)
    requires SideSound(o.side.Opposite(), makers) && o.quantity > 0.0
    ensures FillTotal(MatchMarket(makers, o).0) > o.quantity <==> SpendsOn(makers, o)
    ensures var q := MatchQuantity(makers, o.side, AnyPrice, o.quantity);
      !SpendsOn(makers, o) ==> MatchMarket(makers, o) == (q.fills, q.book)
  {
    hide MatchQuantity, MatchBudget, Leftover, Greedy, Mul, Div, CrossingDepth, FillTotal, FillWorth, Depth, FirstWorth;
    var side := o.side.Opposite();
    var q, b := MarketLegs(makers, o);
    FillsAreFirst(makers, o.side, o.quantity);
    QuantityFillsExactly(makers, o.side, AnyPrice, o.quantity);
    CrossingAny(makers, o.side);
    FillAppend(q.fills, b.fills);
    LeftoverDepth(side, makers, q.fills);
    LeftoverKeeps(side, makers, q.fills);
    NoneLeft(side, q.book);
    FillsNonneg(q.book, b.fills);
    BudgetFillsNothing(q.book, o.side, o.quote - FillWorth(q.fills));
    if b.fills == [] {
      NoFillTotals();
      assert q.fills + [] == q.fills;
    }
  }

  lemma BudgetFillsNothing(makers: seq<Order>, taker: Side, budget: real)
    requires MakersOk(taker.Opposite(), makers)
    ensures var r := MatchBudget(makers, taker, budget);
      (r.fills == [] <==> makers == [] || budget <= 0.0) && (r.fills == [] ==> r.book == makers)
  {
    if makers != [] { MakersTail(taker.Opposite(), makers); }
  }
}
