/** The matching engine of one pair as the objects it is (backend/app/core/matching_engine/engine.py):
    its loops pop, fill and put back makers, and each call does to the book exactly what `EngineModel` says. */
module Engine {
  import opened Orders
  import opened Sums
  import opened Priority
  import opened Matching
  import opened Levels
  import opened EngineModel
  import opened EngineProofs
  import opened BookSides
  import opened StopBooks
  import opened OrderBooks
  import opened Preflight

  datatype MatchResult = MatchResult(trades: seq<Trade>, makersFilled: seq<OrderId>, remaining: real, complete: bool)

  function UsedIds(fills: seq<Fill>): seq<OrderId> {
    if fills == [] then []
    else
      var f := fills[|fills| - 1];
      UsedIds(fills[..|fills| - 1]) + (if f.quantity >= f.maker.Remaining() then [f.maker.id] else [])
  }

  lemma UsedIdsGrows(fills: seq<Fill>, f: Fill)
    ensures UsedIds(fills + [f]) == UsedIds(fills) + (if f.quantity >= f.maker.Remaining() then [f.maker.id] else [])
  {
    assert (fills + [f])[..|fills|] == fills;
  }

  /** What a result lists as filled are the makers its match filled to the last, and no others. */
  lemma {:induction false} UsedIdsTell(fills: seq<Fill>, id: OrderId)
    ensures id in UsedIds(fills)
       <==> exists i :: 0 <= i < |fills| && fills[i].maker.id == id && fills[i].quantity >= fills[i].maker.Remaining()
  {
    if fills == [] {
    } else {
      var front, f := fills[..|fills| - 1], fills[|fills| - 1];
      UsedIdsTell(front, id);
      if id in UsedIds(front) {
        var i :| 0 <= i < |front| && front[i].maker.id == id && front[i].quantity >= front[i].maker.Remaining();
        assert fills[i] == front[i];
      }
      if i :| 0 <= i < |fills| && fills[i].maker.id == id && fills[i].quantity >= fills[i].maker.Remaining() {
        if i < |front| { assert front[i] == fills[i]; }
      }
    }
  }

  lemma TradesGrow(fills: seq<Fill>, f: Fill, o: Order, fees: Fees)
    ensures TradesOf(fills + [f], o, fees) == TradesOf(fills, o, fees) + [TradeOf(f, o, fees)]
  {
  }

  lemma TakeHeadOk(side: Side, makers: seq<Order>, amount: real)
    requires MakersOk(side, makers) && makers != [] && 0.0 < amount <= makers[0].Remaining()
    ensures MakersOk(side, TakeHead(side, makers, amount))
    ensures |TakeHead(side, makers, amount)| <= |makers|
    ensures amount == makers[0].Remaining() ==> TakeHead(side, makers, amount) == makers[1..]
  {
    hide Insert;
    MakersTail(side, makers);
    FillingFacts(makers[0], amount);
    var m := makers[0].Filling(amount);
    InsertMembers(ByPrice, side, makers[1..], m);
    InsertOrdered(ByPrice, side, makers[1..], m);
  }

  class MatchingEngine {
    const book: OrderBook
    var makerFee: real
    var takerFee: real
    var pending: seq<EngineOrder>

    constructor (makerFee: real, takerFee: real)
      ensures Valid() && View() == EmptyState && book.Resting() == {} && book.waiting == {}
      ensures fresh(book) && fresh(book.Repr)
      ensures this.makerFee == makerFee && this.takerFee == takerFee
    {
      hide BookSide.Loose, BookSide.Filed, BookSide.NoEmptyLevel, StopView, StopsFiled, BookParts, Sided, Indexes;
      book := new OrderBook();
      this.makerFee, this.takerFee, pending := makerFee, takerFee, [];
      new;
      NoStops(Buy, book.waiting);
      NoStops(Sell, book.waiting);
    }

    ghost predicate Valid()
      reads this, book, book.bids, book.asks, book.bids.levels.Values, book.asks.levels.Values,
            book.bids.resting, book.asks.resting
    {
      book.Valid() && forall o :: o in pending ==> o in book.waiting
    }

    ghost function View(): State
      requires Valid()
      reads this, book, book.bids, book.asks, book.bids.levels.Values, book.asks.levels.Values,
            book.bids.resting, book.asks.resting, book.waiting
    {
      State(book.bids.View(), book.asks.View(),
            StopView(Buy, book.stopBuys, book.waiting), StopView(Sell, book.stopSells, book.waiting),
            Values(pending), book.lastPrice, book.sequence)
    }

    ghost function FeesNow(): Fees
      reads this
    {
      Fees(makerFee, takerFee)
    }

    /** Neither on the book nor held as a stop. */
    ghost predicate Outside(order: EngineOrder)
      reads book, book.bids, book.asks
    {
      && this !in book.Repr && order !in book.Repr
      && order !in book.Resting() && order !in book.waiting && order.id !in book.ordersById
    }

    lemma Apart(order: EngineOrder)
      requires Valid()
      ensures this !in book.Repr && order !in book.Repr
    {
    }

    /** The book is made of nothing but books, sides and levels. */
    lemma NotPart(x: object)
      requires Valid() && !(x is OrderBook) && !(x is BookSide) && !(x is PriceLevel)
      ensures x !in book.Repr
    {
    }

    /** Sum level totals from the best price until they cover the request. */
    method CanFullyFill(order: EngineOrder) returns (yes: bool)
      requires Valid() && Incoming(order.Value()) && (order.kind.Limit? || order.kind.Market?)
      requires MakersOk(order.side.Opposite(), book.Side(order.side.Opposite()).View())
      ensures yes == Fillable(book.Side(order.side.Opposite()).View(), order.Value())
    {
      hide Flat, Mul, CrossingDepth, Depth, Notional, StopsFiled, Ordered;
      var makers := book.Side(order.side.Opposite());
      var remaining, quoteRemaining := order.quantity, order.quote;
      ghost var queues, bound, o := makers.Queues(), BoundOf(order.Value()), order.Value();
      makers.QueuesKeyed();
      FlatNone(queues);
      assert makers.prices[..0] == [];
      for i := 0 to |makers.prices|
        invariant forall j :: 0 <= j < i ==> Crosses(order.side, bound, makers.prices[j])
        invariant order.quantity > 0.0 ==>
          remaining > 0.0 && remaining == order.quantity - Depth(Flat(makers.prices[..i], queues))
        invariant order.quantity <= 0.0 ==> remaining <= 0.0
        invariant order.quantity <= 0.0 && order.quote > 0.0 ==>
          quoteRemaining > 0.0 && quoteRemaining == order.quote - Notional(Flat(makers.prices[..i], queues))
        invariant order.quantity <= 0.0 && order.quote <= 0.0 ==> quoteRemaining <= 0.0
      {
        ReachableDepth(makers.prices, queues, i, order.side, bound);
        var price := makers.prices[i];
        if order.kind.Limit? && Before(order.side.Opposite(), order.price, price) {
          return false;
        }
        ReachableDepth(makers.prices, queues, i + 1, order.side, bound);
        ReachableWorth(makers.prices, queues, i + 1);
        PrefixGrows(makers.prices, queues, i);
        assert price in makers.levels && makers.levels[price].total == Depth(QueueAt(queues, price));
        var available := makers.levels[price].total;
        if remaining > 0.0 {
          remaining := remaining - Min(remaining, available);
          if remaining <= 0.0 {
            return true;
          }
        } else if quoteRemaining > 0.0 {
          MulSwap(available, price);
          quoteRemaining := quoteRemaining - Min(quoteRemaining, Mul(available, price));
          if quoteRemaining <= 0.0 {
            return true;
          }
        }
      }
      ReachableDepth(makers.prices, queues, |makers.prices|, order.side, bound);
      ReachableWorth(makers.prices, queues, |makers.prices|);
      return false;
    }

    method FillBoth(order: EngineOrder, maker: EngineOrder, amount: real) returns (trade: Trade, used: bool)
      requires order != maker && 0.0 < amount <= maker.Value().Remaining() && maker.filled >= 0.0
      modifies order, maker
      ensures used == (amount == old(maker.Value()).Remaining()) == (maker.quantity <= maker.filled)
      ensures trade == TradeOf(Fill(old(maker.Value()), amount), old(order.Value()), FeesNow())
      ensures order.Value() == old(order.Value()).Filling(amount)
      ensures maker.Value() == old(maker.Value()).Filling(amount)
    {
      hide Mul, Order.Filling;
      var quote := Mul(maker.price, amount);
      trade := Trade(maker.price, amount, quote, order.id, maker.id, order.user, maker.user, order.side,
                     Mul(takerFee, quote), Mul(makerFee, quote));
      FillingFacts(maker.Value(), amount);
      var _ := maker.Fill(amount);
      var _ := order.Fill(amount);
      used := maker.quantity - maker.filled <= 0.0;
    }

    /** One fill against a maker just popped: trade at its price, fill both, and put it back unless used up. */
    method ExecuteFill(order: EngineOrder, maker: EngineOrder, amount: real) returns (trade: Trade, used: bool)
      requires book.Valid() && order != maker
      requires maker !in book.Resting() && maker !in book.waiting && maker.id !in book.ordersById
      requires order !in book.Resting() && order !in book.waiting
      requires 0.0 < amount <= maker.Value().Remaining() && maker.filled >= 0.0
      modifies order, maker, book`ordersById, book`Repr, book.Side(maker.side), book.Side(maker.side).levels.Values
      ensures book.Valid()
      ensures old(book.Repr) <= book.Repr && fresh(book.Repr - old(book.Repr))
      ensures fresh(book.Side(maker.side).levels.Values - old(book.Side(maker.side).levels.Values))
      ensures used == (amount == old(maker.Value()).Remaining())
      ensures trade == TradeOf(Fill(old(maker.Value()), amount), old(order.Value()), FeesNow())
      ensures order.Value() == old(order.Value()).Filling(amount)
      ensures maker.Value() == old(maker.Value()).Filling(amount)
      ensures book.Resting() == old(book.Resting()) + (if used then {} else {maker})
      ensures book.ordersById == if used then old(book.ordersById) else old(book.ordersById)[maker.id := maker]
      ensures book.Side(maker.side).View()
           == if used then old(book.Side(maker.side).View())
              else Insert(ByPrice, maker.side, old(book.Side(maker.side).View()), maker.Value())
      ensures book.Side(maker.side.Opposite()).View() == old(book.Side(maker.side.Opposite()).View())
      ensures StopView(Buy, book.stopBuys, book.waiting) == old(StopView(Buy, book.stopBuys, book.waiting))
      ensures StopView(Sell, book.stopSells, book.waiting) == old(StopView(Sell, book.stopSells, book.waiting))
    {
      hide BookSide.Loose, BookSide.Filed, BookSide.NoEmptyLevel, BookSide.View, StopView, Insert, Mul, BookParts,
           StopsFiled, Indexes, Sided, Order.Filling, TradeOf;
      trade, used := FillBoth(order, maker, amount);
      assert book.Valid() && book.bids.View() == old(book.bids.View()) && book.asks.View() == old(book.asks.View());
      assert StopView(Buy, book.stopBuys, book.waiting) == old(StopView(Buy, book.stopBuys, book.waiting));
      assert StopView(Sell, book.stopSells, book.waiting) == old(StopView(Sell, book.stopSells, book.waiting));
      if used {
        if maker.peak > 0.0 {
          var peak := maker.RevealIcebergPeak();
          assert peak == 0.0;  // nothing hidden is left to reveal, so it is not put back
        }
      } else {
        book.AddOrder(maker);
      }
    }

    method Best(side: Side) returns (order: EngineOrder?)
      requires Valid()
      ensures order == null <==> View().Makers(side) == []
      ensures order != null ==> order.Value() == View().Makers(side)[0]
    {
      order := book.GetBestOrder(side);
    }

    method BestPrice(side: Side) returns (price: real)
      requires Valid()
      ensures price == if View().Makers(side) == [] then 0.0 else View().Makers(side)[0].price
    {
      price := book.Side(side).BestPrice();
    }

    /** Fill against a maker just popped as much as the order can take of it. */
    method FillPopped(order: EngineOrder, maker: EngineOrder, remaining: real, quote: real, ghost makers: seq<Order>)
      returns (trade: Trade, used: bool, amount: real)
      requires book.Valid() && Outside(order) && order != maker && (remaining > 0.0 || quote > 0.0)
      requires maker !in book.Resting() && maker !in book.waiting && maker.id !in book.ordersById
      requires makers != [] && makers[0] == maker.Value() && makers[1..] == book.Side(maker.side).View()
      requires maker.price > 0.0 && maker.filled >= 0.0 && maker.Value().Remaining() > 0.0 && maker.id != order.id
      modifies order, maker, book`ordersById, book`Repr, book.Side(maker.side), book.Side(maker.side).levels.Values
      ensures book.Valid() && Outside(order)
      ensures old(book.Repr) <= book.Repr && fresh(book.Repr - old(book.Repr))
      ensures fresh(book.Side(maker.side).levels.Values - old(book.Side(maker.side).levels.Values))
      ensures book.Resting() <= old(book.Resting()) + {maker}
      ensures book.ordersById.Keys <= old(book.ordersById.Keys) + {maker.id}
      ensures amount == AmountFor(makers[0], remaining, quote) && 0.0 < amount <= makers[0].Remaining()
      ensures trade == TradeOf(Fill(makers[0], amount), old(order.Value()), FeesNow())
      ensures used == (amount == makers[0].Remaining())
      ensures order.Value() == old(order.Value()).Filling(amount)
      ensures book.Side(maker.side).View() == TakeHead(maker.side, makers, amount)
      ensures book.Side(maker.side.Opposite()).View() == old(book.Side(maker.side.Opposite()).View())
      ensures StopView(Buy, book.stopBuys, book.waiting) == old(StopView(Buy, book.stopBuys, book.waiting))
      ensures StopView(Sell, book.stopSells, book.waiting) == old(StopView(Sell, book.stopSells, book.waiting))
    {
      hide BookSide.Loose, BookSide.Filed, BookSide.NoEmptyLevel, BookSide.View, StopView, StopsFiled, BookParts,
           Insert, Mul, Div, Indexes, Sided, Order.Filling, TakeHead, TradeOf, AmountFor;
      if remaining > 0.0 {
        amount := Min(remaining, maker.quantity - maker.filled);
      } else {
        amount := Min(Div(quote, maker.price), maker.quantity - maker.filled);
      }
      AmountPositive(makers[0], remaining, quote);
      HeadTaken(maker.side, makers, amount);
      trade, used := ExecuteFill(order, maker, amount);
    }

    /** Pop the best maker of a side and fill against it: up to `remaining` base or, when no base is left to
        fill, up to what `quote` is worth at its price. */
    method PopAndFill(order: EngineOrder, side: Side, remaining: real, quote: real)
      returns (trade: Trade, used: bool, amount: real)
      requires book.Valid() && Outside(order) && order.side == side.Opposite()
      requires book.Side(side).View() != [] && MakersOk(side, book.Side(side).View())
      requires remaining > 0.0 || quote > 0.0
      modifies order, book`ordersById, book`Repr, book.Side(side), book.Side(side).levels.Values,
               book.Side(side).resting
      ensures book.Valid() && Outside(order)
      ensures old(book.Repr) <= book.Repr && fresh(book.Repr - old(book.Repr))
      ensures fresh(book.Side(side).levels.Values - old(book.Side(side).levels.Values))
      ensures book.Side(side).resting <= old(book.Side(side).resting)
      ensures book.Side(side.Opposite()).resting == old(book.Side(side.Opposite()).resting)
      ensures book.ordersById.Keys <= old(book.ordersById.Keys)
      ensures var m := old(book.Side(side).View())[0];
        && m.price > 0.0 && amount == AmountFor(m, remaining, quote) && 0.0 < amount <= m.Remaining()
        && trade == TradeOf(Fill(m, amount), old(order.Value()), FeesNow())
        && used == (amount == m.Remaining())
      ensures order.Value() == old(order.Value()).Filling(amount)
      ensures book.Side(side).View() == TakeHead(side, old(book.Side(side).View()), amount)
      ensures book.Side(side.Opposite()).View() == old(book.Side(side.Opposite()).View())
      ensures StopView(Buy, book.stopBuys, book.waiting) == old(StopView(Buy, book.stopBuys, book.waiting))
      ensures StopView(Sell, book.stopSells, book.waiting) == old(StopView(Sell, book.stopSells, book.waiting))
    {
      hide BookSide.Loose, BookSide.Filed, BookSide.NoEmptyLevel, BookSide.View, StopView, StopsFiled, BookParts,
           Insert, Mul, Div, Indexes, Sided, Order.Filling, Ordered, MakersOk, TakeHead, TradeOf, AmountFor;
      ghost var makers := book.Side(side).View();
      HeadFacts(side, makers);
      var maker := book.PopBestOrder(side);
      assert maker.Value() == makers[0] && makers[1..] == book.Side(side).View();
      assert book.Side(side.Opposite()).View() == old(book.Side(side.Opposite()).View());
      assert StopView(Buy, book.stopBuys, book.waiting) == old(StopView(Buy, book.stopBuys, book.waiting));
      assert StopView(Sell, book.stopSells, book.waiting) == old(StopView(Sell, book.stopSells, book.waiting));
      trade, used, amount := FillPopped(order, maker, remaining, quote, makers);
    }

    /** The same, as a step on the whole engine. */
    method FillBest(order: EngineOrder, side: Side, remaining: real, quote: real)
      returns (trade: Trade, used: bool, amount: real)
      requires Valid() && Outside(order) && order.side == side.Opposite()
      requires View().Makers(side) != [] && MakersOk(side, View().Makers(side))
      requires remaining > 0.0 || quote > 0.0
      modifies order, book.Repr, book.Side(side).resting
      ensures Valid() && Outside(order) && book.Resting() <= old(book.Resting())
      ensures book.Side(side).resting <= old(book.Side(side).resting)
      ensures fresh(book.Repr - old(book.Repr)) && book.waiting == old(book.waiting)
      ensures var m := old(View()).Makers(side)[0];
        && m.price > 0.0 && amount == AmountFor(m, remaining, quote) && 0.0 < amount <= m.Remaining()
        && trade == TradeOf(Fill(m, amount), old(order.Value()), FeesNow())
        && trade.makerOrder == m.id && trade.quantity == amount && trade.quote == Mul(m.price, amount)
        && trade.price == m.price
        && used == (amount == m.Remaining())
      ensures order.Value() == old(order.Value()).Filling(amount)
      ensures View() == old(View()).WithMakers(side, TakeHead(side, old(View()).Makers(side), amount))
    {
      hide BookSide.Loose, BookSide.Filed, BookSide.NoEmptyLevel, BookSide.View, StopView, StopsFiled, BookParts, Mul,
           Div,
           Indexes, Sided, Order.Filling, MakersOk, TakeHead, AmountFor;
      trade, used, amount := PopAndFill(order, side, remaining, quote);
    }

    /** The matching loop of a limit order: while it crosses, fill against the best maker. */
    method MatchLimit(order: EngineOrder)
      returns (trades: seq<Trade>, makersFilled: seq<OrderId>, remaining: real, ghost fills: seq<Fill>)
      requires Valid() && Outside(order) && Incoming(order.Value()) && order.kind.Limit?
      requires MakersOk(order.side.Opposite(), View().Makers(order.side.Opposite()))
      modifies order, book.Repr, book.Side(order.side.Opposite()).resting
      ensures Valid() && Outside(order) && book.Resting() <= old(book.Resting())
      ensures fresh(book.Repr - old(book.Repr)) && book.waiting == old(book.waiting)
      ensures var m := MatchQuantity(old(View()).Makers(order.side.Opposite()), order.side, At(order.price),
                                     old(order.quantity));
        && m.fills == fills && m.left == remaining
        && View() == old(View()).WithMakers(order.side.Opposite(), m.book)
      ensures trades == TradesOf(fills, old(order.Value()), FeesNow()) && makersFilled == UsedIds(fills)
      ensures order.Value() == old(order.Value()).(filled := order.quantity - remaining, status := order.status)
    {
      hide MatchingEngine.Valid, MatchingEngine.View, Insert, Mul, Indexes, Sided, Order.Filling, TradesOf,
           Ordered, UsedIds, TradeOf, MatchQuantity, TakeHead, MakersOk, Continues;
      ghost var opp, bound, o, e := order.side.Opposite(), At(order.price), order.Value(), View();
      ghost var all := MatchQuantity(View().Makers(opp), order.side, bound, order.quantity);
      var makerSide := order.side.Opposite();
      trades, makersFilled, remaining, fills := [], [], order.quantity, [];
      NoTrades(o, FeesNow());
      NoFillsYet(all);
      while remaining > 0.0
        invariant Valid() && Outside(order)
        invariant fresh(book.Repr - old(book.Repr)) && book.waiting == old(book.waiting)
        invariant book.Resting() <= old(book.Resting())
        invariant book.Side(opp).resting <= old(book.Side(opp).resting)
        invariant MakersOk(opp, View().Makers(opp)) && 0.0 <= remaining <= order.quantity
        invariant Continues(all, fills, MatchQuantity(View().Makers(opp), order.side, bound, remaining))
        invariant trades == TradesOf(fills, o, FeesNow()) && makersFilled == UsedIds(fills)
        invariant order.Value() == o.(filled := order.quantity - remaining, status := order.status)
        invariant View() == e.WithMakers(opp, View().Makers(opp))
        decreases if remaining > 0.0 then |View().Makers(opp)| + 1 else 0
      {
        ghost var makers := View().Makers(opp);
        var best := Best(makerSide);
        if best == null {
          break;
        }
        if Before(makerSide, order.price, best.price) {
          break;
        }
        ghost var before := order.Value();
        var trade, used, amount := FillBest(order, makerSide, remaining, 0.0);
        FillingFacts(before, amount);
        TakeHeadOk(opp, makers, amount);
        trades := trades + [trade];
        remaining := remaining - amount;
        if used {
          makersFilled := makersFilled + [trade.makerOrder];
        }
        LimitLoopStep(makers, order.side, bound, remaining + amount, amount);
        ghost var f := Fill(makers[0], amount);
        TradeSame(f, before, o, FeesNow());
        TradesGrow(fills, f, o, FeesNow());
        UsedIdsGrows(fills, f);
        Continue(all, fills, f, MatchQuantity(makers, order.side, bound, remaining + amount),
                 MatchQuantity(View().Makers(opp), order.side, bound, remaining));
        fills := fills + [f];
      }
      LimitLoopDone(View().Makers(opp), order.side, bound, remaining);
      AllDone(all, fills, View().Makers(opp), remaining);
    }

    /** The matching loop of a market order: fill base while any is wanted, then spend what quote is left. */
    method MatchMarketOrder(order: EngineOrder)
      returns (trades: seq<Trade>, makersFilled: seq<OrderId>, ghost fills: seq<Fill>)
      requires Valid() && Outside(order) && Incoming(order.Value()) && order.kind.Market?
      requires order.quantity > 0.0 || order.quote > 0.0
      requires MakersOk(order.side.Opposite(), View().Makers(order.side.Opposite()))
      modifies order, book.Repr, book.Side(order.side.Opposite()).resting
      ensures Valid() && Outside(order) && book.Resting() <= old(book.Resting())
      ensures fresh(book.Repr - old(book.Repr)) && book.waiting == old(book.waiting)
      ensures var (fs, left) := MatchMarket(old(View()).Makers(order.side.Opposite()), old(order.Value()));
        fs == fills && View() == old(View()).WithMakers(order.side.Opposite(), left)
      ensures trades == TradesOf(fills, old(order.Value()), FeesNow()) && makersFilled == UsedIds(fills)
      ensures order.Value()
           == old(order.Value()).(filled := Min(order.quantity, FillTotal(fills)), status := order.status)
    {
      hide MatchingEngine.Valid, MatchingEngine.View, Insert, Mul, Indexes, Sided, Order.Filling, TradesOf, Ordered,
           UsedIds, TradeOf, TakeHead, FillTotal, FillWorth, MarketRest, AmountFor, Incoming, MakersOk, Continues,
           MatchMarket;
      ghost var opp, o, e := order.side.Opposite(), order.Value(), View();
      ghost var all := MarketRest(View().Makers(opp), order.side, order.quantity, order.quote);
      MarketRestIs(View().Makers(opp), o);
      MarketStart(o);
      var makerSide := order.side.Opposite();
      var remaining, quoteRemaining := order.quantity, order.quote;
      trades, makersFilled, fills := [], [], [];
      NoTrades(o, FeesNow());
      WorthNone();
      NoFillsYet(all);
      while true
        invariant Valid() && Outside(order)
        invariant fresh(book.Repr - old(book.Repr)) && book.waiting == old(book.waiting)
        invariant book.Resting() <= old(book.Resting())
        invariant book.Side(opp).resting <= old(book.Side(opp).resting)
        invariant MakersOk(opp, View().Makers(opp)) && (remaining > 0.0 || quoteRemaining > 0.0)
        invariant Continues(all, fills, MarketRest(View().Makers(opp), order.side, remaining, quoteRemaining))
        invariant trades == TradesOf(fills, o, FeesNow()) && makersFilled == UsedIds(fills)
        invariant order.Value() == o.(filled := Min(order.quantity, FillTotal(fills)), status := order.status)
        invariant View() == e.WithMakers(opp, View().Makers(opp))
        decreases |View().Makers(opp)| + if remaining > 0.0 then 1 else 0
      {
        ghost var makers := View().Makers(opp);
        var best := Best(makerSide);
        if best == null {
          break;
        }
        ghost var before := order.Value();
        var trade, used, amount := FillBest(order, makerSide, remaining, quoteRemaining);
        TakeHeadOk(opp, makers, amount);
        FillingCapped(before, o.quantity, FillTotal(fills), amount);
        AmountStops(makers[0], remaining, quoteRemaining);
        trades := trades + [trade];
        MarketLoopStep(makers, order.side, remaining, quoteRemaining, amount);
        remaining := remaining - amount;
        quoteRemaining := quoteRemaining - trade.quote;
        if used {
          makersFilled := makersFilled + [trade.makerOrder];
        }
        ghost var f := Fill(makers[0], amount);
        TradeSame(f, before, o, FeesNow());
        TradesGrow(fills, f, o, FeesNow());
        UsedIdsGrows(fills, f);
        Continue(all, fills, f, MarketRest(makers, order.side, remaining + amount, quoteRemaining + trade.quote),
                 MarketRest(View().Makers(opp), order.side, remaining, quoteRemaining));
        FillAppend(fills, [f]);
        FillOne(f);
        fills := fills + [f];
        if remaining <= 0.0 && quoteRemaining <= 0.0 {
          break;
        }
      }
      MarketLoopDone(View().Makers(opp), order.side, remaining, quoteRemaining);
      AllDone(all, fills, View().Makers(opp), 0.0);
    }

    /** Move every stop the last price triggers to the pending list. */
    method CheckStopOrders()
      requires Valid()
      modifies this`pending, book`stopBuys, book`stopSells
      ensures Valid() && View() == CheckStops(old(View()))
    {
      hide BookSide.Loose, BookSide.Filed, BookSide.NoEmptyLevel, BookSide.View, StopView, StopsFiled, BookParts,
           Indexes, Sided;
      if book.lastPrice != 0.0 {
        var triggered := book.CheckStopOrders(book.lastPrice);
        ValuesAppend(pending, triggered);
        pending := pending + triggered;
      }
    }

    /** A limit order's status once matched, and what it shows if it is to rest. */
    method SettleStatus(order: EngineOrder, remaining: real, ghost o: Order)
      requires Incoming(o) && o.kind.Limit? && 0.0 <= remaining <= o.quantity
      requires order.Value() == o.(filled := o.quantity - remaining, status := order.status)
      modifies order
      ensures order.Value() == LimitTaker(o, remaining)
    {
      if order.quantity - order.filled <= 0.0 {
        order.status := Filled;
      } else if order.filled > 0.0 {
        order.status := PartiallyFilled;
      } else {
        order.status := Open;
      }
      if remaining > 0.0 && order.tif in {Gtc, Gtd} {
        if order.peak > 0.0 {
          var visible := order.RevealIcebergPeak();
          order.quantity := order.filled + visible;
        } else {
          order.quantity := order.filled + remaining;
        }
      } else if remaining > 0.0 {
        if order.filled == 0.0 {
          order.status := Cancelled;
        }
      }
    }

    /** Put an order on its side of the book. */
    method Shelve(order: EngineOrder)
      requires Valid() && Outside(order)
      modifies book.Repr
      ensures Valid() && book.Resting() == old(book.Resting()) + {order}
      ensures fresh(book.Repr - old(book.Repr)) && book.waiting == old(book.waiting)
      ensures View() == old(View()).WithMakers(
        order.side, Insert(ByPrice, order.side, old(View()).Makers(order.side), order.Value()))
    {
      hide BookSide.Loose, BookSide.Filed, BookSide.NoEmptyLevel, BookSide.View, StopView, StopsFiled, BookParts,
           Indexes, Sided, Insert;
      book.AddOrder(order);
    }

    /** Settle a matched limit order, and put it on the book if it is to rest. */
    method RestLimit(order: EngineOrder, remaining: real, ghost o: Order)
      requires Valid() && Outside(order) && Incoming(o) && o.kind.Limit? && 0.0 <= remaining <= o.quantity
      requires order.Value() == o.(filled := o.quantity - remaining, status := order.status)
      modifies order, book.Repr
      ensures Valid() && order.Value() == LimitTaker(o, remaining)
      ensures book.Resting() <= old(book.Resting()) + {order}
      ensures fresh(book.Repr - old(book.Repr)) && book.waiting == old(book.waiting)
      ensures View() == Rested(old(View()), o, remaining)
    {
      hide BookSide.Loose, BookSide.Filed, BookSide.NoEmptyLevel, BookSide.View, StopView, StopsFiled, BookParts,
           Indexes, Sided,
           Insert, LimitTaker, Incoming;
      LimitTakerSide(o, remaining);
      SettleStatus(order, remaining, o);
      if remaining > 0.0 && order.tif in {Gtc, Gtd} {
        Shelve(order);
      }
    }

    /** Remember the last trade's price and trigger the stops it reaches. */
    method Conclude(trades: seq<Trade>)
      requires Valid()
      modifies this`pending, book`stopBuys, book`stopSells, book`lastPrice
      ensures Valid() && book.Repr == old(book.Repr)
      ensures View() == CheckStops(if trades == [] then old(View())
                                   else old(View()).(lastPrice := trades[|trades| - 1].price))
    {
      hide BookSide.Loose, BookSide.Filed, BookSide.NoEmptyLevel, BookSide.View, StopView, StopsFiled, BookParts,
           Indexes, Sided,
           CheckStops;
      if trades != [] {
        book.lastPrice := trades[|trades| - 1].price;
      }
      CheckStopOrders();
    }

    /** Fill-or-kill's way out: true, and the order cancelled, when it cannot be filled entirely. */
    method KillUnfillable(order: EngineOrder) returns (killed: bool)
      requires Valid() && Incoming(order.Value()) && (order.kind.Limit? || order.kind.Market?)
      requires MakersOk(order.side.Opposite(), View().Makers(order.side.Opposite()))
      requires order !in book.Resting() && order !in book.waiting
      modifies order`status
      ensures Valid() && View() == old(View())
      ensures killed == (order.tif == Fok && !Fillable(View().Makers(order.side.Opposite()), old(order.Value())))
      ensures order.status == if killed then Cancelled else old(order.status)
    {
      hide BookSide.Loose, BookSide.Filed, BookSide.NoEmptyLevel, BookSide.View, StopView, StopsFiled, BookParts,
           Indexes, Sided,
           Fillable, Incoming, MakersOk;
      killed := false;
      if order.tif == Fok {
        var fillable := CanFullyFill(order);
        if !fillable {
          order.status := Cancelled;
          killed := true;
        }
      }
    }

    /** Match an open limit order that is not killed, rest what is to rest of it, and check the stops. */
    method FillAndRest(order: EngineOrder, ghost o: Order) returns (result: MatchResult, ghost fills: seq<Fill>)
      requires Valid() && Outside(order) && Incoming(o) && o.kind.Limit? && order.Value() == o.(status := Open)
      requires SideSound(o.side.Opposite(), View().Makers(o.side.Opposite()))
      requires !(o.tif == Fok && !Fillable(View().Makers(o.side.Opposite()), o))
      modifies this`pending, order, book, book.Repr, book.Side(order.side.Opposite()).resting
      ensures Valid() && book.Resting() <= old(book.Resting()) + {order}
      ensures fresh(book.Repr - old(book.Repr)) && book.waiting == old(book.waiting)
      ensures var (e, r) := ProcessLimit(old(View()), o);
        && View() == e && order.Value() == r.taker && fills == r.fills
        && result == MatchResult(TradesOf(fills, o, FeesNow()), UsedIds(fills), r.remaining, true)
    {
      hide MatchingEngine.Valid, MatchingEngine.View, Insert, Fillable, TradesOf, UsedIds, MatchQuantity, Mul,
           CheckStops, LimitTaker, Incoming, MakersOk, Rested, ProcessLimit;
      ghost var e := View();
      ghost var makers := e.Makers(o.side.Opposite());
      IncomingOpen(o);
      QuantityIsGreedy(makers, o.side, At(o.price), o.quantity);
      QuantityAtMost(makers, o.side, At(o.price), o.quantity);
      var trades, makersFilled, remaining, fs := MatchLimit(order);
      fills := fs;
      TradesIgnoreStatus(fills, o.(status := Open), o, FeesNow());
      LimitMatched(e, o, MatchQuantity(makers, o.side, At(o.price), o.quantity), trades, FeesNow());
      RestLimit(order, remaining, o);
      Conclude(trades);
      result := MatchResult(trades, makersFilled, remaining, true);
    }

    method ProcessLimitOrder(order: EngineOrder) returns (result: MatchResult, ghost fills: seq<Fill>)
      requires Valid() && Outside(order) && BookSound(View()) && Incoming(order.Value()) && order.kind.Limit?
      modifies this`pending, order, book, book.Repr, book.Side(order.side.Opposite()).resting
      ensures Valid() && book.Resting() <= old(book.Resting()) + {order}
      ensures fresh(book.Repr - old(book.Repr)) && book.waiting == old(book.waiting)
      ensures var (e, r) := ProcessLimit(old(View()), old(order.Value()));
        && View() == e && order.Value() == r.taker && fills == r.fills
        && result == MatchResult(TradesOf(fills, old(order.Value()), FeesNow()), UsedIds(fills), r.remaining, true)
    {
      hide MatchingEngine.Valid, MatchingEngine.View, Insert, Fillable, TradesOf, UsedIds, MatchQuantity, Mul,
           SideSound,
           Uncrossed, CheckStops, LimitTaker, Incoming, MakersOk, Rested, ProcessLimit;
      ghost var e, o := View(), order.Value();
      SideOf(e, o.side.Opposite());
      IncomingOpen(o);
      order.status := Open;
      var killed := KillUnfillable(order);
      if killed {
        fills := [];
        NoTrades(o, FeesNow());
        LimitKilled(e, o);
        result := MatchResult([], [], 0.0, true);
        return;
      }
      result, fills := FillAndRest(order, o);
    }

    method ProcessMarketOrder(order: EngineOrder) returns (result: MatchResult, ghost fills: seq<Fill>)
      requires Valid() && Outside(order) && BookSound(View()) && Incoming(order.Value()) && order.kind.Market?
      modifies this`pending, order, book, book.Repr, book.Side(order.side.Opposite()).resting
      ensures Valid() && book.Resting() <= old(book.Resting())
      ensures fresh(book.Repr - old(book.Repr)) && book.waiting == old(book.waiting)
      ensures var (e, r) := ProcessMarket(old(View()), old(order.Value()));
        && View() == e && order.Value() == r.taker && fills == r.fills
        && result == MatchResult(TradesOf(fills, old(order.Value()), FeesNow()), UsedIds(fills), r.remaining, true)
    {
      hide MatchingEngine.Valid, MatchingEngine.View, Fillable, TradesOf, UsedIds, MatchMarket, Mul, SideSound,
           Uncrossed, CheckStops, Incoming, MakersOk, ProcessMarket, FillTotal;
      ghost var e, o := View(), order.Value();
      ghost var makers := e.Makers(o.side.Opposite());
      SideOf(e, o.side.Opposite());
      MarketStart(o);
      NoTrades(o, FeesNow());
      MarketCases(e, o, FeesNow());
      if order.quantity == 0.0 && order.quote == 0.0 {
        Mark(order, Rejected);
        fills := [];
        result := MatchResult([], [], 0.0, true);
        return;
      }
      var killed := KillUnfillable(order);
      if killed {
        fills := [];
        result := MatchResult([], [], 0.0, true);
        return;
      }
      var trades, makersFilled, fs := MatchMarketOrder(order);
      fills := fs;
      if order.quantity - order.filled <= 0.0 {
        Mark(order, Filled);
      } else if order.filled > 0.0 {
        Mark(order, PartiallyFilled);
      } else {
        Mark(order, Cancelled);
      }
      Conclude(trades);
      result := MatchResult(trades, makersFilled, 0.0, true);
    }

    /** Marking an order that is on no book and in no stop queue disturbs nothing. */
    method Mark(order: EngineOrder, status: Status)
      requires Valid() && Outside(order)
      modifies order`status
      ensures Valid() && Outside(order) && View() == old(View())
      ensures order.Value() == old(order.Value()).(status := status)
    {
      hide BookSide.Loose, BookSide.Filed, BookSide.NoEmptyLevel, BookSide.View, StopView, StopsFiled, BookParts,
           Indexes, Sided;
      order.status := status;
    }

    method ProcessStopOrder(order: EngineOrder) returns (result: MatchResult)
      requires Valid() && Outside(order)
      modifies order`status, book`stopBuys, book`stopSells, book`waiting
      ensures Valid() && book.Repr == old(book.Repr) && book.waiting == old(book.waiting) + {order}
      ensures order.Value() == old(order.Value()).(status := Pending)
      ensures View() == AddStop(old(View()), order.Value())
      ensures result == MatchResult([], [], 0.0, true)
    {
      hide BookSide.Loose, BookSide.Filed, BookSide.NoEmptyLevel, BookSide.View, StopView, StopsFiled, BookParts,
           Indexes, Sided,
           Insert;
      order.status := Pending;
      book.AddStopOrder(order);
      result := MatchResult([], [], 0.0, true);
    }

    /** The main entry point; whether the order has expired by now is the caller's clock's business. */
    method ProcessOrder(order: EngineOrder, expired: bool) returns (result: MatchResult, ghost fills: seq<Fill>)
      requires Valid() && Outside(order) && BookSound(View()) && Incoming(order.Value())
      modifies this`pending, order, book, book.Repr, book.Resting()
      ensures Valid() && fresh(book.Repr - old(book.Repr))
      ensures book.Resting() <= old(book.Resting()) + {order} && book.waiting <= old(book.waiting) + {order}
      ensures old(order.kind).Market? ==> order !in book.Resting() && order !in book.waiting
      ensures var (e, r) := Process(old(View()), old(order.Value()), expired);
        && View() == e && order.Value() == r.taker && fills == r.fills
        && result == MatchResult(TradesOf(fills, old(order.Value()), FeesNow()), UsedIds(fills), r.remaining, true)
    {
      hide MatchingEngine.Valid, MatchingEngine.View, BookSound, TradesOf, UsedIds, Mul, SideSound,
           Uncrossed, CheckStops, Incoming, ProcessLimit, ProcessMarket, AddStop;
      ghost var o := order.Value();
      NoTrades(o, FeesNow());
      BumpSequence();
      if expired {
        Mark(order, Expired);
        fills := [];
        result := MatchResult([], [], 0.0, true);
        return;
      }
      match order.kind
      case Market =>
        result, fills := ProcessMarketOrder(order);
      case Limit =>
        result, fills := ProcessLimitOrder(order);
      case _ =>
        fills := [];
        result := ProcessStopOrder(order);
    }

    /** Record on an order that rests nowhere the size it executed. */
    method Resize(order: EngineOrder, size: real)
      requires Valid() && order !in book.Resting() && order !in book.waiting
      modifies order`quantity, order`filled
      ensures Valid() && View() == old(View())
      ensures order.Value() == old(order.Value()).(filled := size, quantity := size)
    {
      hide BookSide.Loose, BookSide.Filed, BookSide.NoEmptyLevel, BookSide.View, StopView, StopsFiled, BookParts,
           Indexes, Sided;
      order.filled := size;
      order.quantity := size;
    }

    method BumpSequence()
      requires Valid()
      modifies book`sequence
      ensures Valid() && book.Repr == old(book.Repr) && View() == old(View()).(sequence := old(View()).sequence + 1)
      ensures BookSound(old(View())) ==> BookSound(View())
    {
      hide BookSide.Loose, BookSide.Filed, BookSide.NoEmptyLevel, BookSide.View, StopView, StopsFiled, BookParts,
           Indexes, Sided,
           SideSound, Uncrossed;
      book.sequence := book.sequence + 1;
    }

    /** The id index and the two sequences agree on which ids rest. */
    lemma IndexView()
      requires Valid()
      ensures forall id :: id in book.ordersById <==> !Absent(View(), id)
    {
      book.bids.ViewMembers();
      book.asks.ViewMembers();
      forall id | id in book.ordersById ensures !Absent(View(), id) {
        var o := book.ordersById[id];
        assert o.Value() in View().bids || o.Value() in View().asks;
      }
      forall id | !Absent(View(), id) ensures id in book.ordersById {
        var v :| (v in View().bids || v in View().asks) && v.id == id;
        assert exists o :: o in book.Resting() && o.Value() == v;
      }
    }

    /** Take a resting order off the book and mark it cancelled. */
    method TakeOff(order: EngineOrder)
      requires Valid() && order in book.Resting()
      modifies order, book`ordersById, book.Side(order.side), book.Side(order.side).levels.Values
      ensures Valid() && book.Resting() == old(book.Resting()) - {order}
      ensures book.ordersById == old(book.ordersById) - {order.id}
      ensures order.status
           == if old(order.status) in {Open, Pending, PartiallyFilled} then Cancelled else old(order.status)
      ensures View()
           == old(View()).WithMakers(order.side, Without(old(View()).Makers(order.side), order.id))
    {
      hide BookSide.Loose, BookSide.Filed, BookSide.NoEmptyLevel, BookSide.View, StopView, StopsFiled, BookParts,
           Without,
           Indexes, Sided;
      book.RemoveOrder(order);
      order.Cancel();
    }

    method CancelOrder(id: OrderId) returns (found: bool)
      requires Valid()
      modifies book.Repr, book.Resting()
      ensures Valid() && book.Resting() <= old(book.Resting())
      ensures book.Repr == old(book.Repr) && book.waiting == old(book.waiting)
      ensures found == !Absent(old(View()), id)
      ensures View() == Cancel(old(View()), id)
      ensures found ==> id in old(book.ordersById) && id !in book.ordersById
      ensures found ==>
        var was := old(book.ordersById[id].status);
        old(book.ordersById)[id].status == if was in {Open, Pending, PartiallyFilled} then Cancelled else was
    {
      hide MatchingEngine.View, BookSide.Loose, BookSide.Filed, BookSide.NoEmptyLevel, StopsFiled, BookParts, Without,
           Sided;
      IndexView();
      ghost var e := View();
      if id !in book.ordersById {
        WithoutAbsent(e.bids, id);
        WithoutAbsent(e.asks, id);
        return false;
      }
      found := true;
      var order := book.ordersById[id];
      OtherSideAbsent(order);
      TakeOff(order);
      WithoutAbsent(e.Makers(order.side.Opposite()), id);
    }

    lemma OtherSideAbsent(order: EngineOrder)
      requires Valid() && order in book.Resting()
      ensures order.id in book.ordersById && book.ordersById[order.id] == order
      ensures IdFree(View().Makers(order.side.Opposite()), order.id)
    {
      var other := book.Side(order.side.Opposite());
      other.ViewMembers();
      forall v | v in other.View() ensures v.id != order.id {
        var o :| o in other.resting && o.Value() == v;
        assert o.side != order.side;
      }
    }

    /** Hand over the triggered stops and forget them. */
    method GetPendingStopOrders() returns (batch: seq<EngineOrder>)
      requires Valid() && PendingApart(View())
      modifies this`pending, book`waiting
      ensures Valid() && book.Repr == old(book.Repr) && View() == old(View()).(pending := [])
      ensures Values(batch) == old(View()).pending && DistinctIds(batch) == UniqueIds(old(View()).pending)
      ensures book.waiting == old(book.waiting) - (set o | o in batch)
      ensures forall o :: o in batch ==> o !in book.Resting() && o !in book.waiting && o in old(book.waiting)
    {
      hide BookSide.Loose, BookSide.Filed, BookSide.NoEmptyLevel, BookSide.View, StopView, BookParts, Indexes, Sided;
      batch := pending;
      ghost var rest := book.waiting - (set o | o in pending);
      SameIds(batch);
      StillFiled(Buy, book.stopBuys);
      StillFiled(Sell, book.stopSells);
      StopViewWider(Buy, book.stopBuys, rest, book.waiting);
      StopViewWider(Sell, book.stopSells, rest, book.waiting);
      pending := [];
      book.waiting := rest;
    }

    lemma StillFiled(side: Side, stops: StopTable)
      requires Valid() && PendingApart(View())
      requires stops == if side.Buy? then book.stopBuys else book.stopSells
      ensures StopsFiled(side, stops, book.waiting - (set o | o in pending))
    {
      forall p, i | p in stops && 0 <= i < |stops[p]| ensures stops[p][i] !in pending {
        StopShows(side, stops, book.waiting, p, i);
        var e := View();
        forall j | 0 <= j < |pending| ensures pending[j] != stops[p][i] {
          assert e.pending[j] == pending[j].Value() && e.pending[j] in e.pending;
        }
      }
    }
  }

  /** A stop is in a stop queue or triggered, not both. */
  ghost predicate PendingApart(e: State) {
    forall v :: v in e.pending ==> v !in e.stopBuys && v !in e.stopSells
  }

  lemma SameIds(orders: seq<EngineOrder>)
    ensures DistinctIds(orders) == UniqueIds(Values(orders))
  {
    var v := Values(orders);
    assert forall i :: 0 <= i < |v| ==> v[i].id == orders[i].id;
    if UniqueIds(v) {
      forall i, j | 0 <= i < j < |orders| ensures orders[i].id != orders[j].id {
        assert v[i].id != v[j].id;
      }
    }
  }

  /** The three ways a market order can go. */
  lemma MarketCases(e: State, o: Order, fees: Fees)
    requires o.quantity >= 0.0 && o.quote >= 0.0
    ensures o.quantity == 0.0 && o.quote == 0.0 ==>
      ProcessMarket(e, o) == (e, Result(o.(status := Rejected), [], 0.0))
    ensures (o.quantity > 0.0 || o.quote > 0.0) && o.tif == Fok && !Fillable(e.Makers(o.side.Opposite()), o) ==>
      ProcessMarket(e, o) == (e, Result(o.(status := Cancelled), [], 0.0))
    ensures (o.quantity > 0.0 || o.quote > 0.0) && !(o.tif == Fok && !Fillable(e.Makers(o.side.Opposite()), o)) ==>
      var (fills, book) := MatchMarket(e.Makers(o.side.Opposite()), o);
      var trades, e1 := TradesOf(fills, o, fees), e.WithMakers(o.side.Opposite(), book);
      ProcessMarket(e, o)
        == (CheckStops(if trades == [] then e1 else e1.(lastPrice := trades[|trades| - 1].price)),
            Result(MarketTaker(o, FillTotal(fills)), fills, 0.0))
  {
    hide MatchMarket, CheckStops, Fillable, FillTotal, MarketTaker;
    LastTrade(MatchMarket(e.Makers(o.side.Opposite()), o).0, o, fees);
  }

  /** The book after a limit order with this much left has been settled. */
  function Rested(e: State, o: Order, left: real): State {
    if left > 0.0 && o.tif in {Gtc, Gtd}
    then e.WithMakers(o.side, Insert(ByPrice, o.side, e.Makers(o.side), LimitTaker(o, left)))
    else e
  }

  lemma LimitTakerSide(o: Order, left: real)
    ensures LimitTaker(o, left).side == o.side && LimitTaker(o, left).tif == o.tif
  {
  }

  lemma LimitKilled(e: State, o: Order)
    requires o.tif == Fok && !Fillable(e.Makers(o.side.Opposite()), o)
    ensures ProcessLimit(e, o) == (e, Result(o.(status := Cancelled), [], 0.0))
  {
  }

  /** Matching, settling and concluding one after the other is processing. */
  lemma LimitMatched(e: State, o: Order, m: Outcome, trades: seq<Trade>, fees: Fees)
    requires !(o.tif == Fok && !Fillable(e.Makers(o.side.Opposite()), o))
    requires m == MatchQuantity(e.Makers(o.side.Opposite()), o.side, At(o.price), o.quantity)
    requires trades == TradesOf(m.fills, o, fees)
    ensures var e2 := Rested(e.WithMakers(o.side.Opposite(), m.book), o, m.left);
      ProcessLimit(e, o)
        == (CheckStops(if trades == [] then e2 else e2.(lastPrice := trades[|trades| - 1].price)),
            Result(LimitTaker(o, m.left), m.fills, m.left))
  {
    hide MatchQuantity, Insert, LimitTaker, CheckStops, Fillable;
    LastTrade(m.fills, o, fees);
  }

  /** The status an order arrives with plays no part. */
  lemma IncomingOpen(o: Order)
    requires Incoming(o) && o.kind.Limit?
    ensures Incoming(o.(status := Open)) && o.quantity > 0.0 && o.filled == 0.0
    ensures forall makers :: Fillable(makers, o.(status := Open)) == Fillable(makers, o)
  {
  }

  lemma TradesIgnoreStatus(fills: seq<Fill>, a: Order, b: Order, fees: Fees)
    requires a.id == b.id && a.user == b.user && a.side == b.side
    ensures TradesOf(fills, a, fees) == TradesOf(fills, b, fees)
  {
    hide Mul;
  }

  lemma LastTrade(fills: seq<Fill>, o: Order, fees: Fees)
    ensures var t := TradesOf(fills, o, fees);
      |t| == |fills| && (fills != [] ==> t[|t| - 1].price == fills[|fills| - 1].maker.price)
  {
  }

  /** What a market order with this much left still does. */
  ghost function MarketRest(makers: seq<Order>, taker: Side, remaining: real, quote: real): Outcome {
    var q := MatchQuantity(makers, taker, AnyPrice, remaining);
    var b := MatchBudget(q.book, taker, quote - FillWorth(q.fills));
    Outcome(q.fills + b.fills, b.book, 0.0)
  }

  /** After `done`, `rest` completes `all`. */
  ghost predicate Continues(all: Outcome, done: seq<Fill>, rest: Outcome) {
    all == Outcome(done + rest.fills, rest.book, rest.left)
  }

  lemma NoFillsYet(all: Outcome)
    ensures Continues(all, [], all)
  {
    assert [] + all.fills == all.fills;
  }

  lemma AllDone(all: Outcome, done: seq<Fill>, book: seq<Order>, left: real)
    requires Continues(all, done, Outcome([], book, left))
    ensures all == Outcome(done, book, left)
  {
    assert done + [] == done;
  }

  lemma Continue(all: Outcome, done: seq<Fill>, f: Fill, before: Outcome, after: Outcome)
    requires Continues(all, done, before) && before == Outcome([f] + after.fills, after.book, after.left)
    ensures Continues(all, done + [f], after)
  {
    assert done + ([f] + after.fills) == done + [f] + after.fills;
  }

  lemma MarketStart(o: Order)
    requires Incoming(o) && o.kind.Market?
    ensures o.filled == 0.0 && o.quantity >= 0.0 && o.quote >= 0.0
  {
  }

  lemma MarketRestIs(makers: seq<Order>, o: Order)
    ensures var m := MarketRest(makers, o.side, o.quantity, o.quote);
      MatchMarket(makers, o) == (m.fills, m.book)
  {
  }

  lemma BudgetLoopStep(makers: seq<Order>, taker: Side, quote: real, amount: real)
    requires makers != [] && quote > 0.0 && makers[0].price > 0.0 && makers[0].Remaining() > 0.0
    requires amount == Min(Div(quote, makers[0].price), makers[0].Remaining())
    ensures var m := MatchBudget(makers, taker, quote);
      var rest := MatchBudget(TakeHead(taker.Opposite(), makers, amount), taker, quote - Mul(makers[0].price, amount));
      m.fills == [Fill(makers[0], amount)] + rest.fills && m.book == rest.book
  {
    hide Insert, Mul, Div;
    DivUndone(quote, makers[0].price);
  }

  /** One turn of the market loop, in either leg. */
  lemma MarketLoopStep(makers: seq<Order>, taker: Side, remaining: real, quote: real, amount: real)
    requires makers != [] && makers[0].price > 0.0 && makers[0].Remaining() > 0.0
    requires (remaining > 0.0 || quote > 0.0) && amount == AmountFor(makers[0], remaining, quote)
    ensures var m := MarketRest(makers, taker, remaining, quote);
      var rest := MarketRest(TakeHead(taker.Opposite(), makers, amount), taker, remaining - amount,
                             quote - Mul(makers[0].price, amount));
      m == Outcome([Fill(makers[0], amount)] + rest.fills, rest.book, rest.left)
  {
    hide Insert, Mul, Div, TakeHead, MatchQuantity, MatchBudget, FillWorth;
    var f, next := Fill(makers[0], amount), TakeHead(taker.Opposite(), makers, amount);
    if remaining > 0.0 {
      LimitLoopStep(makers, taker, AnyPrice, remaining, amount);
      var rest := MatchQuantity(next, taker, AnyPrice, remaining - amount);
      FillAppend([f], rest.fills);
      FillOne(f);
      FillsAssoc([], f, rest.fills);
    } else {
      LimitLoopDone(makers, taker, AnyPrice, remaining);
      AmountPositive(makers[0], remaining, quote);
      LimitLoopDone(next, taker, AnyPrice, remaining - amount);
      WorthNone();
      BudgetLoopStep(makers, taker, quote, amount);
    }
  }

  lemma WorthNone()
    ensures FillWorth([]) == 0.0 == FillTotal([])
  {
  }

  lemma MarketLoopDone(makers: seq<Order>, taker: Side, remaining: real, quote: real)
    requires makers == [] || (remaining <= 0.0 && quote <= 0.0)
    ensures MarketRest(makers, taker, remaining, quote) == Outcome([], makers, 0.0)
  {
    hide Mul;
    LimitLoopDone(makers, taker, AnyPrice, remaining);
    WorthNone();
  }

  /** A fill that leaves its maker standing exhausts the leg it came from. */
  lemma AmountStops(m: Order, remaining: real, quote: real)
    requires m.price > 0.0 && m.Remaining() > 0.0 && (remaining > 0.0 || quote > 0.0)
    ensures var amount := AmountFor(m, remaining, quote);
      amount < m.Remaining() ==> remaining - amount <= 0.0 && (remaining <= 0.0 ==> quote - Mul(m.price, amount) == 0.0)
  {
    hide Mul, Div;
    AmountPositive(m, remaining, quote);
    DivUndone(quote, m.price);
  }

  /** Fills beyond an order's own quantity are not counted on it. */
  lemma FillingCapped(v: Order, quantity: real, total: real, amount: real)
    requires v.quantity == quantity && v.filled == Min(quantity, total) && amount > 0.0
    ensures v.Filling(amount).filled == Min(quantity, total + amount)
    ensures v.Filling(amount) == v.(filled := v.Filling(amount).filled, status := v.Filling(amount).status)
  {
  }

  lemma TradeSame(f: Fill, a: Order, b: Order, fees: Fees)
    requires a.id == b.id && a.user == b.user && a.side == b.side
    ensures TradeOf(f, a, fees) == TradeOf(f, b, fees)
  {
  }

  lemma FillsAssoc(a: seq<Fill>, f: Fill, b: seq<Fill>)
    ensures a + ([f] + b) == a + [f] + b
  {
  }

  lemma LimitLoopDone(makers: seq<Order>, taker: Side, bound: Bound, want: real)
    requires makers == [] || want <= 0.0 || !Crosses(taker, bound, makers[0].price)
    ensures MatchQuantity(makers, taker, bound, want) == Outcome([], makers, want)
  {
  }

  function AmountFor(m: Order, remaining: real, quote: real): real
    requires m.price > 0.0
  {
    if remaining > 0.0 then Min(remaining, m.Remaining()) else Min(Div(quote, m.price), m.Remaining())
  }

  lemma AmountPositive(m: Order, remaining: real, quote: real)
    requires m.price > 0.0 && m.Remaining() > 0.0 && (remaining > 0.0 || quote > 0.0)
    ensures 0.0 < AmountFor(m, remaining, quote) <= m.Remaining()
    ensures AmountFor(m, remaining, quote)
         == if remaining > 0.0 then Min(remaining, m.Remaining()) else Min(Div(quote, m.price), m.Remaining())
  {
    hide Mul, Div;
    DivUndone(quote, m.price);
  }

  lemma HeadFacts(side: Side, makers: seq<Order>)
    requires MakersOk(side, makers) && makers != []
    ensures makers[0].price > 0.0 && makers[0].filled >= 0.0 && makers[0].Remaining() > 0.0
  {
    assert makers[0] in makers;
  }

  /** A head used up is dropped; otherwise it goes behind its price. */
  lemma HeadTaken(side: Side, makers: seq<Order>, amount: real)
    requires makers != [] && 0.0 < amount <= makers[0].Remaining() && makers[0].filled >= 0.0
    ensures TakeHead(side, makers, amount)
         == if amount == makers[0].Remaining() then makers[1..]
            else Insert(ByPrice, side, makers[1..], makers[0].Filling(amount))
  {
    hide Insert;
    FillingFacts(makers[0], amount);
  }

  lemma NoTrades(o: Order, fees: Fees)
    ensures TradesOf([], o, fees) == [] && UsedIds([]) == []
  {
  }

  /** One turn of the loop is one unfolding of the recursion. */
  lemma LimitLoopStep(makers: seq<Order>, taker: Side, bound: Bound, want: real, amount: real)
    requires makers != [] && want > 0.0 && Crosses(taker, bound, makers[0].price)
    requires amount == Min(want, makers[0].Remaining()) && makers[0].Remaining() > 0.0
    ensures var m := MatchQuantity(makers, taker, bound, want);
      var rest := MatchQuantity(TakeHead(taker.Opposite(), makers, amount), taker, bound, want - amount);
      m == Outcome([Fill(makers[0], amount)] + rest.fills, rest.book, rest.left)
  {
    hide Insert;
    if want < makers[0].Remaining() {
      assert [Fill(makers[0], amount)] + [] == [Fill(makers[0], amount)];
    }
  }

  lemma NoStops(side: Side, waiting: set<EngineOrder>)
    ensures StopsFiled(side, map[], waiting) && StopView(side, map[], waiting) == []
  {
    NoMembers(SortedKeys(side, {}));
  }
}
