/** The order book of one pair (backend/app/core/matching_engine/order_book.py): two sides, the stop queues
    and the index of resting orders by id. */
module OrderBooks {
  import opened Orders
  import opened Priority
  import opened Levels
  import opened BookSides
  import opened StopBooks

  /** The id index holds exactly the resting orders. */
  ghost predicate Indexes(index: map<OrderId, EngineOrder>, resting: set<EngineOrder>) {
    && (forall o :: o in resting ==> o.id in index && index[o.id] == o)
    && (forall id :: id in index ==> index[id] in resting && index[id].id == id)
  }

  ghost predicate Sided(side: Side, resting: set<EngineOrder>) {
    forall o :: o in resting ==> o.side == side
  }

  lemma IndexAdd(index: map<OrderId, EngineOrder>, resting: set<EngineOrder>, order: EngineOrder)
    requires Indexes(index, resting) && order.id !in index
    ensures Indexes(index[order.id := order], resting + {order})
    ensures order !in resting && forall o :: o in resting ==> o.id != order.id
  {
  }

  lemma SidedAdd(side: Side, resting: set<EngineOrder>, order: EngineOrder)
    requires Sided(side, resting) && order.side == side
    ensures Sided(side, resting + {order})
  {
  }

  lemma IndexRemove(index: map<OrderId, EngineOrder>, resting: set<EngineOrder>, order: EngineOrder)
    requires Indexes(index, resting) && order in resting
    ensures Indexes(index - {order.id}, resting - {order}) && order.id in index
  {
  }

  /** A book is made of books, sides and levels, never of orders. */
  ghost predicate BookParts(r: set<object>) {
    forall x :: x in r ==> x is OrderBook || x is BookSide || x is PriceLevel
  }

  lemma MoreLevels(r: set<object>, levels: set<PriceLevel>)
    requires BookParts(r)
    ensures BookParts(r + levels)
  {
  }

  class OrderBook {
    const bids: BookSide
    const asks: BookSide
    var stopBuys: StopTable
    var stopSells: StopTable
    var ordersById: map<OrderId, EngineOrder>
    var sequence: nat
    var lastPrice: real
    /** The stops the engine holds, in the stop queues or already triggered. */
    ghost var waiting: set<EngineOrder>
    /** The objects the book itself is made of; the orders it holds are not among them. */
    ghost var Repr: set<object>

    constructor ()
      ensures Valid() && fresh(Repr)
      ensures Resting() == {} && waiting == {} && ordersById == map[] && stopBuys == map[] && stopSells == map[]
      ensures bids.View() == [] && asks.View() == [] && sequence == 0 && lastPrice == 0.0
    {
      bids := new BookSide(Buy);
      asks := new BookSide(Sell);
      stopBuys, stopSells, ordersById := map[], map[], map[];
      sequence, lastPrice, waiting := 0, 0.0, {};
      Repr := {this, bids, asks};
    }

    function Side(side: Side): BookSide {
      if side.Buy? then bids else asks
    }

    ghost function Resting(): set<EngineOrder>
      reads bids, asks
    {
      bids.resting + asks.resting
    }

    ghost predicate Valid()
      reads this, bids, asks, bids.levels.Values, asks.levels.Values, bids.resting, asks.resting
    {
      && BookParts(Repr) && this in Repr && bids in Repr && asks in Repr
      && bids.levels.Values <= Repr && asks.levels.Values <= Repr
      && bids != asks && bids.side.Buy? && asks.side.Sell?
      && bids.Valid() && asks.Valid()
      && bids.levels.Values !! asks.levels.Values
      && bids.resting !! asks.resting && Resting() !! waiting
      && Sided(Buy, bids.resting) && Sided(Sell, asks.resting)
      && Indexes(ordersById, Resting())
      && StopsFiled(Buy, stopBuys, waiting) && StopsFiled(Sell, stopSells, waiting)
    }

    method AddOrder(order: EngineOrder)
      requires Valid() && order !in Resting() && order !in waiting && order.id !in ordersById
      modifies this`ordersById, this`Repr, Side(order.side), Side(order.side).levels.Values
      ensures Valid() && Resting() == old(Resting()) + {order} && ordersById == old(ordersById)[order.id := order]
      ensures old(Repr) <= Repr && fresh(Repr - old(Repr))
      ensures fresh(Side(order.side).levels.Values - old(Side(order.side).levels.Values))
      ensures Side(order.side).View() == Insert(ByPrice, order.side, old(Side(order.side).View()), order.Value())
      ensures Side(order.side.Opposite()).View() == old(Side(order.side.Opposite()).View())
    {
      hide BookSide.Valid, Insert, BookSide.View, StopsFiled, StopView, Indexes, BookParts, Sided;
      IndexAdd(ordersById, Resting(), order);
      var mine := Side(order.side);
      ghost var other := Side(order.side.Opposite());
      assert other != mine && other.levels.Values !! mine.levels.Values && other.Valid();
      SidedAdd(order.side, mine.resting, order);
      mine.Add(order);
      assert other.Valid();
      MoreLevels(Repr, mine.levels.Values);
      Repr := Repr + mine.levels.Values;
      assert Resting() == old(Resting()) + {order};
      ordersById := ordersById[order.id := order];
    }

    method RemoveOrder(order: EngineOrder)
      requires Valid() && order in Resting()
      modifies this`ordersById, Side(order.side), Side(order.side).levels.Values
      ensures Valid() && Resting() == old(Resting()) - {order} && ordersById == old(ordersById) - {order.id}
      ensures Side(order.side).levels.Values <= old(Side(order.side).levels.Values)
      ensures Side(order.side).View() == Without(old(Side(order.side).View()), order.id)
      ensures Side(order.side.Opposite()).View() == old(Side(order.side.Opposite()).View())
    {
      hide BookSide.Valid, Without, BookSide.View, StopsFiled, StopView, Indexes, BookParts;
      IndexRemove(ordersById, Resting(), order);
      Side(order.side).Remove(order);
      assert Resting() == old(Resting()) - {order};
      ordersById := ordersById - {order.id};
    }

    method GetBestOrder(side: Side) returns (order: EngineOrder?)
      requires Valid()
      ensures order == null <==> Side(side).View() == []
      ensures order != null ==> order in Side(side).resting && order.Value() == Side(side).View()[0]
    {
      order := Side(side).PeekBest();
    }

    /** Pop the best-priority order of a side, and drop it from the index. */
    method PopBestOrder(side: Side) returns (order: EngineOrder?)
      requires Valid()
      modifies this`ordersById, Side(side), Side(side).levels.Values
      ensures Valid() && Side(side).levels.Values <= old(Side(side).levels.Values)
      ensures old(Side(side).View()) == [] ==>
        order == null && Resting() == old(Resting()) && Side(side).View() == [] && ordersById == old(ordersById)
      ensures old(Side(side).View()) != [] ==>
        && order != null && order in old(Resting()) && Resting() == old(Resting()) - {order}
        && order.side == side && order.id in old(ordersById) && ordersById == old(ordersById) - {order.id}
        && old(Side(side).View()) == [old(order.Value())] + Side(side).View()
      ensures Side(side.Opposite()).View() == old(Side(side.Opposite()).View())
    {
      hide BookSide.Valid, BookSide.View, StopsFiled, StopView, Indexes, BookParts;
      if side.Buy? {
        order := bids.PopBest();
      } else {
        order := asks.PopBest();
      }
      if order != null {
        IndexRemove(ordersById, old(Resting()), order);
        assert Resting() == old(Resting()) - {order};
        ordersById := ordersById - {order.id};
      }
    }

    method AddStopOrder(order: EngineOrder)
      requires Valid() && order !in Resting() && order !in waiting
      modifies this`stopBuys, this`stopSells, this`waiting
      ensures Valid() && waiting == old(waiting) + {order}
      ensures order.side.Buy? ==>
        && StopView(Buy, stopBuys, waiting)
           == Insert(ByStop, Buy, old(StopView(Buy, stopBuys, waiting)), order.Value())
        && StopView(Sell, stopSells, waiting) == old(StopView(Sell, stopSells, waiting))
      ensures order.side.Sell? ==>
        && StopView(Sell, stopSells, waiting)
           == Insert(ByStop, Sell, old(StopView(Sell, stopSells, waiting)), order.Value())
        && StopView(Buy, stopBuys, waiting) == old(StopView(Buy, stopBuys, waiting))
    {
      hide BookSide.Valid, Insert, StopView;
      StopViewWider(Buy, stopBuys, waiting, waiting + {order});
      StopViewWider(Sell, stopSells, waiting, waiting + {order});
      waiting := waiting + {order};
      AddStopIsInsert(order.side, if order.side.Buy? then stopBuys else stopSells, order, waiting);
      if order.side.Buy? {
        stopBuys := WithStop(stopBuys, order);
      } else {
        stopSells := WithStop(stopSells, order);
      }
    }

    /** Take out every stop the last price triggers: sells first, then buys. */
    method CheckStopOrders(last: real) returns (triggered: seq<EngineOrder>)
      requires Valid()
      modifies this`stopBuys, this`stopSells
      ensures Valid() && forall o :: o in triggered ==> o in waiting
      ensures Values(triggered) == Fired(Sell, old(StopView(Sell, stopSells, waiting)), last)
                                 + Fired(Buy, old(StopView(Buy, stopBuys, waiting)), last)
      ensures StopView(Sell, stopSells, waiting) == Unfired(Sell, old(StopView(Sell, stopSells, waiting)), last)
      ensures StopView(Buy, stopBuys, waiting) == Unfired(Buy, old(StopView(Buy, stopBuys, waiting)), last)
    {
      hide BookSide.Valid, StopView, Fired, Unfired;
      var sells, restSells := TakeFired(Sell, stopSells, last, waiting);
      var buys, restBuys := TakeFired(Buy, stopBuys, last, waiting);
      triggered := sells + buys;
      ValuesAppend(sells, buys);
      stopSells, stopBuys := restSells, restBuys;
    }
  }
}
