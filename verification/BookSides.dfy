/** One side of the order book as it is stored (backend/app/core/matching_engine/order_book.py): a map from
    price to a level object and a sorted list of the prices in use. */
module BookSides {
  import opened Orders
  import opened Sums
  import opened Priority
  import opened Levels

  ghost function Values(orders: seq<EngineOrder>): seq<Order>
    reads orders
  {
    seq(|orders|, i requires 0 <= i < |orders| reads orders => orders[i].Value())
  }

  function Except(orders: seq<EngineOrder>, id: OrderId): seq<EngineOrder> {
    if orders == [] then []
    else if orders[0].id == id then Except(orders[1..], id)
    else [orders[0]] + Except(orders[1..], id)
  }

  lemma {:induction false} ExceptIsWithout(orders: seq<EngineOrder>, id: OrderId)
    ensures Values(Except(orders, id)) == Without(Values(orders), id)
    ensures forall o :: o in Except(orders, id) <==> o in orders && o.id != id
  {
    if orders == [] {
    } else {
      var head, rest := orders[0], orders[1..];
      ExceptIsWithout(rest, id);
      ValuesCons(head, rest);
      ValuesCons(head, Except(rest, id));
      assert orders == [head] + rest;
    }
  }

  lemma ValuesCons(o: EngineOrder, orders: seq<EngineOrder>)
    ensures Values([o] + orders) == [o.Value()] + Values(orders)
  {
  }

  ghost predicate DistinctIds(orders: seq<EngineOrder>) {
    forall i, j :: 0 <= i < j < |orders| ==> orders[i].id != orders[j].id
  }

  lemma {:induction false} ExceptDistinct(orders: seq<EngineOrder>, id: OrderId)
    requires DistinctIds(orders)
    ensures DistinctIds(Except(orders, id))
    ensures forall o :: o in Except(orders, id) ==> o in orders
  {
    if orders == [] {
    } else {
      ExceptDistinct(orders[1..], id);
      var r := Except(orders[1..], id);
      forall j | 0 <= j < |r| ensures r[j].id != orders[0].id {
        assert r[j] in orders[1..];
      }
    }
  }

  lemma {:induction false} DepthWithout(s: seq<Order>, id: OrderId)
    ensures Depth(Without(s, id)) == Depth(s) - Total(RestsOf(s, id))
  {
    if s == [] {
    } else {
      DepthWithout(s[1..], id);
      assert s == [s[0]] + s[1..];
      DepthCons(s[0], s[1..]);
      DepthCons(s[0], Without(s[1..], id));
      assert RestsOf(s, id)[1..] == RestsOf(s[1..], id);
    }
  }

  ghost function RestsOf(s: seq<Order>, id: OrderId): seq<real> {
    seq(|s|, i requires 0 <= i < |s| => if s[i].id == id then s[i].Remaining() else 0.0)
  }

  class PriceLevel {
    const price: real
    var total: real
    var orders: seq<EngineOrder>

    constructor (price: real)
      ensures this.price == price && orders == []
      ensures forall side :: Valid(side)
      ensures View() == [] && Members() == {}
    {
      this.price, total, orders := price, 0.0, [];
    }

    ghost function View(): seq<Order>
      reads this, orders
    {
      Values(orders)
    }

    ghost function Members(): set<EngineOrder>
      reads this
    {
      set o | o in orders
    }

    /** The running total agrees with the queue, which holds distinct orders of this price and side. */
    ghost predicate Valid(side: Side)
      reads this, orders
    {
      && total == Depth(View())
      && DistinctIds(orders)
      && (forall o :: o in orders ==> o.price == price && o.side == side)
    }

    method AddOrder(order: EngineOrder, ghost side: Side)
      requires Valid(side) && order.price == price && order.side == side
      requires forall o :: o in Members() ==> o.id != order.id
      modifies this
      ensures Valid(side) && orders != [] && Members() == old(Members()) + {order}
      ensures View() == old(View()) + [order.Value()]
    {
      orders := orders + [order];
      total := total + (order.quantity - order.filled);
      DepthAppend(old(View()), [order.Value()]);
      DepthCons(order.Value(), []);
      assert [order.Value()] + [] == [order.Value()];
      assert View() == old(View()) + [order.Value()];
      assert forall o :: o in old(orders) ==> o in old(Members());
    }

    /** Filters the queue by id and takes what it dropped off the running total. */
    method RemoveOrder(order: EngineOrder, ghost side: Side)
      requires Valid(side)
      modifies this
      ensures Valid(side) && Members() == set o | o in old(Members()) && o.id != order.id
      ensures View() == Without(old(View()), order.id)
    {
      var removed := 0.0;
      for i := 0 to |orders|
        invariant orders == old(orders) && total == old(total)
        invariant removed == Total(RestsOf(View(), order.id)[..i])
      {
        var rests := RestsOf(View(), order.id);
        assert rests[..i + 1] == rests[..i] + [rests[i]];
        TotalAppend(rests[..i], [rests[i]]);
        TotalOne(rests[i]);
        if orders[i].id == order.id {
          removed := removed + (orders[i].quantity - orders[i].filled);
        }
      }
      assert RestsOf(View(), order.id)[..|orders|] == RestsOf(View(), order.id);
      DepthWithout(View(), order.id);
      ExceptIsWithout(orders, order.id);
      ExceptDistinct(orders, order.id);
      total := total - removed;
      orders := Except(orders, order.id);
    }

    method PopBest(ghost side: Side) returns (order: EngineOrder?)
      requires Valid(side)
      modifies this
      ensures Valid(side)
      ensures old(View()) == [] ==> order == null && View() == [] && Members() == {}
      ensures old(View()) != [] ==>
        && order != null && order in old(Members()) && order.price == price
        && old(View()) == [old(order.Value())] + View()
        && Members() == old(Members()) - {order}
    {
      assert |View()| == |orders|;
      if orders == [] {
        return null;
      }
      order := orders[0];
      orders := orders[1..];
      total := total - (order.quantity - order.filled);
      assert old(View()) == [order.Value()] + View();
      DepthCons(order.Value(), View());
      assert old(orders) == [order] + orders;
      forall o | o in orders ensures o != order {
        var i :| 0 <= i < |orders| && orders[i] == o;
        assert old(orders)[i + 1].id != old(orders)[0].id;
      }
    }

    method PeekBest() returns (order: EngineOrder?)
      ensures View() == [] <==> order == null
      ensures order != null ==> order in Members() && order.Value() == View()[0]
    {
      assert |View()| == |orders|;
      order := if orders == [] then null else orders[0];
    }

    lemma MembersPriced(side: Side)
      requires Valid(side)
      ensures forall o :: o in Members() ==> o.price == price && o.side == side
    {
    }

    lemma EmptyView()
      ensures orders == [] <==> View() == []
      ensures orders == [] <==> Members() == {}
    {
      assert |View()| == |orders|;
      if orders != [] { assert orders[0] in Members(); }
    }
  }

  /** Binary insertion into a price list kept best first. */
  method InsertSorted(side: Side, prices: seq<real>, price: real) returns (r: seq<real>, lo: nat)
    requires Strict(side, prices) && price !in prices
    ensures lo <= |prices| && r == prices[..lo] + [price] + prices[lo..]
    ensures Strict(side, r)
    ensures forall p :: p in r <==> p == price || p in prices
  {
    lo := 0;
    var hi := |prices|;
    while lo < hi
      invariant 0 <= lo <= hi <= |prices|
      invariant forall i :: 0 <= i < lo ==> Before(side, prices[i], price)
      invariant forall i :: hi <= i < |prices| ==> !Before(side, prices[i], price)
    {
      var mid := (lo + hi) / 2;
      if Before(side, prices[mid], price) {
        forall i | 0 <= i <= mid ensures Before(side, prices[i], price) {
          assert i < mid ==> Before(side, prices[i], prices[mid]);
        }
        lo := mid + 1;
      } else {
        forall i | mid <= i < |prices| ensures !Before(side, prices[i], price) {
          assert mid < i ==> Before(side, prices[mid], prices[i]);
        }
        hi := mid;
      }
    }
    r := prices[..lo] + [price] + prices[lo..];
    StrictInsert(side, prices, lo, price);
  }

  lemma StrictInsert(side: Side, prices: seq<real>, lo: nat, price: real)
    requires Strict(side, prices) && lo <= |prices| && price !in prices
    requires forall i :: 0 <= i < lo ==> Before(side, prices[i], price)
    requires forall i :: lo <= i < |prices| ==> !Before(side, prices[i], price)
    ensures Strict(side, prices[..lo] + [price] + prices[lo..])
    ensures forall p :: p in prices[..lo] + [price] + prices[lo..] <==> p == price || p in prices
  {
    assert prices == prices[..lo] + prices[lo..];
    var r := prices[..lo] + [price] + prices[lo..];
    forall j | lo <= j < |prices| ensures Before(side, price, prices[j]) {
      assert prices[j] in prices;
    }
    forall j | 0 <= j < |r| ensures r[j] == if j < lo then prices[j] else if j == lo then price else prices[j - 1] {}
  }

  class BookSide {
    const side: Side
    var levels: map<real, PriceLevel>
    var prices: seq<real>
    /** The orders resting on this side, as objects. */
    ghost var resting: set<EngineOrder>

    constructor (side: Side)
      ensures this.side == side && levels == map[] && prices == [] && resting == {}
      ensures Valid() && View() == []
    {
      this.side, levels, prices, resting := side, map[], [], {};
    }

    /** Each level is filed under its own price and queues resting orders only. */
    ghost predicate Filed()
      reads this, levels.Values
    {
      forall p :: p in levels ==> levels[p].price == p && levels[p].Members() <= resting
    }

    ghost function Queues(): Levels.Queues
      requires Filed()
      reads this, levels.Values, resting
    {
      map p | p in levels :: levels[p].View()
    }

    /** The flat priority sequence this side spells out. */
    ghost function View(): seq<Order>
      requires Filed()
      reads this, levels.Values, resting
    {
      Flat(prices, Queues())
    }

    /** Everything but that no level is empty. */
    ghost predicate Loose()
      reads this, levels.Values, resting
    {
      && Filed()
      && Strict(side, prices)
      && (forall p :: p in levels <==> p in prices)
      && (forall p :: p in levels ==> levels[p].Valid(side))
      && (forall o :: o in resting ==> o.price in levels && o in levels[o.price].Members())
      && (forall o, x :: o in resting && x in resting && o.id == x.id ==> o == x)
    }

    ghost predicate Valid()
      reads this, levels.Values, resting
    {
      Filed() && Loose() && NoEmptyLevel()
    }

    ghost predicate NoEmptyLevel()
      reads this, levels.Values
    {
      forall p :: p in levels ==> levels[p].orders != []
    }

    lemma QueuesKeyed()
      requires Loose()
      ensures Keyed(ByPrice, Queues())
    {
      forall p, i | p in levels && 0 <= i < |Queues()[p]| ensures ByPrice.Key(Queues()[p][i]) == p {
        assert levels[p].Valid(side);
        assert levels[p].orders[i] in levels[p].orders;
      }
    }

    /** File an empty level for a price not in use. */
    method ListPrice(price: real)
      requires Loose()
      modifies this`levels, this`prices
      ensures Loose() && price in levels
      ensures fresh(levels.Values - old(levels.Values))
      ensures forall p :: p in old(levels) ==> p in levels && levels[p] == old(levels)[p]
      ensures forall p :: p in levels ==> p == price || p in old(levels)
      ensures View() == old(View())
    {
      hide Flat, Strict, PriceLevel.Valid, PriceLevel.View, PriceLevel.Members;
      if price !in levels {
        ghost var queues := Queues();
        var level := new PriceLevel(price);
        var r, lo := InsertSorted(side, prices, price);
        ListEmptyPrice(prices, queues, lo, price);
        FlatSame(r, queues, queues[price := []]);
        levels, prices := levels[price := level], r;
        assert Queues() == queues[price := []];
      }
    }

    /** Append to the queue of a price that has one. */
    method Enqueue(order: EngineOrder)
      requires Loose() && order.price in levels && order !in resting && order.side == side
      requires forall o :: o in resting ==> o.id != order.id
      modifies this`resting, levels[order.price]
      ensures Loose() && resting == old(resting) + {order} && levels[order.price].orders != []
      ensures View() == Insert(ByPrice, side, old(View()), order.Value())
    {
      hide Flat, Strict, PriceLevel.Valid, PriceLevel.View, PriceLevel.Members, Insert;
      ghost var queues, price := Queues(), order.price;
      QueuesKeyed();
      EnqueueIsInsert(ByPrice, side, prices, queues, order.Value());
      levels[order.price].AddOrder(order, side);
      resting := resting + {order};
      forall p | p in levels && p != price ensures levels[p] != levels[price] {
        assert levels[p].price != levels[price].price;
      }
      assert Queues() == queues[price := QueueAt(queues, price) + [order.Value()]];
    }

    method Add(order: EngineOrder)
      requires Valid() && order !in resting && order.side == side
      requires forall o :: o in resting ==> o.id != order.id
      modifies this, levels.Values
      ensures Valid() && resting == old(resting) + {order}
      ensures fresh(levels.Values - old(levels.Values))
      ensures View() == Insert(ByPrice, side, old(View()), order.Value())
    {
      hide Flat, Strict, Insert, PriceLevel.Valid, PriceLevel.View, PriceLevel.Members;
      ListPrice(order.price);
      Enqueue(order);
    }

    /** Forget a price whose queue has run empty. */
    method DropIfEmpty(price: real)
      requires Loose() && price in levels
      modifies this`levels, this`prices
      ensures Loose()
      ensures levels == if old(levels)[price].orders == [] then old(levels) - {price} else old(levels)
      ensures View() == old(View())
    {
      hide Flat, Strict, PriceLevel.Valid, PriceLevel.View, PriceLevel.Members, RemoveFirst;
      levels[price].EmptyView();
      if levels[price].orders == [] {
        ghost var queues := Queues();
        ghost var i :| 0 <= i < |prices| && prices[i] == price;
        RemoveFirstSplits(side, prices, i);
        DropEmptyPrice(side, prices, queues, i);
        levels, prices := levels - {price}, RemoveFirst(prices, price);
        assert Queues() == queues - {price};
      }
    }

    /** Take the orders carrying an id out of the queue of its price. */
    method Unqueue(order: EngineOrder)
      requires Loose() && order in resting
      modifies this`resting, levels[order.price]
      ensures Loose() && resting == old(resting) - {order}
      ensures View() == Without(old(View()), order.id)
    {
      hide Flat, Strict, PriceLevel.Valid, PriceLevel.View, Without;
      ghost var queues, price := Queues(), order.price;
      forall p | p in levels && p != price ensures levels[p] != levels[price] {
        assert levels[p].price != levels[price].price;
      }
      forall p | p in queues && p != price
        ensures order !in levels[p].Members() && forall o: Order :: o in queues[p] ==> o.id != order.id
      {
        IdElsewhere(p, order);
      }
      RemoveIsWithout(side, prices, queues, price, order.id);
      levels[order.price].RemoveOrder(order, side);
      resting := resting - {order};
      assert Queues() == queues[price := Without(QueueAt(queues, price), order.id)];
    }

    lemma IdElsewhere(p: real, order: EngineOrder)
      requires Loose() && order in resting && p in levels && p != order.price
      ensures order !in levels[p].Members()
      ensures forall o :: o in levels[p].View() ==> o.id != order.id
    {
      assert levels[p].Valid(side);
      forall o | o in levels[p].View() ensures o.id != order.id {
        var i :| 0 <= i < |levels[p].View()| && levels[p].View()[i] == o;
        var x := levels[p].orders[i];
        assert x in levels[p].orders;
        assert x in levels[p].Members() && x.price == p;
      }
    }

    method Remove(order: EngineOrder)
      requires Valid() && order in resting
      modifies this, levels.Values
      ensures Valid() && resting == old(resting) - {order}
      ensures levels.Values <= old(levels.Values)
      ensures View() == Without(old(View()), order.id)
    {
      hide Flat, Strict, Without;
      Unqueue(order);
      DropIfEmpty(order.price);
    }

    /** The head of the sequence is the head of the first level's queue. */
    lemma HeadIs()
      requires Valid()
      ensures prices == [] <==> View() == []
      ensures prices != [] ==>
        && prices[0] in levels && levels[prices[0]].View() != []
        && View() == levels[prices[0]].View() + Flat(prices[1..], Queues())
    {
      if prices != [] {
        assert prices[0] in prices;
        levels[prices[0]].EmptyView();
      }
    }

    /** The sequence holds exactly the values of the resting orders. */
    lemma ViewMembers()
      requires Valid()
      ensures forall o :: o in resting ==> o.Value() in View()
      ensures forall v :: v in View() ==> exists o :: o in resting && o.Value() == v
    {
      FlatMembers(prices, Queues());
      forall o | o in resting ensures o.Value() in View() {
        var level := levels[o.price];
        var i :| 0 <= i < |level.orders| && level.orders[i] == o;
        assert level.View()[i] == o.Value();
        var k :| 0 <= k < |prices| && prices[k] == o.price;
        assert o.Value() in QueueAt(Queues(), prices[k]);
      }
      forall v | v in View() ensures exists o :: o in resting && o.Value() == v {
        var k :| 0 <= k < |prices| && v in QueueAt(Queues(), prices[k]);
        var level := levels[prices[k]];
        var i :| 0 <= i < |level.View()| && level.View()[i] == v;
        assert level.orders[i] in level.orders && level.orders[i] in level.Members();
      }
    }

    method PeekBest() returns (order: EngineOrder?)
      requires Valid()
      ensures order == null <==> View() == []
      ensures order != null ==> order in resting && order.Value() == View()[0]
    {
      HeadIs();
      if prices == [] {
        return null;
      }
      order := levels[prices[0]].PeekBest();
    }

    /** The first listed price, or 0.0 when there is none, is the price of the best order. */
    method BestPrice() returns (price: real)
      requires Valid()
      ensures price == if View() == [] then 0.0 else View()[0].price
    {
      HeadIs();
      if prices == [] {
        return 0.0;
      }
      assert levels[prices[0]].View()[0] == levels[prices[0]].orders[0].Value();
      levels[prices[0]].MembersPriced(side);
      price := prices[0];
    }

    /** Take the head of the best queue. */
    method PopQueue() returns (order: EngineOrder)
      requires Valid() && prices != [] && prices[0] in levels
      modifies this`resting, levels[prices[0]]
      ensures Loose() && order in old(resting) && resting == old(resting) - {order}
      ensures order.price == prices[0]
      ensures old(View()) == [old(order.Value())] + View()
      ensures forall p :: p in levels && p != prices[0] ==> levels[p].orders == old(levels[p].orders)
    {
      hide Flat, Strict, PriceLevel.Valid, PriceLevel.View;
      HeadIs();
      ghost var queues, price := Queues(), prices[0];
      forall p | p in levels && p != price ensures levels[p] != levels[price] {
        assert levels[p].price != levels[price].price;
      }
      forall p | p in levels ensures forall o :: o in levels[p].Members() ==> o.price == p {
        levels[p].MembersPriced(side);
      }
      var popped := levels[prices[0]].PopBest(side);
      order := popped;
      resting := resting - {order};
      assert Queues() == queues[price := levels[price].View()];
      FlatSplit(side, prices, queues, 0);
      FlatHead(prices, queues, levels[price].View());
    }

    /** Pop the best-priority order; the price goes with its last order. */
    method PopBest() returns (order: EngineOrder?)
      requires Valid()
      modifies this, levels.Values
      ensures Valid() && levels.Values <= old(levels.Values)
      ensures old(View()) == [] ==> order == null && View() == [] && resting == old(resting)
      ensures old(View()) != [] ==>
        && order != null && order in old(resting) && resting == old(resting) - {order}
        && old(View()) == [old(order.Value())] + View()
    {
      hide Flat, Strict, PriceLevel.Valid, PriceLevel.View, PriceLevel.Members;
      HeadIs();
      if prices == [] {
        return null;
      }
      var best := prices[0];
      order := PopQueue();
      DropIfEmpty(best);
    }
  }

  lemma FlatHead(prices: seq<real>, levels: Levels.Queues, q: seq<Order>)
    requires prices != []
    requires Flat(prices, levels[prices[0] := q]) == Flat(prices[..0], levels) + q + Flat(prices[1..], levels)
    requires Flat(prices, levels) == Flat(prices[..0], levels) + QueueAt(levels, prices[0]) + Flat(prices[1..], levels)
    requires QueueAt(levels, prices[0]) != [] && QueueAt(levels, prices[0])[1..] == q
    ensures Flat(prices, levels) == [QueueAt(levels, prices[0])[0]] + Flat(prices, levels[prices[0] := q])
  {
    hide QueueAt;
    assert Flat(prices[..0], levels) == [];
    HeadThen(QueueAt(levels, prices[0]), q, Flat(prices[1..], levels));
    hide Flat;
  }

  lemma HeadThen(queue: seq<Order>, q: seq<Order>, rest: seq<Order>)
    requires queue != [] && queue[1..] == q
    ensures [] + queue + rest == [queue[0]] + ([] + q + rest)
  {
    assert queue == [queue[0]] + q;
  }
}
