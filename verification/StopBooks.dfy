/** Stop queues: a map from stop price to the stops waiting there, spelled out in trigger order. */
module StopBooks {
  import opened Orders
  import opened Priority
  import opened Levels
  import opened BookSides

  type StopTable = map<real, seq<EngineOrder>>

  lemma SomeKey(keys: set<real>)
    ensures keys == {} || exists k :: k in keys
  {
    if !exists k :: k in keys { assert keys == {}; }
  }

  lemma BeforeChain(side: Side, a: real, b: real, c: real)
    ensures Before(side, a, b) && (b == c || Before(side, b, c)) ==> Before(side, a, c)
    ensures a == b || Before(side, a, b) || Before(side, b, a)
  {
  }

  lemma {:induction false} BestOf(side: Side, keys: set<real>) returns (m: real)
    requires keys != {}
    ensures m in keys && forall k :: k in keys ==> k == m || Before(side, m, k)
    decreases |keys|
  {
    hide Before;
    SomeKey(keys);
    var x :| x in keys;
    var rest := keys - {x};
    if rest == {} {
      m := x;
      forall k | k in keys ensures k == x {
        assert k == x || k in rest;
      }
    } else {
      var other := BestOf(side, rest);
      m := if Before(side, x, other) then x else other;
      forall k | k in keys ensures k == m || Before(side, m, k) {
        if k != x { assert k in rest; }
        BeforeChain(side, x, other, k);
      }
    }
  }

  lemma BestExists(side: Side, keys: set<real>)
    requires keys != {}
    ensures exists m :: m in keys && forall k :: k in keys ==> k == m || Before(side, m, k)
  {
    hide Before;
    var m := BestOf(side, keys);
  }

  /** The prices of a set, best first. */
  ghost function SortedKeys(side: Side, keys: set<real>): (r: seq<real>)
    ensures Strict(side, r) && forall k :: k in r <==> k in keys
    decreases |keys|
  {
    if keys == {} then []
    else
      BestExists(side, keys);
      var m :| m in keys && forall k :: k in keys ==> k == m || Before(side, m, k);
      var rest := SortedKeys(side, keys - {m});
      assert forall j :: 0 <= j < |rest| ==> rest[j] in keys - {m};
      [m] + rest
  }

  lemma NoMembers(a: seq<real>)
    ensures a == [] || exists k :: k in a
  {
    if a != [] {
      var k: real := a[0];
      assert k in a;
    }
  }

  lemma {:induction false} StrictUnique(side: Side, a: seq<real>, b: seq<real>)
    requires Strict(side, a) && Strict(side, b) && forall k :: k in a <==> k in b
    ensures a == b
  {
    if a == [] || b == [] {
      NoMembers(a);
      NoMembers(b);
    } else {
      assert a[0] in a && b[0] in b;
      var i :| 0 <= i < |b| && b[i] == a[0];
      var j :| 0 <= j < |a| && a[j] == b[0];
      assert a[0] == b[0];
      TailKeys(side, a);
      TailKeys(side, b);
      StrictUnique(side, a[1..], b[1..]);
    }
  }

  lemma TailKeys(side: Side, a: seq<real>)
    requires Strict(side, a) && a != []
    ensures Strict(side, a[1..]) && forall k :: k in a[1..] <==> k in a && k != a[0]
  {
    assert a == [a[0]] + a[1..];
  }

  /** Sort a set of prices. */
  method SortPrices(side: Side, keys: set<real>) returns (r: seq<real>)
    ensures r == SortedKeys(side, keys)
  {
    r := [];
    var todo := keys;
    while todo != {}
      invariant todo <= keys && Strict(side, r)
      invariant forall k :: k in r <==> k in keys && k !in todo
    {
      SomeKey(todo);
      var k :| k in todo;
      var r', _ := InsertSorted(side, r, k);
      r := r';
      todo := todo - {k};
    }
    StrictUnique(side, r, SortedKeys(side, keys));
  }

  ghost predicate StopsFiled(side: Side, stops: StopTable, waiting: set<EngineOrder>)
  {
    forall p, i :: p in stops && 0 <= i < |stops[p]| ==>
      stops[p][i] in waiting && stops[p][i].stopPrice == p && stops[p][i].side == side
  }

  ghost function StopQueues(side: Side, stops: StopTable, waiting: set<EngineOrder>): Queues
    requires StopsFiled(side, stops, waiting)
    reads waiting
  {
    map p | p in stops :: (assert forall o :: o in stops[p] ==> o in waiting; Values(stops[p]))
  }

  /** The stops of one side in trigger order. */
  ghost function StopView(side: Side, stops: StopTable, waiting: set<EngineOrder>): seq<Order>
    requires StopsFiled(side, stops, waiting)
    reads waiting
  {
    Flat(SortedKeys(side, stops.Keys), StopQueues(side, stops, waiting))
  }

  lemma StopsKeyed(side: Side, stops: StopTable, waiting: set<EngineOrder>)
    requires StopsFiled(side, stops, waiting)
    ensures Keyed(ByStop, StopQueues(side, stops, waiting))
  {
  }

  /** A stop filed in a queue shows in the view. */
  lemma StopShows(side: Side, stops: StopTable, waiting: set<EngineOrder>, p: real, i: nat)
    requires StopsFiled(side, stops, waiting) && p in stops && i < |stops[p]|
    ensures stops[p][i].Value() in StopView(side, stops, waiting)
  {
    var prices, queues := SortedKeys(side, stops.Keys), StopQueues(side, stops, waiting);
    FlatMembers(prices, queues);
    assert p in prices;
    var k :| 0 <= k < |prices| && prices[k] == p;
    assert QueueAt(queues, prices[k])[i] == stops[p][i].Value();
    assert stops[p][i].Value() in QueueAt(queues, prices[k]);
  }

  /** Only the orders filed matter to the view. */
  lemma StopViewWider(side: Side, stops: StopTable, a: set<EngineOrder>, b: set<EngineOrder>)
    requires StopsFiled(side, stops, a) && a <= b
    ensures StopsFiled(side, stops, b) && StopView(side, stops, b) == StopView(side, stops, a)
  {
    assert StopQueues(side, stops, b) == StopQueues(side, stops, a);
  }

  function WithStop(stops: StopTable, order: EngineOrder): StopTable {
    stops[order.stopPrice := (if order.stopPrice in stops then stops[order.stopPrice] else []) + [order]]
  }

  lemma WithStopQueues(side: Side, stops: StopTable, order: EngineOrder, waiting: set<EngineOrder>)
    requires StopsFiled(side, stops, waiting) && order in waiting && order.side == side
    ensures StopsFiled(side, WithStop(stops, order), waiting)
    ensures var queues := StopQueues(side, stops, waiting);
      StopQueues(side, WithStop(stops, order), waiting)
        == queues[order.stopPrice := QueueAt(queues, order.stopPrice) + [order.Value()]]
  {
    hide Values;
    var queue := if order.stopPrice in stops then stops[order.stopPrice] else [];
    ValuesAppend(queue, [order]);
    ValuesSingle(order);
    ValuesEmpty(map[]);
  }

  /** Appending a stop at its price enqueues it in trigger order. */
  lemma AddStopIsInsert(side: Side, stops: StopTable, order: EngineOrder, waiting: set<EngineOrder>)
    requires StopsFiled(side, stops, waiting) && order in waiting && order.side == side
    ensures StopsFiled(side, WithStop(stops, order), waiting)
    ensures StopView(side, WithStop(stops, order), waiting)
         == Insert(ByStop, side, StopView(side, stops, waiting), order.Value())
  {
    hide Flat, Insert, StopQueues, Strict, Keyed, SortedKeys;
    var k, stops' := order.stopPrice, WithStop(stops, order);
    var queues := StopQueues(side, stops, waiting);
    var prices, prices' := SortedKeys(side, stops.Keys), SortedKeys(side, stops'.Keys);
    StopsKeyed(side, stops, waiting);
    assert stops'.Keys == stops.Keys + {k};
    assert Flat(prices', queues) == Flat(prices, queues) by {
      if k in stops {
        assert stops'.Keys == stops.Keys;
      } else {
        assert QueueAt(queues, k) == [] by { Unqueued(side, stops, waiting, k); }
        NewStopPrice(side, prices, prices', queues, k);
      }
    }
    EnqueueIsInsert(ByStop, side, prices', queues, order.Value());
    WithStopQueues(side, stops, order, waiting);
  }

  lemma Unqueued(side: Side, stops: StopTable, waiting: set<EngineOrder>, k: real)
    requires StopsFiled(side, stops, waiting) && k !in stops
    ensures QueueAt(StopQueues(side, stops, waiting), k) == []
  {
  }

  lemma NewStopPrice(side: Side, prices: seq<real>, prices': seq<real>, queues: Queues, k: real)
    requires Strict(side, prices) && Strict(side, prices') && k !in prices && QueueAt(queues, k) == []
    requires forall p :: p in prices' <==> p == k || p in prices
    ensures Flat(prices', queues) == Flat(prices, queues)
  {
    assert k in prices';
    var i :| 0 <= i < |prices'| && prices'[i] == k;
    var rest := prices'[..i] + prices'[i + 1..];
    StrictWithout(side, prices', i);
    assert prices' == prices'[..i] + [k] + prices'[i + 1..];
    StrictUnique(side, rest, prices);
    assert prices[..i] == prices'[..i] && prices[i..] == prices'[i + 1..];
    ListEmptyPrice(prices, queues, i, k);
  }

  /** Take the queues at the given prices out of the map, one after the other. */
  method TakeQueues(side: Side, stops: StopTable, prices: seq<real>, ghost waiting: set<EngineOrder>)
      returns (taken: seq<EngineOrder>, rest: StopTable)
    requires StopsFiled(side, stops, waiting)
    requires Strict(side, prices) && forall p :: p in prices ==> p in stops
    ensures forall o :: o in taken ==> o in waiting
    ensures Values(taken) == Flat(prices, StopQueues(side, stops, waiting))
    ensures rest == map p | p in stops && p !in prices :: stops[p]
  {
    hide Flat, Values;
    ghost var queues := StopQueues(side, stops, waiting);
    taken, rest := [], stops;
    ValuesEmpty(queues);
    assert prices[..0] == [];
    for i := 0 to |prices|
      invariant rest == map p | p in stops && p !in prices[..i] :: stops[p]
      invariant forall o :: o in taken ==> o in waiting
      invariant Values(taken) == Flat(prices[..i], queues)
    {
      var sp := prices[i];
      assert sp in prices;
      assert prices[..i + 1] == prices[..i] + [sp];
      forall j | 0 <= j < i ensures prices[j] != sp {
        assert Before(side, prices[j], prices[i]);
      }
      FlatAppend(prices[..i], [sp], queues);
      FlatOne(sp, queues);
      ValuesAppend(taken, rest[sp]);
      taken := taken + rest[sp];
      rest := rest - {sp};
    }
    assert prices[..|prices|] == prices;
  }

  /** Take every stop the last price triggers, best stop price first. */
  method TakeFired(side: Side, stops: StopTable, last: real, ghost waiting: set<EngineOrder>)
      returns (fired: seq<EngineOrder>, rest: StopTable)
    requires StopsFiled(side, stops, waiting)
    ensures StopsFiled(side, rest, waiting) && forall o :: o in fired ==> o in waiting
    ensures Values(fired) == Fired(side, StopView(side, stops, waiting), last)
    ensures StopView(side, rest, waiting) == Unfired(side, StopView(side, stops, waiting), last)
  {
    hide Flat, Values, StopsFiled, Strict, FiredPrices, Fired, Unfired, SortedKeys, Fires;
    StopsKeyed(side, stops, waiting);
    var prices := SortPrices(side, stops.Keys);
    var firedPrices := FiredPrices(side, prices, last);
    FiredPricesMembers(side, prices, last);
    FiredPricesStrict(side, prices, last);
    FiredIsFlat(side, prices, StopQueues(side, stops, waiting), last);
    fired, rest := TakeQueues(side, stops, firedPrices, waiting);
    assert rest == map p | p in stops && !Fires(side, p, last) :: stops[p];
    RestIsUnfired(side, stops, rest, last, waiting);
  }

  lemma ValuesEmpty(queues: Queues)
    ensures Values([]) == Flat([], queues) == []
  {
  }

  lemma ValuesSingle(o: EngineOrder)
    ensures Values([o]) == [o.Value()]
  {
  }

  lemma ValuesAppend(a: seq<EngineOrder>, b: seq<EngineOrder>)
    ensures Values(a + b) == Values(a) + Values(b)
  {
  }

  lemma {:induction false} FiredPricesStrict(side: Side, prices: seq<real>, last: real)
    requires Strict(side, prices)
    ensures Strict(side, FiredPrices(side, prices, last))
  {
    if prices == [] {
    } else {
      FiredPricesStrict(side, prices[1..], last);
      FiredPricesMembers(side, prices[1..], last);
      var r := FiredPrices(side, prices[1..], last);
      forall j | 0 <= j < |r| ensures Before(side, prices[0], r[j]) {
        assert r[j] in r;
        var i :| 0 <= i < |prices[1..]| && prices[1..][i] == r[j];
        assert prices[i + 1] == r[j];
      }
    }
  }

  lemma RestIsUnfired(side: Side, stops: StopTable, rest: StopTable, last: real, waiting: set<EngineOrder>)
    requires StopsFiled(side, stops, waiting)
    requires rest == map p | p in stops && !Fires(side, p, last) :: stops[p]
    ensures StopsFiled(side, rest, waiting)
    ensures StopView(side, rest, waiting) == Unfired(side, StopView(side, stops, waiting), last)
  {
    hide Flat, Unfired, Values;
    var queues, queues' := StopQueues(side, stops, waiting), StopQueues(side, rest, waiting);
    var prices := SortedKeys(side, stops.Keys);
    StopsKeyed(side, stops, waiting);
    UnfiredIsFlat(side, prices, queues, queues', last);
    DropUnlisted(side, prices, SortedKeys(side, rest.Keys), queues');
  }

  /** Prices without a queue add nothing. */
  lemma {:induction false} DropUnlisted(side: Side, prices: seq<real>, listed: seq<real>, queues: Queues)
    requires Strict(side, prices) && Strict(side, listed)
    requires forall p :: p in listed <==> p in prices && p in queues
    ensures Flat(prices, queues) == Flat(listed, queues)
    decreases |prices|
  {
    if prices == [] {
      NoMembers(listed);
    } else {
      TailKeys(side, prices);
      if prices[0] in queues {
        assert prices[0] in listed;
        var i :| 0 <= i < |listed| && listed[i] == prices[0];
        assert listed[0] in listed;
        var j :| 0 <= j < |prices| && prices[j] == listed[0];
        assert listed[0] == prices[0];
        TailKeys(side, listed);
        DropUnlisted(side, prices[1..], listed[1..], queues);
      } else {
        DropUnlisted(side, prices[1..], listed, queues);
      }
    }
  }
}
