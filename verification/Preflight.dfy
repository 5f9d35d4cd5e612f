/** Why summing level totals from the best price decides fill-or-kill. */
module Preflight {
  import opened Orders
  import opened Sums
  import opened Priority
  import opened Matching
  import opened Levels

  lemma CrossingAppend(a: seq<Order>, b: seq<Order>, taker: Side, bound: Bound)
    ensures CrossingDepth(a + b, taker, bound) == CrossingDepth(a, taker, bound) + CrossingDepth(b, taker, bound)
  {
    assert CrossingRests(a + b, taker, bound) == CrossingRests(a, taker, bound) + CrossingRests(b, taker, bound);
    TotalAppend(CrossingRests(a, taker, bound), CrossingRests(b, taker, bound));
  }

  lemma {:induction false} NotionalAtPrice(q: seq<Order>, price: real)
    requires forall o :: o in q ==> o.price == price
    ensures Notional(q) == Mul(price, Depth(q))
  {
    hide Mul;
    if q == [] {
      MulZero(price);
    } else {
      assert q == [q[0]] + q[1..];
      NotionalAtPrice(q[1..], price);
      DepthCons(q[0], q[1..]);
      MulSum(price, q[0].Remaining(), Depth(q[1..]));
    }
  }

  /** One more price adds its queue's total, and its queue's worth at that price. */
  lemma PrefixGrows(prices: seq<real>, queues: Queues, i: nat)
    requires i < |prices| && Keyed(ByPrice, queues)
    ensures var q := QueueAt(queues, prices[i]);
      var before, after := Flat(prices[..i], queues), Flat(prices[..i + 1], queues);
      && Depth(after) == Depth(before) + Depth(q)
      && Notional(after) == Notional(before) + Mul(prices[i], Depth(q))
  {
    hide Flat, Mul;
    var q := QueueAt(queues, prices[i]);
    assert prices[..i + 1] == prices[..i] + [prices[i]];
    FlatAppend(prices[..i], [prices[i]], queues);
    FlatOne(prices[i], queues);
    DepthAppend(Flat(prices[..i], queues), q);
    forall o | o in q ensures o.price == prices[i] {
      var j :| 0 <= j < |q| && q[j] == o;
      assert ByPrice.Key(queues[prices[i]][j]) == prices[i];
    }
    NotionalAtPrice(q, prices[i]);
  }

  lemma FiledAt(prices: seq<real>, queues: Queues, j: nat) returns (k: nat)
    requires Keyed(ByPrice, queues) && j < |Flat(prices, queues)|
    ensures k < |prices| && Flat(prices, queues)[j].price == prices[k]
  {
    FlatKeys(ByPrice, prices, queues);
    var o := Flat(prices, queues)[j];
    assert o in Flat(prices, queues);
    k :| 0 <= k < |prices| && prices[k] == ByPrice.Key(o);
  }

  lemma CrossingPrefix(prices: seq<real>, queues: Queues, taker: Side, bound: Bound)
    requires Keyed(ByPrice, queues) && forall j :: 0 <= j < |prices| ==> Crosses(taker, bound, prices[j])
    ensures CrossingDepth(Flat(prices, queues), taker, bound) == Depth(Flat(prices, queues))
  {
    hide Flat;
    var a := Flat(prices, queues);
    forall j | 0 <= j < |a| ensures Crosses(taker, bound, a[j].price) {
      var k := FiledAt(prices, queues, j);
    }
    assert CrossingRests(a, taker, bound) == Rests(a);
  }

  lemma CrossingTail(prices: seq<real>, queues: Queues, taker: Side, bound: Bound)
    requires Strict(taker.Opposite(), prices) && Keyed(ByPrice, queues)
    requires prices != [] ==> !Crosses(taker, bound, prices[0])
    ensures CrossingDepth(Flat(prices, queues), taker, bound) == 0.0
  {
    hide Flat;
    var b := Flat(prices, queues);
    forall j | 0 <= j < |b| ensures CrossingRests(b, taker, bound)[j] == 0.0 {
      var k := FiledAt(prices, queues, j);
      assert k > 0 ==> Before(taker.Opposite(), prices[0], prices[k]);
    }
    TotalZero(CrossingRests(b, taker, bound));
  }

  /** Up to a price that crosses, the whole depth is reachable; past one that does not, none of it is. */
  lemma ReachableDepth(prices: seq<real>, queues: Queues, i: nat, taker: Side, bound: Bound)
    requires i <= |prices| && Strict(taker.Opposite(), prices) && Keyed(ByPrice, queues)
    requires forall o :: o in Flat(prices, queues) ==> o.Remaining() > 0.0
    requires forall j :: 0 <= j < i ==> Crosses(taker, bound, prices[j])
    ensures CrossingDepth(Flat(prices, queues), taker, bound) >= Depth(Flat(prices[..i], queues))
    ensures i == |prices| || !Crosses(taker, bound, prices[i]) ==>
      CrossingDepth(Flat(prices, queues), taker, bound) == Depth(Flat(prices[..i], queues))
  {
    hide Flat, Depth, CrossingDepth, Keyed, Order.Remaining;
    var a, b := Flat(prices[..i], queues), Flat(prices[i..], queues);
    assert prices == prices[..i] + prices[i..];
    FlatAppend(prices[..i], prices[i..], queues);
    CrossingAppend(a, b, taker, bound);
    CrossingPrefix(prices[..i], queues, taker, bound);
    assert forall o :: o in b ==> o in a + b;
    CrossingNonneg(b, taker, bound);
    if i == |prices| || !Crosses(taker, bound, prices[i]) {
      CrossingTail(prices[i..], queues, taker, bound);
    }
  }

  lemma ReachableWorth(prices: seq<real>, queues: Queues, i: nat)
    requires i <= |prices| && forall o :: o in Flat(prices, queues) ==> o.Remaining() > 0.0 && o.price > 0.0
    ensures Notional(Flat(prices, queues)) >= Notional(Flat(prices[..i], queues))
    ensures i == |prices| ==> Notional(Flat(prices, queues)) == Notional(Flat(prices[..i], queues))
  {
    hide Flat, Mul;
    var a, b := Flat(prices[..i], queues), Flat(prices[i..], queues);
    assert prices == prices[..i] + prices[i..];
    FlatAppend(prices[..i], prices[i..], queues);
    DepthAppend(a, b);
    assert forall o :: o in b ==> o in a + b;
    NotionalNonneg(b);
    if i == |prices| { assert prices[..i] == prices; }
  }

  lemma FlatNone(queues: Queues)
    ensures Flat([], queues) == [] && Depth([]) == 0.0 == Notional([])
  {
  }
}
