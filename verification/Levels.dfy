/** How the indexed book (a sorted list of prices and a map from price to queue) spells out one flat
    priority sequence, and why each indexed update is one update of that sequence. */
module Levels {
  import opened Orders
  import opened Priority

  type Queues = map<real, seq<Order>>

  function QueueAt(levels: Queues, price: real): seq<Order> {
    if price in levels then levels[price] else []
  }

  function Flat(prices: seq<real>, levels: Queues): seq<Order> {
    if prices == [] then [] else QueueAt(levels, prices[0]) + Flat(prices[1..], levels)
  }

  ghost predicate Strict(side: Side, prices: seq<real>) {
    forall i, j :: 0 <= i < j < |prices| ==> Before(side, prices[i], prices[j])
  }

  ghost predicate Keyed(rank: Rank, levels: Queues) {
    forall p, i :: p in levels && 0 <= i < |levels[p]| ==> rank.Key(levels[p][i]) == p
  }

  lemma {:induction false} FlatAppend(a: seq<real>, b: seq<real>, levels: Queues)
    ensures Flat(a + b, levels) == Flat(a, levels) + Flat(b, levels)
  {
    if a == [] {
      assert a + b == b;
    } else {
      assert (a + b)[1..] == a[1..] + b;
      FlatAppend(a[1..], b, levels);
    }
  }

  lemma {:induction false} FlatMembers(prices: seq<real>, levels: Queues)
    ensures forall o :: o in Flat(prices, levels) <==> exists i :: 0 <= i < |prices| && o in QueueAt(levels, prices[i])
  {
    if prices == [] {
    } else {
      FlatMembers(prices[1..], levels);
      var tail := prices[1..];
      forall o ensures o in Flat(prices, levels) <==> exists i :: 0 <= i < |prices| && o in QueueAt(levels, prices[i]) {
        if o in Flat(tail, levels) {
          var i :| 0 <= i < |tail| && o in QueueAt(levels, tail[i]);
          assert o in QueueAt(levels, prices[i + 1]);
        }
        if i :| 0 <= i < |prices| && o in QueueAt(levels, prices[i]) {
          if i > 0 { assert o in QueueAt(levels, tail[i - 1]); }
        }
      }
    }
  }

  lemma {:induction false} FlatSame(prices: seq<real>, a: Queues, b: Queues)
    requires forall i :: 0 <= i < |prices| ==> QueueAt(a, prices[i]) == QueueAt(b, prices[i])
    ensures Flat(prices, a) == Flat(prices, b)
  {
    if prices == [] {
    } else {
      FlatSame(prices[1..], a, b);
    }
  }

  lemma FlatSplit(side: Side, prices: seq<real>, levels: Queues, i: nat)
    requires Strict(side, prices) && i < |prices|
    ensures Flat(prices, levels)
         == Flat(prices[..i], levels) + QueueAt(levels, prices[i]) + Flat(prices[i + 1..], levels)
    ensures forall q :: Flat(prices, levels[prices[i] := q])
                     == Flat(prices[..i], levels) + q + Flat(prices[i + 1..], levels)
  {
    assert prices == prices[..i] + ([prices[i]] + prices[i + 1..]);
    forall m: Queues
      ensures Flat(prices, m) == Flat(prices[..i], m) + QueueAt(m, prices[i]) + Flat(prices[i + 1..], m)
    {
      FlatAppend(prices[..i], [prices[i]] + prices[i + 1..], m);
      assert ([prices[i]] + prices[i + 1..])[1..] == prices[i + 1..];
    }
    forall q ensures Flat(prices, levels[prices[i] := q])
                  == Flat(prices[..i], levels) + q + Flat(prices[i + 1..], levels)
    {
      FlatSame(prices[..i], levels, levels[prices[i] := q]);
      FlatSame(prices[i + 1..], levels, levels[prices[i] := q]);
    }
  }

  lemma FlatKeys(rank: Rank, prices: seq<real>, levels: Queues)
    requires Keyed(rank, levels)
    ensures forall o :: o in Flat(prices, levels) ==> rank.Key(o) in prices
  {
    FlatMembers(prices, levels);
    forall o | o in Flat(prices, levels) ensures rank.Key(o) in prices {
      var i :| 0 <= i < |prices| && o in QueueAt(levels, prices[i]);
    }
  }

  /** A price list in strict order with queues filed under their own price is in priority order. */
  lemma {:induction false} FlatOrdered(rank: Rank, side: Side, prices: seq<real>, levels: Queues)
    requires Strict(side, prices) && Keyed(rank, levels)
    ensures Ordered(rank, side, Flat(prices, levels))
  {
    if prices == [] {
    } else {
      FlatOrdered(rank, side, prices[1..], levels);
      FlatKeys(rank, prices[1..], levels);
      var q, t := QueueAt(levels, prices[0]), Flat(prices[1..], levels);
      forall o | o in t ensures Before(side, prices[0], rank.Key(o)) {
        var j :| 0 <= j < |prices[1..]| && prices[1..][j] == rank.Key(o);
        assert prices[j + 1] == rank.Key(o);
      }
      forall i, j | 0 <= i < j < |q + t| ensures !Before(side, rank.Key((q + t)[j]), rank.Key((q + t)[i])) {
        if j >= |q| { assert (q + t)[j] in t; }
      }
    }
  }

  /** Around the i-th price: everything filed before it is better, everything after it worse. */
  lemma KeySides(rank: Rank, side: Side, prices: seq<real>, levels: Queues, i: nat)
    requires Strict(side, prices) && Keyed(rank, levels) && i < |prices|
    ensures forall o :: o in Flat(prices[..i], levels) ==> Before(side, rank.Key(o), prices[i])
    ensures forall o :: o in Flat(prices[i + 1..], levels) ==> Before(side, prices[i], rank.Key(o))
  {
    hide Flat;
    FlatKeys(rank, prices[..i], levels);
    FlatKeys(rank, prices[i + 1..], levels);
    forall o | o in Flat(prices[i + 1..], levels) ensures Before(side, prices[i], rank.Key(o)) {
      var n :| 0 <= n < |prices[i + 1..]| && prices[i + 1..][n] == rank.Key(o);
      assert prices[i + 1 + n] == rank.Key(o);
    }
  }

  /** Appending to the queue at an order's own price is enqueueing it by priority. */
  lemma EnqueueIsInsert(rank: Rank, side: Side, prices: seq<real>, levels: Queues, o: Order)
    requires Strict(side, prices) && Keyed(rank, levels) && rank.Key(o) in prices
    ensures var k := rank.Key(o);
      Flat(prices, levels[k := QueueAt(levels, k) + [o]]) == Insert(rank, side, Flat(prices, levels), o)
  {
    hide Flat, Insert;
    var k := rank.Key(o);
    var i :| 0 <= i < |prices| && prices[i] == k;
    FlatSplit(side, prices, levels, i);
    KeySides(rank, side, prices, levels, i);
    var a, q, b := Flat(prices[..i], levels), QueueAt(levels, k), Flat(prices[i + 1..], levels);
    forall j | 0 <= j < |a + q| ensures !Before(side, k, rank.Key((a + q)[j])) {
      if j < |a| { assert a[j] in a; }
    }
    if b != [] { assert b[0] in b; }
    InsertBetween(rank, side, a + q, b, o);
    assert a + q + [o] + b == a + (q + [o]) + b;
  }

  lemma FlatOne(price: real, levels: Queues)
    ensures Flat([price], levels) == QueueAt(levels, price)
  {
    assert [price][1..] == [];
  }

  /** Listing a price whose queue is empty changes nothing. */
  lemma ListEmptyPrice(prices: seq<real>, levels: Queues, i: nat, price: real)
    requires i <= |prices| && QueueAt(levels, price) == []
    ensures Flat(prices[..i] + [price] + prices[i..], levels) == Flat(prices, levels)
  {
    hide Flat;
    assert prices == prices[..i] + prices[i..];
    FlatAppend(prices[..i], prices[i..], levels);
    FlatAppend(prices[..i] + [price], prices[i..], levels);
    FlatAppend(prices[..i], [price], levels);
    FlatOne(price, levels);
  }

  function RemoveFirst(prices: seq<real>, price: real): seq<real> {
    if prices == [] then []
    else if prices[0] == price then prices[1..]
    else [prices[0]] + RemoveFirst(prices[1..], price)
  }

  lemma {:induction false} RemoveFirstAt(prices: seq<real>, i: nat)
    requires i < |prices| && forall j :: 0 <= j < i ==> prices[j] != prices[i]
    ensures RemoveFirst(prices, prices[i]) == prices[..i] + prices[i + 1..]
  {
    if i > 0 {
      RemoveFirstAt(prices[1..], i - 1);
      assert [prices[0]] + prices[1..][..i - 1] == prices[..i];
      assert prices[1..][i..] == prices[i + 1..];
    }
  }

  lemma StrictWithout(side: Side, prices: seq<real>, i: nat)
    requires Strict(side, prices) && i < |prices|
    ensures Strict(side, prices[..i] + prices[i + 1..])
    ensures forall p :: p in prices[..i] + prices[i + 1..] ==> p in prices && p != prices[i]
  {
    var r := prices[..i] + prices[i + 1..];
    forall j | 0 <= j < |r| ensures r[j] == prices[if j < i then j else j + 1] {}
  }

  lemma RemoveFirstSplits(side: Side, prices: seq<real>, i: nat)
    requires Strict(side, prices) && i < |prices|
    ensures RemoveFirst(prices, prices[i]) == prices[..i] + prices[i + 1..]
    ensures Strict(side, RemoveFirst(prices, prices[i]))
    ensures forall p :: p in RemoveFirst(prices, prices[i]) <==> p in prices && p != prices[i]
  {
    hide RemoveFirst;
    RemoveFirstAt(prices, i);
    StrictWithout(side, prices, i);
    WithoutOne(side, prices, i);
  }

  lemma WithoutOne(side: Side, prices: seq<real>, i: nat)
    requires Strict(side, prices) && i < |prices|
    ensures forall p :: p in prices[..i] + prices[i + 1..] <==> p in prices && p != prices[i]
  {
    var rest := prices[i + 1..];
    forall p | p in prices && p != prices[i] ensures p in prices[..i] || p in rest {
      var j :| 0 <= j < |prices| && prices[j] == p;
      if j < i { assert prices[..i][j] == p; } else { assert rest[j - i - 1] == p; }
    }
    forall j | 0 <= j < |rest| ensures rest[j] in prices && rest[j] != prices[i] {
      assert rest[j] == prices[i + 1 + j];
    }
  }

  /** Dropping a price whose queue is empty changes nothing. */
  lemma DropEmptyPrice(side: Side, prices: seq<real>, levels: Queues, i: nat)
    requires Strict(side, prices) && i < |prices| && QueueAt(levels, prices[i]) == []
    ensures Flat(RemoveFirst(prices, prices[i]), levels - {prices[i]}) == Flat(prices, levels)
  {
    hide Flat, RemoveFirst;
    RemoveFirstSplits(side, prices, i);
    FlatSame(RemoveFirst(prices, prices[i]), levels, levels - {prices[i]});
    FlatSplit(side, prices, levels, i);
    FlatAppend(prices[..i], prices[i + 1..], levels);
  }

  /** Removing an id from the only queue that holds it removes it from the sequence. */
  lemma RemoveIsWithout(side: Side, prices: seq<real>, levels: Queues, price: real, id: OrderId)
    requires Strict(side, prices) && price in prices
    requires forall p :: p in levels && p != price ==> forall o :: o in levels[p] ==> o.id != id
    ensures Flat(prices, levels[price := Without(QueueAt(levels, price), id)]) == Without(Flat(prices, levels), id)
  {
    var i :| 0 <= i < |prices| && prices[i] == price;
    FlatSplit(side, prices, levels, i);
    var a, q, b := Flat(prices[..i], levels), QueueAt(levels, price), Flat(prices[i + 1..], levels);
    FlatMembers(prices[..i], levels);
    FlatMembers(prices[i + 1..], levels);
    forall o | o in a ensures o.id != id {
      var n :| 0 <= n < i && o in QueueAt(levels, prices[..i][n]);
      assert Before(side, prices[n], prices[i]);
    }
    forall o | o in b ensures o.id != id {
      var n :| 0 <= n < |prices[i + 1..]| && o in QueueAt(levels, prices[i + 1..][n]);
      assert Before(side, prices[i], prices[i + 1 + n]);
    }
    WithoutAppend(a + q, b, id);
    WithoutAppend(a, q, id);
    WithoutAbsent(a, id);
    WithoutAbsent(b, id);
  }

  // ----- stop prices -----

  /** A stop fires when the last trade is at its price or beyond. */
  predicate Fires(side: Side, stopPrice: real, last: real) {
    if side.Buy? then stopPrice <= last else stopPrice >= last
  }

  function Fired(side: Side, s: seq<Order>, last: real): seq<Order> {
    if s == [] then []
    else if Fires(side, s[0].stopPrice, last) then [s[0]] + Fired(side, s[1..], last)
    else Fired(side, s[1..], last)
  }

  function Unfired(side: Side, s: seq<Order>, last: real): seq<Order> {
    if s == [] then []
    else if Fires(side, s[0].stopPrice, last) then Unfired(side, s[1..], last)
    else [s[0]] + Unfired(side, s[1..], last)
  }

  lemma {:induction false} FiredMembers(side: Side, s: seq<Order>, last: real)
    ensures forall o :: o in Fired(side, s, last) <==> o in s && Fires(side, o.stopPrice, last)
    ensures forall o :: o in Unfired(side, s, last) <==> o in s && !Fires(side, o.stopPrice, last)
    ensures multiset(Fired(side, s, last)) + multiset(Unfired(side, s, last)) == multiset(s)
    ensures |Fired(side, s, last)| + |Unfired(side, s, last)| == |s|
  {
    if s == [] {
    } else {
      FiredMembers(side, s[1..], last);
      assert s == [s[0]] + s[1..];
    }
  }

  lemma {:induction false} UnfiredOrdered(side: Side, s: seq<Order>, last: real)
    requires Ordered(ByStop, side, s)
    ensures Ordered(ByStop, side, Unfired(side, s, last))
  {
    if s == [] {
    } else {
      UnfiredOrdered(side, s[1..], last);
      FiredMembers(side, s[1..], last);
      var r := Unfired(side, s[1..], last);
      forall j | 0 <= j < |r| ensures !Before(side, ByStop.Key(r[j]), ByStop.Key(s[0])) {
        assert r[j] in s[1..];
      }
    }
  }

  lemma {:induction false} FiredAppend(side: Side, a: seq<Order>, b: seq<Order>, last: real)
    ensures Fired(side, a + b, last) == Fired(side, a, last) + Fired(side, b, last)
    ensures Unfired(side, a + b, last) == Unfired(side, a, last) + Unfired(side, b, last)
  {
    if a == [] {
      assert a + b == b;
    } else {
      assert (a + b)[1..] == a[1..] + b;
      FiredAppend(side, a[1..], b, last);
    }
  }

  lemma {:induction false} FiredQueue(side: Side, q: seq<Order>, price: real, last: real)
    requires forall o :: o in q ==> o.stopPrice == price
    ensures Fired(side, q, last) == if Fires(side, price, last) then q else []
    ensures Unfired(side, q, last) == if Fires(side, price, last) then [] else q
  {
    if q == [] {
    } else {
      FiredQueue(side, q[1..], price, last);
      assert q == [q[0]] + q[1..];
    }
  }

  /** The stop prices a trade at `last` triggers, in the order given. */
  function FiredPrices(side: Side, prices: seq<real>, last: real): seq<real> {
    if prices == [] then []
    else if Fires(side, prices[0], last) then [prices[0]] + FiredPrices(side, prices[1..], last)
    else FiredPrices(side, prices[1..], last)
  }

  lemma {:induction false} FiredPricesMembers(side: Side, prices: seq<real>, last: real)
    ensures forall p :: p in FiredPrices(side, prices, last) <==> p in prices && Fires(side, p, last)
  {
    if prices == [] {
    } else {
      FiredPricesMembers(side, prices[1..], last);
    }
  }

  /** Taking the triggered queues price by price takes exactly the triggered orders, in order. */
  lemma {:induction false} FiredIsFlat(side: Side, prices: seq<real>, levels: Queues, last: real)
    requires Keyed(ByStop, levels)
    ensures Fired(side, Flat(prices, levels), last) == Flat(FiredPrices(side, prices, last), levels)
  {
    if prices == [] {
    } else {
      FiredIsFlat(side, prices[1..], levels, last);
      var q := QueueAt(levels, prices[0]);
      FiredAppend(side, q, Flat(prices[1..], levels), last);
      FiredQueue(side, q, prices[0], last);
    }
  }

  /** Emptying the triggered queues leaves exactly the orders not triggered. */
  lemma {:induction false} UnfiredIsFlat(side: Side, prices: seq<real>, levels: Queues, rest: Queues, last: real)
    requires Keyed(ByStop, levels)
    requires forall p :: p in prices ==> QueueAt(rest, p) == if Fires(side, p, last) then [] else QueueAt(levels, p)
    ensures Unfired(side, Flat(prices, levels), last) == Flat(prices, rest)
  {
    if prices == [] {
    } else {
      UnfiredIsFlat(side, prices[1..], levels, rest, last);
      var q := QueueAt(levels, prices[0]);
      FiredAppend(side, q, Flat(prices[1..], levels), last);
      FiredQueue(side, q, prices[0], last);
    }
  }
}
