/** The priority sequence one side of a book amounts to: best price first, and at one price the order
    enqueued earliest first.  Stop books are the same structure keyed by stop price: buy stops run
    downwards, sell stops upwards. */
module Priority {
  import opened Orders
  import opened Sums

  datatype Rank = ByPrice | ByStop {
    function Key(o: Order): real {
      if ByPrice? then o.price else o.stopPrice
    }
  }

  /** On this side, p is strictly better than q. */
  predicate Before(side: Side, p: real, q: real) {
    if side.Buy? then p > q else p < q
  }

  ghost predicate Ordered(rank: Rank, side: Side, s: seq<Order>) {
    forall i, j :: 0 <= i < j < |s| ==> !Before(side, rank.Key(s[j]), rank.Key(s[i]))
  }

  /** Enqueue `o`: behind everything at its own key or better. */
  function Insert(rank: Rank, side: Side, s: seq<Order>, o: Order): seq<Order> {
    if s == [] || Before(side, rank.Key(o), rank.Key(s[0])) then [o] + s
    else [s[0]] + Insert(rank, side, s[1..], o)
  }

  lemma TailOrdered(rank: Rank, side: Side, s: seq<Order>)
    requires Ordered(rank, side, s) && s != []
    ensures Ordered(rank, side, s[1..])
  {
  }

  lemma OvertakesAll(rank: Rank, side: Side, s: seq<Order>, o: Order)
    requires Ordered(rank, side, s) && (s == [] || Before(side, rank.Key(o), rank.Key(s[0])))
    ensures forall j :: 0 <= j < |s| ==> Before(side, rank.Key(o), rank.Key(s[j]))
  {
  }

  /** Enqueueing splits an ordered sequence into what keeps priority over `o` and what it overtakes. */
  lemma {:induction false} InsertSplits(rank: Rank, side: Side, s: seq<Order>, o: Order) returns (i: nat)
    requires Ordered(rank, side, s)
    ensures i <= |s| && Insert(rank, side, s, o) == s[..i] + [o] + s[i..]
    ensures forall j :: 0 <= j < i ==> !Before(side, rank.Key(o), rank.Key(s[j]))
    ensures forall j :: i <= j < |s| ==> Before(side, rank.Key(o), rank.Key(s[j]))
  {
    hide Ordered, Before, Rank.Key;
    if s == [] || Before(side, rank.Key(o), rank.Key(s[0])) {
      i := 0;
      assert s[..0] + [o] + s[0..] == [o] + s;
      OvertakesAll(rank, side, s, o);
    } else {
      TailOrdered(rank, side, s);
      var k := InsertSplits(rank, side, s[1..], o);
      i := k + 1;
      assert s[..i] == [s[0]] + s[1..][..k];
      forall j | 0 <= j < i ensures !Before(side, rank.Key(o), rank.Key(s[j])) {
        if j > 0 { assert s[j] == s[1..][j - 1]; }
      }
      forall j | i <= j < |s| ensures Before(side, rank.Key(o), rank.Key(s[j])) {
        assert s[j] == s[1..][j - 1];
      }
    }
  }

  /** Conversely, wherever a sequence splits that way is where the order goes. */
  lemma {:induction false} InsertBetween(rank: Rank, side: Side, a: seq<Order>, b: seq<Order>, o: Order)
    requires forall j :: 0 <= j < |a| ==> !Before(side, rank.Key(o), rank.Key(a[j]))
    requires b != [] ==> Before(side, rank.Key(o), rank.Key(b[0]))
    ensures Insert(rank, side, a + b, o) == a + [o] + b
  {
    if a == [] {
      assert a + b == b;
    } else {
      assert (a + b)[1..] == a[1..] + b;
      InsertBetween(rank, side, a[1..], b, o);
    }
  }

  lemma InsertMembers(rank: Rank, side: Side, s: seq<Order>, o: Order)
    requires Ordered(rank, side, s)
    ensures multiset(Insert(rank, side, s, o)) == multiset(s) + multiset{o}
    ensures |Insert(rank, side, s, o)| == |s| + 1
    ensures forall x :: x in Insert(rank, side, s, o) <==> x == o || x in s
  {
    hide Insert, Ordered;
    var i := InsertSplits(rank, side, s, o);
    assert s == s[..i] + s[i..];
    var m := multiset(Insert(rank, side, s, o));
    assert m == multiset(s) + multiset{o};
    assert forall x :: x in m <==> x == o || x in multiset(s);
  }

  lemma InsertOrdered(rank: Rank, side: Side, s: seq<Order>, o: Order)
    requires Ordered(rank, side, s)
    ensures Ordered(rank, side, Insert(rank, side, s, o))
  {
    hide Insert;
    var k := InsertSplits(rank, side, s, o);
    var r := Insert(rank, side, s, o);
    forall i, j | 0 <= i < j < |r| ensures !Before(side, rank.Key(r[j]), rank.Key(r[i])) {
      assert r[i] == if i < k then s[i] else if i == k then o else s[i - 1];
      assert r[j] == if j < k then s[j] else if j == k then o else s[j - 1];
    }
  }

  /** The sequence without the order carrying `id`. */
  function Without(s: seq<Order>, id: OrderId): seq<Order> {
    if s == [] then []
    else if s[0].id == id then Without(s[1..], id)
    else [s[0]] + Without(s[1..], id)
  }

  lemma {:induction false} WithoutAppend(a: seq<Order>, b: seq<Order>, id: OrderId)
    ensures Without(a + b, id) == Without(a, id) + Without(b, id)
  {
    if a == [] {
      assert a + b == b;
    } else {
      assert (a + b)[1..] == a[1..] + b;
      WithoutAppend(a[1..], b, id);
    }
  }

  lemma {:induction false} WithoutAbsent(s: seq<Order>, id: OrderId)
    requires forall o :: o in s ==> o.id != id
    ensures Without(s, id) == s
  {
    if s == [] {
    } else {
      WithoutAbsent(s[1..], id);
    }
  }

  lemma {:induction false} WithoutKeeps(rank: Rank, side: Side, s: seq<Order>, id: OrderId)
    requires Ordered(rank, side, s)
    ensures Ordered(rank, side, Without(s, id))
    ensures forall o :: o in Without(s, id) <==> o in s && o.id != id
  {
    if s == [] {
    } else {
      WithoutKeeps(rank, side, s[1..], id);
      var r := Without(s[1..], id);
      forall j | 0 <= j < |r| ensures !Before(side, rank.Key(r[j]), rank.Key(s[0])) {
        assert r[j] in s[1..];
      }
    }
  }

  ghost predicate UniqueIds(s: seq<Order>) {
    forall i, j :: 0 <= i < j < |s| ==> s[i].id != s[j].id
  }

  /** Total unfilled quantity. */
  ghost function Rests(s: seq<Order>): seq<real> {
    seq(|s|, i requires 0 <= i < |s| => s[i].Remaining())
  }

  ghost function Depth(s: seq<Order>): real {
    Total(Rests(s))
  }

  function Worth(o: Order): real {
    Mul(o.price, o.Remaining())
  }

  ghost function Worths(s: seq<Order>): seq<real> {
    seq(|s|, i requires 0 <= i < |s| => Worth(s[i]))
  }

  /** What it costs to take everything, in quote currency. */
  ghost function Notional(s: seq<Order>): real {
    Total(Worths(s))
  }

  lemma DepthAppend(a: seq<Order>, b: seq<Order>)
    ensures Depth(a + b) == Depth(a) + Depth(b)
    ensures Notional(a + b) == Notional(a) + Notional(b)
  {
    assert Rests(a + b) == Rests(a) + Rests(b);
    TotalAppend(Rests(a), Rests(b));
    assert Worths(a + b) == Worths(a) + Worths(b);
    TotalAppend(Worths(a), Worths(b));
  }

  lemma NoDepth()
    ensures Depth([]) == 0.0
  {
  }

  lemma DepthCons(o: Order, s: seq<Order>)
    ensures Depth([o] + s) == o.Remaining() + Depth(s)
    ensures Notional([o] + s) == Worth(o) + Notional(s)
  {
    DepthAppend([o], s);
    assert Rests([o]) == [o.Remaining()];
    TotalOne(o.Remaining());
    assert Worths([o]) == [Worth(o)];
    TotalOne(Worth(o));
  }

  lemma DepthInsert(rank: Rank, side: Side, s: seq<Order>, o: Order)
    requires Ordered(rank, side, s)
    ensures Depth(Insert(rank, side, s, o)) == Depth(s) + o.Remaining()
  {
    var i := InsertSplits(rank, side, s, o);
    DepthAppend(s[..i] + [o], s[i..]);
    DepthAppend(s[..i], [o]);
    DepthCons(o, []);
    assert [o] + [] == [o];
    DepthAppend(s[..i], s[i..]);
    assert s == s[..i] + s[i..];
  }
}
