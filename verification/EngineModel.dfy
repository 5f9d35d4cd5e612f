/** The matching engine of one pair as a function on values: what `process_order` and `cancel_order` make
    of the two priority sequences, the stop books and the pending stops. */
module EngineModel {
  import opened Orders
  import opened Sums
  import opened Priority
  import opened Matching
  import opened Levels

  datatype Fees = Fees(maker: real, taker: real)

  datatype Trade = Trade(
    price: real,
    quantity: real,
    quote: real,
    takerOrder: OrderId,
    makerOrder: OrderId,
    takerUser: UserId,
    makerUser: UserId,
    takerSide: Side,
    takerFee: real,
    makerFee: real)

  /** `stopBuys` and `stopSells` are in trigger order; `lastPrice` 0.0 means nothing has traded. */
  datatype State = State(
    bids: seq<Order>,
    asks: seq<Order>,
    stopBuys: seq<Order>,
    stopSells: seq<Order>,
    pending: seq<Order>,
    lastPrice: real,
    sequence: nat)
  {
    function Makers(side: Side): seq<Order> {
      if side.Buy? then bids else asks
    }

    function WithMakers(side: Side, s: seq<Order>): State {
      if side.Buy? then this.(bids := s) else this.(asks := s)
    }

    function StopCount(): nat {
      |stopBuys| + |stopSells| + |pending|
    }
  }

  const EmptyState := State([], [], [], [], [], 0.0, 0)

  /** What processing one order did: the taker afterwards, its fills in order, and the unfilled rest. */
  datatype Result = Result(taker: Order, fills: seq<Fill>, remaining: real)

  function TradeOf(f: Fill, taker: Order, fees: Fees): Trade {
    Trade(f.maker.price, f.quantity, f.Worth(), taker.id, f.maker.id, taker.user, f.maker.user,
          taker.side, Mul(fees.taker, f.Worth()), Mul(fees.maker, f.Worth()))
  }

  function TradesOf(fills: seq<Fill>, taker: Order, fees: Fees): (r: seq<Trade>)
    ensures |r| == |fills| && forall i :: 0 <= i < |r| ==> r[i] == TradeOf(fills[i], taker, fees)
  {
    seq(|fills|, i requires 0 <= i < |fills| => TradeOf(fills[i], taker, fees))
  }

  function BoundOf(o: Order): Bound {
    if o.kind.Limit? then At(o.price) else AnyPrice
  }

  /** What fill-or-kill asks for: the side reaches the order's quantity or, failing a quantity, its budget. */
  ghost predicate Fillable(makers: seq<Order>, o: Order) {
    if o.quantity > 0.0 then CrossingDepth(makers, o.side, BoundOf(o)) >= o.quantity
    else o.quote > 0.0 && Notional(makers) >= o.quote
  }

  /** A market order fills its quantity first and spends whatever of its budget that leaves. */
  ghost function MatchMarket(makers: seq<Order>, o: Order): (seq<Fill>, seq<Order>) {
    var q := MatchQuantity(makers, o.side, AnyPrice, o.quantity);
    var b := MatchBudget(q.book, o.side, o.quote - FillWorth(q.fills));
    (q.fills + b.fills, b.book)
  }

  function CheckStops(e: State): State {
    if e.lastPrice == 0.0 then e
    else e.(stopBuys := Unfired(Buy, e.stopBuys, e.lastPrice),
            stopSells := Unfired(Sell, e.stopSells, e.lastPrice),
            pending := e.pending + (Fired(Sell, e.stopSells, e.lastPrice) + Fired(Buy, e.stopBuys, e.lastPrice)))
  }

  /** After a match: the maker side it left, the price it last traded at, and the stops that triggers. */
  function AfterMatch(e: State, side: Side, fills: seq<Fill>, book: seq<Order>): State {
    var e' := e.WithMakers(side.Opposite(), book);
    if fills == [] then e' else e'.(lastPrice := fills[|fills| - 1].maker.price)
  }

  /** A limit order's state once its match left `left` unfilled. */
  function LimitTaker(o: Order, left: real): Order {
    o.(filled := o.quantity - left,
       status := if left <= 0.0 then Filled
                 else if left < o.quantity then PartiallyFilled
                 else if o.tif in {Gtc, Gtd} then Open
                 else Cancelled,
       quantity := if left > 0.0 && o.tif in {Gtc, Gtd} then o.quantity - left + o.Visible(left) else o.quantity)
  }

  ghost function ProcessLimit(e: State, o: Order): (State, Result) {
    if o.tif == Fok && !Fillable(e.Makers(o.side.Opposite()), o) then
      (e, Result(o.(status := Cancelled), [], 0.0))
    else
      var m := MatchQuantity(e.Makers(o.side.Opposite()), o.side, At(o.price), o.quantity);
      var taker := LimitTaker(o, m.left);
      var e1 := AfterMatch(e, o.side, m.fills, m.book);
      var e2 := if m.left > 0.0 && o.tif in {Gtc, Gtd}
                then e1.WithMakers(o.side, Insert(ByPrice, o.side, e.Makers(o.side), taker)) else e1;
      (CheckStops(e2), Result(taker, m.fills, m.left))
  }

  function MarketTaker(o: Order, total: real): Order {
    var f := Min(o.quantity, total);
    o.(filled := f,
       status := if o.quantity - f <= 0.0 then Filled else if f > 0.0 then PartiallyFilled else Cancelled)
  }

  ghost function ProcessMarket(e: State, o: Order): (State, Result) {
    if o.quantity <= 0.0 && o.quote <= 0.0 then
      (e, Result(o.(status := Rejected), [], 0.0))
    else if o.tif == Fok && !Fillable(e.Makers(o.side.Opposite()), o) then
      (e, Result(o.(status := Cancelled), [], 0.0))
    else
      var (fills, book) := MatchMarket(e.Makers(o.side.Opposite()), o);
      (CheckStops(AfterMatch(e, o.side, fills, book)), Result(MarketTaker(o, FillTotal(fills)), fills, 0.0))
  }

  function AddStop(e: State, o: Order): State {
    if o.side.Buy? then e.(stopBuys := Insert(ByStop, Buy, e.stopBuys, o))
    else e.(stopSells := Insert(ByStop, Sell, e.stopSells, o))
  }

  ghost function Process(e: State, o: Order, expired: bool): (State, Result) {
    var e0 := e.(sequence := e.sequence + 1);
    if expired then (e0, Result(o.(status := Expired), [], 0.0))
    else match o.kind
      case Market => ProcessMarket(e0, o)
      case Limit => ProcessLimit(e0, o)
      case _ => (AddStop(e0, o.(status := Pending)), Result(o.(status := Pending), [], 0.0))
  }

  /** What callers hand to the engine: a new order, or a triggered stop turned into a plain order. */
  ghost predicate Incoming(o: Order) {
    && o.filled == 0.0
    && match o.kind
       case Market => o.quantity >= 0.0 && o.quote >= 0.0
       case Limit => o.quantity > 0.0 && o.price > 0.0
       case StopMarket => o.quantity > 0.0 && o.quote >= 0.0 && o.stopPrice > 0.0
       case StopLimit => o.quantity > 0.0 && o.price > 0.0 && o.stopPrice > 0.0
  }

  function Cancel(e: State, id: OrderId): State {
    e.(bids := Without(e.bids, id), asks := Without(e.asks, id))
  }

  // ----- soundness of the two sides -----

  ghost predicate Resting(side: Side, o: Order) {
    o.side == side && o.kind.Limit? && o.status.Live()
  }

  ghost predicate SideSound(side: Side, s: seq<Order>) {
    && MakersOk(side, s)
    && UniqueIds(s)
    && (forall o :: o in s ==> Resting(side, o))
  }

  /** No bid reaches any ask. */
  ghost predicate Uncrossed(bids: seq<Order>, asks: seq<Order>) {
    forall b, a :: b in bids && a in asks ==> b.price < a.price
  }

  ghost predicate BookSound(e: State) {
    SideSound(Buy, e.bids) && SideSound(Sell, e.asks) && Uncrossed(e.bids, e.asks)
  }

  ghost predicate IdFree(s: seq<Order>, id: OrderId) {
    forall o :: o in s ==> o.id != id
  }

  lemma {:induction false} WithoutSound(side: Side, s: seq<Order>, id: OrderId)
    requires SideSound(side, s)
    ensures SideSound(side, Without(s, id)) && IdFree(Without(s, id), id)
    ensures forall o :: o in Without(s, id) <==> o in s && o.id != id
  {
    WithoutKeeps(ByPrice, side, s, id);
    WithoutUnique(s, id);
  }

  lemma {:induction false} WithoutUnique(s: seq<Order>, id: OrderId)
    requires UniqueIds(s)
    ensures UniqueIds(Without(s, id))
    ensures forall o :: o in Without(s, id) ==> o in s
  {
    if s == [] {
    } else {
      WithoutUnique(s[1..], id);
      var r := Without(s[1..], id);
      forall j | 0 <= j < |r| ensures r[j].id != s[0].id {
        assert r[j] in s[1..];
      }
    }
  }

  lemma InsertUnique(rank: Rank, side: Side, s: seq<Order>, o: Order)
    requires Ordered(rank, side, s) && UniqueIds(s) && IdFree(s, o.id)
    ensures UniqueIds(Insert(rank, side, s, o))
  {
    hide Insert;
    var k := InsertSplits(rank, side, s, o);
    var r := s[..k] + [o] + s[k..];
    forall i, j | 0 <= i < j < |r| ensures r[i].id != r[j].id {
      assert r[i] == (if i < k then s[i] else if i == k then o else s[i - 1]);
      assert r[j] == (if j < k then s[j] else if j == k then o else s[j - 1]);
      assert i != k ==> r[i] in s;
      assert j != k ==> r[j] in s;
    }
  }

  lemma InsertSound(side: Side, s: seq<Order>, o: Order)
    requires SideSound(side, s) && IdFree(s, o.id)
    requires Resting(side, o) && o.price > 0.0 && o.filled >= 0.0 && o.Remaining() > 0.0
    ensures SideSound(side, Insert(ByPrice, side, s, o))
    ensures forall x :: x in Insert(ByPrice, side, s, o) <==> x == o || x in s
  {
    hide Insert;
    InsertMembers(ByPrice, side, s, o);
    InsertOrdered(ByPrice, side, s, o);
    InsertUnique(ByPrice, side, s, o);
  }

  lemma TailSound(side: Side, s: seq<Order>, n: nat)
    requires SideSound(side, s) && n <= |s|
    ensures SideSound(side, s[n..])
    ensures forall o :: o in s[n..] ==> o in s
    ensures n > 0 ==> IdFree(s[n..], s[n - 1].id)
  {
    forall o | o in s[n..] ensures o in s && (n > 0 ==> o.id != s[n - 1].id) {
      var j :| 0 <= j < |s[n..]| && s[n..][j] == o;
      assert s[n + j] == o;
    }
  }

  /** Greedy fills keep a side sound, and every order left sits at the price, and under the id, of an old one. */
  lemma LeftoverSound(side: Side, makers: seq<Order>, fills: seq<Fill>)
    requires SideSound(side, makers) && Greedy(makers, fills)
    ensures SideSound(side, Leftover(side, makers, fills))
    ensures forall o :: o in Leftover(side, makers, fills) ==>
      exists x :: x in makers && x.id == o.id && x.price == o.price
  {
    hide Insert, SideSound, MakersOk;
    var n := |fills|;
    if n == 0 {
    } else {
      SoundParts(side, makers, n - 1);
      var m, tail := LeftoverIs(side, makers, fills);
      TailSound(side, makers, n);
      if !m.IsFilled() {
        InsertSound(side, tail, m);
      }
    }
  }

  lemma SoundParts(side: Side, s: seq<Order>, i: nat)
    requires SideSound(side, s) && i < |s|
    ensures MakersOk(side, s) && Resting(side, s[i]) && s[i] in s && s[i].filled >= 0.0
  {
    assert s[i] in s;
  }
}
