/** What a new order leaves locked, in its own row and by its buys: a quote-funded buy nothing; a limit buy more than
    nothing when the best ask is below its limit; an immediate-or-cancel order its rest unless it fills entirely or not
    at all; and an iceberg, even once cancelled, whatever it never showed. */
module OrderFates {
  import opened Orders
  import opened Sums
  import opened Priority
  import opened Matching
  import opened EngineModel
  import opened EngineProofs
  import opened Wallets
  import opened PairRules
  import opened ExchangeModel
  import opened Accounting
  import opened Agreement
  import opened Matches
  import opened Filing
  import opened ExchangeProofs
  import opened BuyResidues

  // ----- quote-funded buys -----

  function Bought(trades: seq<TradeRow>): real {
    if trades == [] then 0.0 else trades[0].trade.quantity + Bought(trades[1..])
  }

  function Paid(trades: seq<TradeRow>): real {
    if trades == [] then 0.0 else trades[0].trade.quote + Paid(trades[1..])
  }

  lemma {:induction false} StoredTotals(p: nat, fills: seq<Fill>, o: Order, fees: EngineModel.Fees)
    ensures Bought(Stored(p, TradesOf(fills, o, fees))) == FillTotal(fills)
    ensures Paid(Stored(p, TradesOf(fills, o, fees))) == FillWorth(fills)
    decreases |fills|
  {
    hide FillTotal, FillWorth, Mul;
    var all := Stored(p, TradesOf(fills, o, fees));
    if fills == [] {
      NoFillTotals();
    } else {
      StoredTotals(p, fills[1..], o, fees);
      assert all[1..] == Stored(p, TradesOf(fills[1..], o, fees));
      assert fills == [fills[0]] + fills[1..];
      FillAppend([fills[0]], fills[1..]);
      FillOne(fills[0]);
    }
  }

  /** A market taker's trades cost exactly what they were locked for. */
  lemma NoMarketResidue(pairs: seq<Pair>, rows: seq<Row>, p: nat, t: Trade, k: Key)
    requires Fair(pairs, rows, TradeRow(p, t)) && t.takerSide.Buy? && rows[t.takerOrder].kind.Market?
    ensures Residue(pairs, rows, TradeRow(p, t), k) == 0.0
  {
    hide Mul;
    MulSum(t.quote, 1.0, pairs[p].takerFee);
    MulOne(t.quote);
    MulSwap(t.quote, pairs[p].takerFee);
  }

  lemma TakerOf(fills: seq<Fill>, o: Order, fees: EngineModel.Fees, i: nat)
    requires i < |fills|
    ensures var t := TradesOf(fills, o, fees)[i]; t.takerOrder == o.id && t.takerSide == o.side
  {
    hide Mul;
  }

  lemma StoredTrades(p: nat, t: seq<Trade>, before: seq<TradeRow>, after: seq<TradeRow>)
    requires after == before + Stored(p, t)
    ensures |after| == |before| + |t| && after[..|before|] == before && after[|before|..] == Stored(p, t)
    ensures forall i :: |before| <= i < |after| ==> after[i] == TradeRow(p, t[i - |before|])
  {
  }

  lemma HoldsNothing(pairs: seq<Pair>, r: Row, k: Key)
    requires r.kind.Market? && r.price == 0.0 && r.hidden == 0.0
    ensures Hold(pairs, r, k) == 0.0
  {
  }

  lemma {:induction false} FillRowsTerms(rows: seq<Row>, trades: seq<Trade>)
    ensures Extends(rows, FillRows(rows, trades))
    decreases |trades|
  {
    if trades == [] {
    } else {
      FillRowsTerms(FillRow(rows, trades[0]), trades[1..]);
    }
  }

  lemma PlacedFair(s: Exchange, s': Exchange, p: nat, o: Order, row: Row, e': State, r: EngineModel.Result, extra: real,
                   i: nat)
    requires Placed(s, s', p, o, row, e', r, extra) && i < |r.fills|
    ensures Fair(s'.pairs, s'.rows, TradeRow(p, TradesOf(r.fills, o, s.pairs[p].Fees())[i]))
  {
    hide FillRows, Residue, PersistExactly, ReleaseAmount, Fair, RowsOk, TradesOf;
    var s1, t := Recorded(s, p, row, e'), TradesOf(r.fills, o, s.pairs[p].Fees());
    assert Unsettled(s1.pairs, s1.rows, p, t[i]);
    FillRowsTerms(s1.rows, t);
    var one := [TradeRow(p, t[i])];
    assert AllFair(s1.pairs, s1.rows, one);
    ExtendsKeeps(s1.pairs, s1.rows, s'.rows, one, ANYONE);
    assert Fair(s'.pairs, s'.rows, one[0]);
  }

  lemma FiledStored(s: Exchange, s': Exchange, p: nat, o: Order, row: Row, e': State, r: EngineModel.Result,
                    a: seq<Fill>, b: seq<Fill>)
    requires Filed(s, s', p, o, row, e', r, a, b)
    ensures s'.trades == s.trades + Stored(p, TradesOf(r.fills, o, s.pairs[p].Fees())) && s'.pairs == s.pairs
    ensures o.id == |s.rows| && row.kind == o.kind && row.price == o.price
  {
  }

  /** A quote-funded market buy spends the smaller of its budget and what the ask side is worth, is stored at
      exactly the size it executed, and leaves nothing of its own locked in any wallet: its row holds nothing
      and its trades have no residue. */
  lemma QuoteBuySettles(s: Exchange, ev: Event, k: Key)
    requires Inv(s) && ev.PlaceMarket? && ev.side.Buy? && PlaceMarketOrder(s, ev).1.Done?
    ensures var s' := PlaceMarketOrder(s, ev).0; var n := |s.trades|;
      && ev.pair < |s.books| && |s'.rows| == |s.rows| + 1 && n <= |s'.trades| && s'.trades[..n] == s.trades
      && s'.rows[|s.rows|].quantity == s'.rows[|s.rows|].filled == Bought(s'.trades[n..])
      && Paid(s'.trades[n..]) == Min(ev.quote, Notional(s.books[ev.pair].asks))
      && Hold(s'.pairs, s'.rows[|s.rows|], k) == 0.0
      && (forall i :: n <= i < |s'.trades| ==> Residue(s'.pairs, s'.rows, s'.trades[i], k) == 0.0)
  {
    hide Inv, PlaceMarketOrder, Placed, Process, FillTotal, FillWorth, Notional, Residue, Hold, Bought, Paid, Filed,
         Single,
         MarketTaker, TradesOf, Stored, Fair, Depth, BookSound, Oversells;
    InvParts(s);
    assert !Oversells(s, ev) by { SellsOnly(s, ev); }
    var o, row, e', r, a, b := MarketFiled(s, ev);
    var o1, row1, e1, r1, extra := PlaceMarketInv(s, ev);
    var p, n, s' := ev.pair, |s.trades|, PlaceMarketOrder(s, ev).0;
    FiledOnward(s, s', p, o, row, e', r, a, b);
    FiledStored(s, s', p, o, row, e', r, a, b);
    var t := TradesOf(r.fills, o, s.pairs[p].Fees());
    StoredTotals(p, r.fills, o, s.pairs[p].Fees());
    StoredTrades(p, t, s.trades, s'.trades);
    BookAt(s, p);
    MarketFills(s.books[p], o) by { BookHeld(s.rows, p, s.books[p]); }
    HoldsNothing(s'.pairs, row, k);
    forall i | n <= i < |s'.trades| ensures Residue(s'.pairs, s'.rows, s'.trades[i], k) == 0.0 {
      TakerOf(r.fills, o, s.pairs[p].Fees(), i - n);
      PlacedFair(s.(vault := MarketReserved(s, ev).value), s', p, o, row1, e', r, extra, i - n);
      NoMarketResidue(s'.pairs, s'.rows, p, t[i - n], k);
    }
  }

  lemma SellsOnly(s: Exchange, ev: Event)
    requires ev.PlaceMarket? && ev.side.Buy?
    ensures !Oversells(s, ev)
  {
    hide Depth, FirstWorth;
  }

  // ----- limit orders -----

  /** What crossing depth leaves of a limit order, and the row it is stored with. */
  lemma LimitOutcome(s: Exchange, p: nat, o: Order)
    requires BooksFit(s) && p < |s.books| && Incoming(o) && o.kind.Limit? && o.id == |s.rows| && o.tif != Fok
    ensures var r := Process(s.books[p], o, false).1; var rest := Rest(s.books[p], o);
      && r.taker == LimitTaker(o, rest) && r.remaining == rest && 0.0 <= rest <= o.quantity
      && (rest == o.quantity <==> Reach(s, p, o) == 0.0) && (rest == 0.0 <==> Reach(s, p, o) >= o.quantity)
      && Reach(s, p, o) >= 0.0
  {
    hide MatchQuantity, CrossingDepth, Depth, FillTotal, LimitTaker, CheckStops, Insert, SideSound, Uncrossed, Backs,
         Absent;
    var e := s.books[p];
    BookAt(s, p);
    IdNotResting(s, p);
    var e0 := e.(sequence := e.sequence + 1);
    SideOf(e, o.side.Opposite());
    CrossingNonneg(e.Makers(o.side.Opposite()), o.side, At(o.price))
      by { MakersRemain(o.side.Opposite(), e.Makers(o.side.Opposite())); }
    LimitConserves(e0, o) by { AbsentHere(e, e0, o.id); }
    QuantityIsGreedy(e.Makers(o.side.Opposite()), o.side, At(o.price), o.quantity);
  }

  lemma AbsentHere(e: State, e0: State, id: OrderId)
    requires Absent(e, id) && e0 == e.(sequence := e0.sequence)
    ensures Absent(e0, id)
  {
  }

  lemma MakersRemain(side: Side, makers: seq<Order>)
    requires SideSound(side, makers)
    ensures forall o :: o in makers ==> o.Remaining() > 0.0
  {
  }

  /** The depth a limit order can reach on the other side of its pair's book. */
  ghost function Reach(s: Exchange, p: nat, o: Order): real
    requires p < |s.books|
  {
    CrossingDepth(s.books[p].Makers(o.side.Opposite()), o.side, At(o.price))
  }

  /** A placed limit order's row, once its call is over. */
  lemma PlacedRow(s: Exchange, ev: Event)
    requires Inv(s) && ev.PlaceLimit? && PlaceLimitOrder(s, ev).1.Done? && ev.tif != Fok
    ensures ev.pair < |s.books| && Incoming(Entering(s, ev))
    ensures var s', n, o := PlaceLimitOrder(s, ev).0, |s.rows|, Entering(s, ev);
      var rest := Rest(s.books[ev.pair], o); var taker := LimitTaker(o, rest);
      && s'.pairs == s.pairs && n < |s'.rows|
      && s'.rows[n] == RowOf(ev.pair, taker, if taker.status.Terminal() then 0.0 else HiddenPart(o, rest))
  {
    hide Enter, Copies, Filed, Onward, BooksOk, Process, LimitShape, QuantityRules, PriceRules, Release, Inv, Rest,
         LimitTaker, HiddenPart, PlaceLimitOrder;
    InvParts(s);
    var row, e', r, s1, s2 := PlaceLimitStages(s, ev);
    LimitOutcome(s, ev.pair, Entering(s, ev));
  }

  /** A row holds nothing in any wallet. */
  ghost predicate HoldsNone(pairs: seq<Pair>, row: Row) {
    forall k :: Hold(pairs, row, k) == 0.0
  }

  lemma HoldsNoneIs(pairs: seq<Pair>, row: Row)
    requires row.pair < |pairs| && pairs[row.pair].Valid() && row.price > 0.0 && Unfilled(row) + row.hidden >= 0.0
    ensures HoldsNone(pairs, row) <==> Unfilled(row) + row.hidden == 0.0
  {
    hide Lockup;
    var k0 := Key(row.user, LockAsset(pairs[row.pair], row.side));
    LockupSign(row.side, row.price, Unfilled(row) + row.hidden, pairs[row.pair].takerFee);
    LockupAdd(row.side, row.price, 0.0, 0.0, pairs[row.pair].takerFee);
    assert Hold(pairs, row, k0) == Lockup(row.side, row.price, Unfilled(row) + row.hidden, pairs[row.pair].takerFee);
  }

  /** An order has nothing locked in any wallet: not for its row, and not by any trade in which it bought. */
  ghost predicate LeavesNothing(s: Exchange, id: OrderId)
    requires id < |s.rows|
  {
    HoldsNone(s.pairs, s.rows[id]) && BuysExactly(s, id)
  }

  /** An immediate-or-cancel order's row holds nothing if and only if the other side offers the order nothing within its
      limit, or all of it. */
  lemma IocHolds(s: Exchange, ev: Event)
    requires Inv(s) && ev.PlaceLimit? && ev.tif.Ioc? && PlaceLimitOrder(s, ev).1.Done?
    ensures ev.pair < |s.books| && |s.rows| < |PlaceLimitOrder(s, ev).0.rows|
    ensures var s' := PlaceLimitOrder(s, ev).0; var reach := Reach(s, ev.pair, Entering(s, ev));
      HoldsNone(s'.pairs, s'.rows[|s.rows|]) <==> reach == 0.0 || reach >= ev.quantity
  {
    hide Inv, PlaceLimitOrder, CrossingDepth, HoldsNone, Fillable;
    InvParts(s);
    InvPairs(s);
    PlacedRow(s, ev);
    LimitOutcome(s, ev.pair, Entering(s, ev));
    HoldsNoneIs(s.pairs, PlaceLimitOrder(s, ev).0.rows[|s.rows|]);
  }

  /** An immediate-or-cancel order leaves nothing locked if and only if the other side offers it nothing within its
      limit, or all of it and not below its limit if it buys.  Partly filled, which is no finished status, it keeps
      its rest locked; and what a buy's limit locked beyond a cheaper ask is not returned. */
  lemma IocLeavesNothing(s: Exchange, ev: Event)
    requires Inv(s) && ev.PlaceLimit? && ev.tif.Ioc? && PlaceLimitOrder(s, ev).1.Done?
    ensures ev.pair < |s.books| && |s.rows| < |PlaceLimitOrder(s, ev).0.rows|
    ensures var s', o := PlaceLimitOrder(s, ev).0, Entering(s, ev); var reach := Reach(s, ev.pair, o);
      LeavesNothing(s', |s.rows|)
      <==> (reach == 0.0 || reach >= ev.quantity) && !PaysLess(s.books[ev.pair], o)
  {
    hide Inv, PlaceLimitOrder, Reach, HoldsNone, BuysExactly, PaysLess, Fillable;
    IocHolds(s, ev);
    LimitResidue(s, ev);
  }

  /** A fill-or-kill order leaves nothing locked if and only if it is killed, or does not buy below its limit. */
  lemma FokLeavesNothing(s: Exchange, ev: Event)
    requires Inv(s) && ev.PlaceLimit? && ev.tif.Fok? && PlaceLimitOrder(s, ev).1.Done?
    ensures ev.pair < |s.books| && |s.rows| < |PlaceLimitOrder(s, ev).0.rows|
    ensures var s', o := PlaceLimitOrder(s, ev).0, Entering(s, ev);
      LeavesNothing(s', |s.rows|) <==> Reach(s, ev.pair, o) < ev.quantity || !PaysLess(s.books[ev.pair], o)
  {
    hide Inv, PlaceLimitOrder, CrossingDepth, HoldsNone, BuysExactly, PaysLess, Process, BookSound;
    InvPairs(s);
    var s', o, p := PlaceLimitOrder(s, ev).0, Entering(s, ev), ev.pair;
    LimitResidue(s, ev);
    FokRow(s, ev);
    HoldsNoneIs(s.pairs, s'.rows[|s.rows|]);
  }

  /** A fill-or-kill order's row, once its call is over, holds nothing: it is killed, and released, or filled. */
  lemma FokRow(s: Exchange, ev: Event)
    requires Inv(s) && ev.PlaceLimit? && ev.tif.Fok? && PlaceLimitOrder(s, ev).1.Done?
    ensures ev.pair < |s.pairs| && ev.price > 0.0 && ev.quantity > 0.0
    ensures var s', n := PlaceLimitOrder(s, ev).0, |s.rows|;
      && s'.pairs == s.pairs && n < |s'.rows|
      && s'.rows[n].pair == ev.pair && s'.rows[n].price == ev.price && s'.rows[n].status.Terminal()
      && s'.rows[n].hidden == 0.0
  {
    hide Enter, Copies, Filed, Onward, BooksOk, Process, LimitShape, QuantityRules, PriceRules, Release, Inv, BookSound,
         PlaceLimitOrder, CrossingDepth, LimitTaker;
    InvParts(s);
    var row, e', r, s1, s2 := PlaceLimitStages(s, ev);
    BookAt(s, ev.pair);
    IdNotResting(s, ev.pair);
    FillOrKill(s.books[ev.pair], Entering(s, ev)) by { BookHeld(s.rows, ev.pair, s.books[ev.pair]); }
    TakerPrice(s, s1, ev.pair, Entering(s, ev), row, e', r);
    OnwardFits(s, s1);
  }

  lemma InvPairs(s: Exchange)
    requires Inv(s)
    ensures forall p :: 0 <= p < |s.pairs| ==> s.pairs[p].Valid()
  {
    hide StoreOk, Accounted, BooksOk;
  }

  /** An order that may rest, cancelled at once, leaves nothing locked if and only if it showed all that crossing depth
      left of it, as an iceberg does only if its peak covers that rest, and did not buy below its limit.  The cancel is
      refused if nothing is left. */
  lemma CancelledLeavesNothing(s: Exchange, ev: Event)
    requires Inv(s) && ev.PlaceLimit? && ev.tif in {Gtc, Gtd} && PlaceLimitOrder(s, ev).1.Done?
    ensures ev.pair < |s.books|
    ensures var (s2, reply) := CancelStored(PlaceLimitOrder(s, ev).0, ev.user, |s.rows|);
      var o := Entering(s, ev); var rest := Rest(s.books[ev.pair], o);
      && (reply.Done? <==> rest > 0.0)
      && |s.rows| < |s2.rows|
      && (LeavesNothing(s2, |s.rows|) <==> (ev.peak == 0.0 || ev.peak >= rest) && !PaysLess(s.books[ev.pair], o))
  {
    hide Inv, PlaceLimitOrder, CancelStored, HoldsNone, Onward, Rest, Reach, LimitTaker, HiddenPart, BuysExactly,
         PaysLess,
         Fillable;
    InvParts(s);
    InvPairs(s);
    PlacedRow(s, ev);
    LimitOutcome(s, ev.pair, Entering(s, ev));
    PeakNonneg(s, ev);
    PlaceLimitOnward(s, ev);
    var s1, rest := PlaceLimitOrder(s, ev).0, Rest(s.books[ev.pair], Entering(s, ev));
    OnwardFits(s, s1);
    CancelPlaced(s1, ev.pair, |s.rows|, Entering(s, ev), rest);
    HoldsNoneIs(s.pairs, CancelStored(s1, ev.user, |s.rows|).0.rows[|s.rows|]);
    LimitResidue(s, ev);
    PlaceLimitInv(s, ev);
    CancelBuysExactly(s1, ev.user, |s.rows|);
  }

  /** Cancelling an order leaves what its buys have left locked as it was. */
  lemma CancelBuysExactly(s: Exchange, user: UserId, id: OrderId)
    requires Inv(s)
    ensures BuysExactly(CancelStored(s, user, id).0, id) <==> BuysExactly(s, id)
  {
    hide Release, Cancel, Accounted, BooksOk, RowsOk, Residue;
    var s' := CancelStored(s, user, id).0;
    assert Extends(s.rows, s'.rows);
    forall k: Key, i | 0 <= i < |s.trades|
      ensures Residue(s'.pairs, s'.rows, s'.trades[i], k) == Residue(s.pairs, s.rows, s.trades[i], k)
    {
      ExtendsKeeps(s.pairs, s.rows, s'.rows, s.trades, k);
      assert Residues(s.pairs, s'.rows, s.trades, k)[i] == Residues(s.pairs, s.rows, s.trades, k)[i];
    }
    forall i | 0 <= i < |s.trades|
      ensures NoResidue(s'.pairs, s'.rows, s'.trades[i]) <==> NoResidue(s.pairs, s.rows, s.trades[i])
    {
    }
  }

  /** Cancelling a limit order as it was stored. */
  lemma CancelPlaced(s: Exchange, p: nat, id: OrderId, o: Order, rest: real)
    requires p < |s.pairs| && p < |s.books| && id < |s.rows|
    requires Incoming(o) && o.kind.Limit? && o.tif in {Gtc, Gtd} && o.peak >= 0.0 && 0.0 <= rest <= o.quantity
    requires var t := LimitTaker(o, rest);
      s.rows[id] == RowOf(p, t, if t.status.Terminal() then 0.0 else HiddenPart(o, rest))
    ensures var (s', reply) := CancelStored(s, o.user, id);
      && (reply.Done? <==> rest > 0.0) && s'.pairs == s.pairs && id < |s'.rows|
      && var row := s'.rows[id];
      && row.pair == p && row.price == o.price && Unfilled(row) + row.hidden >= 0.0
      && (Unfilled(row) + row.hidden == 0.0 <==> o.peak == 0.0 || o.peak >= rest)
  {
    hide Release, Cancel;
  }

  lemma PeakNonneg(s: Exchange, ev: Event)
    requires ev.PlaceLimit? && PlaceLimitOrder(s, ev).1.Done?
    ensures ev.peak >= 0.0 && ev.price > 0.0
  {
    hide Enter, Copies, Finish, QuantityRules, PriceRules;
  }

  /** What a cancelled or otherwise finished order still holds, it holds for good. */
  lemma HeldForGood(s: Exchange, evs: seq<Event>, i: OrderId, k: Key)
    requires Inv(s) && Allowed(s, evs) && i < |s.rows| && s.rows[i].status.Terminal()
    ensures i < |Run(s, evs).rows| && Hold(Run(s, evs).pairs, Run(s, evs).rows[i], k) == Hold(s.pairs, s.rows[i], k)
    ensures Run(s, evs).vault.Locked(k) >= Hold(s.pairs, s.rows[i], k)
  {
    hide Run, Allowed, BooksOk, Hold, Accounted, StoreOk;
    RunInv(s, evs);
    StoredFinalForever(s, evs, i);
    RunKeeps(s, evs);
    InvHolds(Run(s, evs), i, k);
  }

  lemma InvHolds(s: Exchange, i: OrderId, k: Key)
    requires Inv(s) && i < |s.rows|
    ensures s.vault.Locked(k) >= Hold(s.pairs, s.rows[i], k)
  {
    hide Hold, BooksOk, Accounted, Total, RowsOk, AllFair, Dues, Residues, Holds;
    OwedSign(s, k);
    LockedSome(s, k);
  }
}
