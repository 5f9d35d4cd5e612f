/** What buys leave locked beyond their cost: when a trade leaves such a residue, and that nothing returns it. */
module BuyResidues {
  import opened Orders
  import opened Sums
  import opened Priority
  import opened Matching
  import opened EngineModel
  import opened EngineProofs
  import opened Wallets
  import opened PairRules
  import opened CopySizing
  import opened ExchangeModel
  import opened Accounting
  import opened Agreement
  import opened Matches
  import opened Filing
  import opened ExchangeProofs

  // ----- one trade -----

  /** A trade has left nothing locked in any wallet. */
  ghost predicate NoResidue(pairs: seq<Pair>, rows: seq<Row>, tr: TradeRow) {
    forall k :: Residue(pairs, rows, tr, k) == 0.0
  }

  /** What a buy costs at a price and a fee. */
  lemma CostAt(price: real, quantity: real, fee: real)
    ensures Wallets.Cost(price, quantity, fee) == Mul(price, quantity) + Mul(fee, Mul(price, quantity))
  {
    hide Mul;
    var q := Mul(price, quantity);
    MulSum(q, 1.0, fee);
    MulOne(q);
    MulSwap(q, fee);
  }

  /** Of two prices or two fees, the higher costs more. */
  lemma CostGrows(a: real, b: real, quantity: real, fee: real)
    requires 0.0 < quantity && fee >= 0.0 && a > 0.0 && b > 0.0
    ensures Wallets.Cost(a, quantity, fee) == Wallets.Cost(b, quantity, fee) <==> a == b
  {
    hide Mul;
    MulSum(quantity, a, b);
    MulSwap(quantity, a);
    MulSwap(quantity, b);
    MulSwap(quantity, a - b);
    MulSign(a - b, quantity);
    var x, y := Mul(a, quantity), Mul(b, quantity);
    MulSum(1.0 + fee, x, y);
    MulSign(x - y, 1.0 + fee);
  }

  lemma FeesDiffer(x: real, a: real, b: real)
    requires x > 0.0
    ensures Mul(a, x) == Mul(b, x) <==> a == b
  {
    hide Mul;
    MulSum(x, a, b);
    MulSign(a - b, x);
  }

  /** A stored trade leaves nothing locked if and only if its buyer had the funds locked at the price it traded at, and
      paid the fee they were locked for: a resting buyer pays the maker's. */
  lemma ResidueExactly(pairs: seq<Pair>, rows: seq<Row>, tr: TradeRow)
    requires Fair(pairs, rows, tr)
    ensures var t, pair := tr.trade, pairs[tr.pair];
      NoResidue(pairs, rows, tr)
      <==> if t.takerSide.Buy? then LockPrice(rows[t.takerOrder], t) == t.price else pair.makerFee == pair.takerFee
  {
    hide Mul, Wallets.Cost;
    var t, pair := tr.trade, pairs[tr.pair];
    var b := rows[BuyOrder(t)];
    var k0 := Key(Buyer(t), pair.quote);
    var fee := if t.takerSide.Buy? then pair.takerFee else pair.makerFee;
    FairCovers(pairs, rows, tr, k0);
    CostAt(t.price, t.quantity, fee);
    CostAt(t.price, t.quantity, pair.takerFee);
    MulSign(t.price, t.quantity);
    CostGrows(LockPrice(b, t), t.price, t.quantity, pair.takerFee);
    FeesDiffer(t.quote, pair.makerFee, pair.takerFee);
    assert Residue(pairs, rows, tr, k0)
        == Wallets.Cost(LockPrice(b, t), t.quantity, pair.takerFee) - (t.quote + BuyerFee(t));
    assert (NoResidue(pairs, rows, tr) <==> Residue(pairs, rows, tr, k0) == 0.0) by { OnlyThere(pairs, rows, tr, k0); }
  }

  lemma OnlyThere(pairs: seq<Pair>, rows: seq<Row>, tr: TradeRow, k0: Key)
    requires tr.pair < |pairs| && k0 == Key(Buyer(tr.trade), pairs[tr.pair].quote)
    ensures NoResidue(pairs, rows, tr) <==> Residue(pairs, rows, tr, k0) == 0.0
  {
    hide Wallets.Cost;
  }

  /** In an exchange whose account is exact, every stored trade is of that kind. */
  lemma StoredResidue(s: Exchange, i: nat)
    requires Inv(s) && i < |s.trades|
    ensures var tr := s.trades[i];
      && tr.pair < |s.pairs| && tr.trade.takerOrder < |s.rows|
      && var t, pair := tr.trade, s.pairs[tr.pair];
      NoResidue(s.pairs, s.rows, tr)
      <==> if t.takerSide.Buy? then LockPrice(s.rows[t.takerOrder], t) == t.price else pair.makerFee == pair.takerFee
  {
    hide NoResidue, Accounted, BooksOk, RowsOk;
    ResidueExactly(s.pairs, s.rows, s.trades[i]) by { TradeFair(s, i); }
    TradeIds(s.pairs, s.rows, s.trades[i]) by { TradeFair(s, i); }
  }

  lemma TradeFair(s: Exchange, i: nat)
    requires StoreOk(s) && i < |s.trades|
    ensures Fair(s.pairs, s.rows, s.trades[i])
  {
    hide Fair, RowsOk;
  }

  lemma TradeIds(pairs: seq<Pair>, rows: seq<Row>, tr: TradeRow)
    requires Fair(pairs, rows, tr)
    ensures tr.pair < |pairs| && tr.trade.takerOrder < |rows| && tr.trade.makerOrder < |rows|
    ensures rows[BuyOrder(tr.trade)].side.Buy?
  {
    hide Mul;
  }

  // ----- one order's buys -----

  /** No trade in which the order bought has left anything locked. */
  ghost predicate BuysExactly(s: Exchange, id: OrderId) {
    forall i :: 0 <= i < |s.trades| && BuyOrder(s.trades[i].trade) == id ==> NoResidue(s.pairs, s.rows, s.trades[i])
  }

  /** A sell never buys. */
  lemma SellsBuyNothing(s: Exchange, id: OrderId)
    requires StoreOk(s) && id < |s.rows| && s.rows[id].side.Sell?
    ensures BuysExactly(s, id)
  {
    hide NoResidue, Fair, RowsOk;
    forall i | 0 <= i < |s.trades| ensures BuyOrder(s.trades[i].trade) != id {
      TradeIds(s.pairs, s.rows, s.trades[i]) by { TradeFair(s, i); }
    }
  }

  /** A copy trades as a taker of its own, on its leader's side. */
  ghost predicate LaterTrades(s: Exchange, s': Exchange, side: Side) {
    && s.trades <= s'.trades
    && (forall i :: |s.trades| <= i < |s'.trades| ==>
          s'.trades[i].trade.takerOrder >= |s.rows| && s'.trades[i].trade.takerSide == side)
  }

  lemma FiledTrades(s: Exchange, s': Exchange, p: nat, o: Order, row: Row, e': State, r: EngineModel.Result,
                    a: seq<Fill>, b: seq<Fill>)
    requires Filed(s, s', p, o, row, e', r, a, b)
    ensures s'.trades == s.trades + Stored(p, TradesOf(r.fills, o, s.pairs[p].Fees())) && o.id == |s.rows|
    ensures LaterTrades(s, s', o.side)
  {
    hide Matched, FillRows, Backs, Mul;
    var t := TradesOf(r.fills, o, s.pairs[p].Fees());
    forall i | |s.trades| <= i < |s'.trades|
      ensures s'.trades[i].trade.takerOrder == |s.rows| && s'.trades[i].trade.takerSide == o.side
    {
      assert s'.trades[i] == TradeRow(p, t[i - |s.trades|]);
    }
  }

  lemma CopyOneTrades(s: Exchange, p: nat, leader: Row, tif: TimeInForce, rel: Relation)
    requires BooksFit(s) && p < |s.books| && leader.price > 0.0 && CopyOne(s, p, leader, tif, rel).1.Done?
    ensures LaterTrades(s, CopyOne(s, p, leader, tif, rel).0, leader.side)
  {
    hide Enter, BooksOk, Cap, FloorToStep, Filed, Release, Asked;
    var pair := s.pairs[p];
    var size := CopyQuantity(leader.quantity, leader.price, rel.allocation, rel.maxPosition, pair.minQty, pair.maxQty,
                             pair.minNotional, pair.stepSize);
    if size.Some? {
      var o := LimitOrder(s, rel.follower, leader.side, leader.price, size.value, tif, 0.0);
      if Enter(s, p, o).1.Done? {
        var row, e', r := EnterFiled(s, p, o);
        FiledTrades(s, Enter(s, p, o).0, p, o, row, e', r, r.fills, []);
      }
    }
  }

  lemma {:induction false} CopiesTrades(s: Exchange, p: nat, leader: Row, tif: TimeInForce, relations: seq<Relation>)
    requires BooksFit(s) && p < |s.books| && leader.price > 0.0 && Copies(s, p, leader, tif, relations).1.Done?
    ensures LaterTrades(s, Copies(s, p, leader, tif, relations).0, leader.side)
    decreases |relations|
  {
    hide CopyOne, BooksOk;
    if relations == [] {
    } else {
      var s1 := CopyOne(s, p, leader, tif, relations[0]).0;
      CopyOneOnward(s, p, leader, tif, relations[0]);
      CopyOneTrades(s, p, leader, tif, relations[0]);
      OnwardFits(s, s1);
      CopiesTrades(s1, p, leader, tif, relations[1..]);
    }
  }

  /** The best order of the other side is cheaper than a buy's limit. */
  ghost predicate PaysLess(e: State, o: Order) {
    o.side.Buy? && e.asks != [] && e.asks[0].price < o.price
  }

  /** A limit buy's fills are all at its limit unless the best ask is cheaper. */
  lemma FillsAtLimit(e: State, o: Order)
    requires BookSound(e) && Incoming(o) && o.kind.Limit? && o.side.Buy?
    ensures (forall f :: f in Process(e, o, false).1.fills ==> f.maker.price == o.price)
       <==> Killed(e, o) || !PaysLess(e, o)
  {
    hide Process, MatchQuantity, Fillable, LimitTaker, SideSound, Uncrossed;
    var asks := e.asks;
    SideOf(e, Sell);
    LimitSteps(e, o);
    if !Killed(e, o) {
      QuantityIsGreedy(asks, Buy, At(o.price), o.quantity);
      QuantityCrosses(asks, Buy, At(o.price), o.quantity);
      MatchFillsAtLimit(asks, o.price, o.quantity);
    }
  }

  lemma MatchFillsAtLimit(asks: seq<Order>, price: real, quantity: real)
    requires MakersOk(Sell, asks) && quantity > 0.0
    requires Greedy(asks, MatchQuantity(asks, Buy, At(price), quantity).fills)
    requires forall f :: f in MatchQuantity(asks, Buy, At(price), quantity).fills ==>
      Crosses(Buy, At(price), f.maker.price)
    ensures (forall f :: f in MatchQuantity(asks, Buy, At(price), quantity).fills ==> f.maker.price == price)
       <==> asks == [] || asks[0].price >= price
  {
    var fills := MatchQuantity(asks, Buy, At(price), quantity).fills;
    if asks != [] && asks[0].price < price {
      assert fills[0] in fills && fills[0].maker == asks[0];
    } else {
      forall f | f in fills ensures f.maker.price == price {
        var i :| 0 <= i < |fills| && fills[i] == f;
        assert fills[i].maker == asks[i];
        assert i > 0 ==> !Before(Sell, ByPrice.Key(asks[i]), ByPrice.Key(asks[0]));
      }
    }
  }

  /** One of the order's own fills has left nothing locked if and only if it was at the order's limit. */
  lemma OwnFillResidue(s: Exchange, i: nat, p: nat, o: Order, f: Fill)
    requires StoreOk(s) && p < |s.pairs| && o.id < |s.rows| && i < |s.trades|
    requires s.rows[o.id].kind.Limit? && s.rows[o.id].price == o.price && o.side.Buy?
    requires s.trades[i] == TradeRow(p, TradeOf(f, o, s.pairs[p].Fees()))
    ensures BuyOrder(s.trades[i].trade) == o.id
    ensures NoResidue(s.pairs, s.rows, s.trades[i]) <==> f.maker.price == o.price
  {
    hide NoResidue, Fair, RowsOk, Mul;
    ResidueExactly(s.pairs, s.rows, s.trades[i]) by { TradeFair(s, i); }
  }

  /** What a call that placed a limit order has stored of it, and what it has traded before its followers did. */
  lemma PlacedTrades(s: Exchange, ev: Event) returns (s1: Exchange, r: EngineModel.Result)
    requires Inv(s) && ev.PlaceLimit? && PlaceLimitOrder(s, ev).1.Done?
    ensures ev.pair < |s.books| && ev.pair < |s.pairs| && Incoming(Entering(s, ev)) && BookSound(s.books[ev.pair])
    ensures r == Process(s.books[ev.pair], Entering(s, ev), false).1
    ensures var s', o := PlaceLimitOrder(s, ev).0, Entering(s, ev);
      && StoreOk(s') && s'.pairs == s.pairs && |s.rows| < |s'.rows|
      && s'.rows[|s.rows|].kind.Limit? && s'.rows[|s.rows|].price == o.price && s'.rows[|s.rows|].side == o.side
      && s1.trades == s.trades + Stored(ev.pair, TradesOf(r.fills, o, s.pairs[ev.pair].Fees()))
      && |s1.rows| == |s.rows| + 1 && LaterTrades(s1, s', o.side)
  {
    hide Enter, Copies, Filed, Onward, BooksOk, Process, LimitShape, QuantityRules, PriceRules, Release, StoreOk,
         Accounted,
         PlaceLimitOrder, KeptBack, TradesOf, Stored;
    InvParts(s);
    BookAt(s, ev.pair) by { PlaceAccepted(s, ev); }
    var row, e', s2;
    row, e', r, s1, s2 := PlaceLimitStages(s, ev);
    FiledTrades(s, s1, ev.pair, Entering(s, ev), row, e', r, r.fills, []);
    TakerPrice(s, s1, ev.pair, Entering(s, ev), row, e', r);
    OnwardFits(s, s1);
    CopiesTrades(s1, ev.pair, row, ev.tif, s.relations);
    PlaceLimitInv(s, ev);
  }

  lemma PlaceAccepted(s: Exchange, ev: Event)
    requires ev.PlaceLimit? && PlaceLimitOrder(s, ev).1.Done?
    ensures LimitAccepted(s, ev) && Incoming(Entering(s, ev))
  {
    hide Enter, Copies, Finish, QuantityRules, PriceRules;
  }

  /** A limit order's fills leave something of its own locked if and only if it buys, is not killed, and the best ask is
      below its limit. */
  lemma LimitResidue(s: Exchange, ev: Event)
    requires Inv(s) && ev.PlaceLimit? && PlaceLimitOrder(s, ev).1.Done?
    ensures ev.pair < |s.books|
    ensures BuysExactly(PlaceLimitOrder(s, ev).0, |s.rows|)
       <==> Killed(s.books[ev.pair], Entering(s, ev)) || !PaysLess(s.books[ev.pair], Entering(s, ev))
  {
    hide Inv, PlaceLimitOrder, NoResidue, Process, TradesOf, Killed, StoreOk, BookSound, Fair, Incoming;
    var s', o, p := PlaceLimitOrder(s, ev).0, Entering(s, ev), ev.pair;
    var s1, r := PlacedTrades(s, ev);
    if o.side.Sell? {
      SellsBuyNothing(s', |s.rows|);
    } else {
      FillsAtLimit(s.books[p], o);
      OldTrades(s);
      var t := TradesOf(r.fills, o, s.pairs[p].Fees());
      forall j | 0 <= j < |r.fills|
        ensures BuyOrder(s'.trades[|s.trades| + j].trade) == o.id
        ensures NoResidue(s'.pairs, s'.rows, s'.trades[|s.trades| + j]) <==> r.fills[j].maker.price == o.price
      {
        assert s'.trades[|s.trades| + j] == s1.trades[|s.trades| + j] == TradeRow(p, t[j]);
        OwnFillResidue(s', |s.trades| + j, p, o, r.fills[j]);
      }
      OwnTrades(s, s1, s', r.fills, o);
    }
  }

  lemma OldTrades(s: Exchange)
    requires Inv(s)
    ensures forall i :: 0 <= i < |s.trades| ==> BuyOrder(s.trades[i].trade) < |s.rows|
  {
    hide Fair, RowsOk, Accounted, BooksOk;
    forall i | 0 <= i < |s.trades| ensures BuyOrder(s.trades[i].trade) < |s.rows| {
      TradeIds(s.pairs, s.rows, s.trades[i]) by { TradeFair(s, i); }
    }
  }

  /** Of the trades after the call, the order's own are those of its fills. */
  lemma OwnTrades(s: Exchange, s1: Exchange, s': Exchange, fills: seq<Fill>, o: Order)
    requires o.id == |s.rows| && |s1.rows| == |s.rows| + 1 && o.side.Buy? && LaterTrades(s1, s', Buy)
    requires s.trades <= s1.trades && |s1.trades| == |s.trades| + |fills|
    requires forall i :: 0 <= i < |s.trades| ==> BuyOrder(s.trades[i].trade) < |s.rows|
    requires forall j :: 0 <= j < |fills| ==>
      && BuyOrder(s'.trades[|s.trades| + j].trade) == o.id
      && (NoResidue(s'.pairs, s'.rows, s'.trades[|s.trades| + j]) <==> fills[j].maker.price == o.price)
    ensures BuysExactly(s', o.id) <==> forall f :: f in fills ==> f.maker.price == o.price
  {
    hide NoResidue;
    forall i | 0 <= i < |s.trades| ensures BuyOrder(s'.trades[i].trade) < |s.rows| {
      assert s'.trades[i] == s.trades[i];
    }
    assert forall i :: 0 <= i < |s'.trades| && BuyOrder(s'.trades[i].trade) == o.id ==> |s.trades| <= i < |s1.trades|;
    if BuysExactly(s', o.id) {
      forall f | f in fills ensures f.maker.price == o.price {
        var j :| 0 <= j < |fills| && fills[j] == f;
        assert NoResidue(s'.pairs, s'.rows, s'.trades[|s.trades| + j]);
      }
    } else {
      var i :| 0 <= i < |s'.trades| && BuyOrder(s'.trades[i].trade) == o.id
               && !NoResidue(s'.pairs, s'.rows, s'.trades[i]);
      assert fills[i - |s.trades|] in fills;
      assert s'.trades[|s.trades| + (i - |s.trades|)] == s'.trades[i];
    }
  }

  // ----- every run -----

  /** Later exchanges keep every order's terms and every trade. */
  ghost predicate Keeps(s: Exchange, s': Exchange) {
    s'.pairs == s.pairs && Extends(s.rows, s'.rows) && s.trades <= s'.trades
  }

  lemma OnwardKeeps(s: Exchange, s': Exchange)
    requires BooksFit(s) && Onward(s, s')
    ensures Keeps(s, s')
  {
    hide BooksOk, Filing.Rests;
    forall i | 0 <= i < |s.rows| ensures SameTerms(s.rows[i], s'.rows[i]) {
      if !Idle(s, i) {
        var q :| 0 <= q < |s.books| && Filing.Rests(s.books[q], i);
        assert Carried(s, s', q, i);
      }
    }
  }

  lemma StepKeeps(s: Exchange, ev: Event)
    requires BooksFit(s) && !Step(s, ev).1.InvariantViolated?
    ensures Keeps(s, Step(s, ev).0)
  {
    hide PlaceLimitOrder, PlaceMarketOrder, BooksOk, Onward, Release, Cancel;
    PlaceRefused(s, ev);
    if Step(s, ev).1.Done? {
      match ev
      case PlaceLimit(_, _, _, _, _, _, _) =>
        PlaceLimitOnward(s, ev);
        OnwardKeeps(s, Step(s, ev).0);
      case PlaceMarket(_, _, _, _, _) =>
        PlaceMarketOnward(s, ev);
        OnwardKeeps(s, Step(s, ev).0);
      case CancelOrder(user, id) =>
      case _ => OtherCalls(s, ev);
    }
  }

  lemma {:induction false} RunKeeps(s: Exchange, evs: seq<Event>)
    requires BooksFit(s) && Calm(s, evs)
    ensures Keeps(s, Run(s, evs))
    decreases |evs|
  {
    hide BooksFit, Step, SameTerms;
    if evs == [] {
      TermsSame(s);
    } else {
      var s1 := Step(s, evs[0]).0;
      StepFits(s, evs[0]);
      StepKeeps(s, evs[0]);
      RunKeeps(s1, evs[1..]);
      TermsChain(s, s1, Run(s, evs));
    }
  }

  lemma TermsSame(s: Exchange)
    ensures Keeps(s, s)
  {
  }

  lemma TermsChain(a: Exchange, b: Exchange, c: Exchange)
    requires Keeps(a, b) && Keeps(b, c)
    ensures Keeps(a, c)
  {
    forall i | 0 <= i < |a.rows| ensures SameTerms(a.rows[i], c.rows[i]) {
      assert SameTerms(a.rows[i], b.rows[i]) && SameTerms(b.rows[i], c.rows[i]);
    }
  }

  /** Nothing returns a residue: what the trades so far have left locked in a wallet, trade for trade, is left locked
      after every admissible run, and the wallet has at least all of it locked. */
  lemma ResiduesForGood(s: Exchange, evs: seq<Event>, k: Key)
    requires Inv(s) && Allowed(s, evs)
    ensures var r := Run(s, evs);
      && s.trades <= r.trades
      && (forall i :: 0 <= i < |s.trades| ==>
            Residue(r.pairs, r.rows, s.trades[i], k) == Residue(s.pairs, s.rows, s.trades[i], k))
      && r.vault.Locked(k) >= Total(Residues(s.pairs, s.rows, s.trades, k))
      && Total(Residues(r.pairs, r.rows, r.trades, k)) >= Total(Residues(s.pairs, s.rows, s.trades, k)) >= 0.0
  {
    hide Run, Allowed, BooksOk, Accounted, StoreOk, Total, Holds, Dues, Residue;
    RunInv(s, evs);
    RunKeeps(s, evs);
    var r := Run(s, evs);
    LockedSome(r, k);
    OwedSign(r, k);
    OwedSign(s, k);
    AllTradesFair(s);
    ExtendsKeeps(s.pairs, s.rows, r.rows, s.trades, k);
    forall i | 0 <= i < |s.trades|
      ensures Residue(r.pairs, r.rows, s.trades[i], k) == Residue(s.pairs, s.rows, s.trades[i], k)
    {
      assert Residues(r.pairs, r.rows, s.trades, k)[i] == Residues(s.pairs, s.rows, s.trades, k)[i];
    }
    MoreResidues(r, |s.trades|, k);
    assert r.trades[..|s.trades|] == s.trades;
  }

  lemma AllTradesFair(s: Exchange)
    requires StoreOk(s)
    ensures AllFair(s.pairs, s.rows, s.trades)
  {
  }

  /** The residues of some of the trades are no more than those of all. */
  lemma MoreResidues(s: Exchange, n: nat, k: Key)
    requires StoreOk(s) && n <= |s.trades|
    ensures Total(Residues(s.pairs, s.rows, s.trades, k)) >= Total(Residues(s.pairs, s.rows, s.trades[..n], k))
  {
    hide Residue, Fair, RowsOk;
    var all := Residues(s.pairs, s.rows, s.trades, k);
    forall i | 0 <= i < |all| ensures all[i] >= 0.0 {
      FairCovers(s.pairs, s.rows, s.trades[i], k) by { TradeFair(s, i); }
    }
    assert all == all[..n] + all[n..];
    TotalAppend(all[..n], all[n..]);
    TotalBounds(all[n..]);
    assert all[..n] == Residues(s.pairs, s.rows, s.trades[..n], k);
  }
}
