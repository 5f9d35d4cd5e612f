/** What is stored of trades: in every run, admissible or not, each is between an order and a maker of the other side
    that are stored with their users, at the maker's price and no worse than the taker's limit, with each side's own
    fee. */
module StoredTrades {
  import opened Orders
  import opened Sums
  import opened Matching
  import opened EngineModel
  import opened EngineProofs
  import opened Wallets
  import opened PairRules
  import opened CopySizing
  import opened ExchangeModel
  import opened Accounting
  import opened Agreement
  import opened Matches
  import opened Filing
  import opened Amounts
  import opened BuyResidues
  import opened OrderFates

  /** The order stored under a taker's id has its terms. */
  predicate Carries(rows: seq<Row>, p: nat, o: Order) {
    && o.id < |rows| && var row := rows[o.id];
    && row.user == o.user && row.pair == p && row.side == o.side && row.kind == o.kind && row.price == o.price
  }

  ghost predicate CrossesAll(o: Order, fills: seq<Fill>) {
    o.kind.Limit? ==> o.price > 0.0 && forall f :: f in fills ==> Crosses(o.side, At(o.price), f.maker.price)
  }

  // ----- one match -----

  lemma FillFair(pairs: seq<Pair>, rows: seq<Row>, p: nat, o: Order, f: Fill)
    requires p < |pairs| && pairs[p].Valid() && Carries(rows, p, o) && Backs(rows, p, f.maker)
    requires f.quantity > 0.0 && f.maker.price > 0.0 && f.maker.side == o.side.Opposite()
    requires o.kind.Limit? ==> o.price > 0.0 && Crosses(o.side, At(o.price), f.maker.price)
    ensures Fair(pairs, rows, TradeRow(p, TradeOf(f, o, pairs[p].Fees())))
  {
    hide Mul;
  }

  lemma LegFair(pairs: seq<Pair>, rows: seq<Row>, p: nat, o: Order, makers: seq<Order>, fills: seq<Fill>)
    requires p < |pairs| && pairs[p].Valid() && Carries(rows, p, o) && CrossesAll(o, fills)
    requires SideSound(o.side.Opposite(), makers) && Greedy(makers, fills) && SideBacked(rows, p, makers)
    ensures AllFair(pairs, rows, Stored(p, TradesOf(fills, o, pairs[p].Fees())))
  {
    hide Fair, SideSound, Backs, Carries, Mul;
    GreedyPositive(o.side.Opposite(), makers, fills);
    var t := TradesOf(fills, o, pairs[p].Fees());
    forall i | 0 <= i < |t| ensures Fair(pairs, rows, TradeRow(p, t[i])) {
      assert fills[i] in fills && makers[i] in makers;
      MakerFacts(o.side.Opposite(), makers, i);
      FillFair(pairs, rows, p, o, fills[i]);
    }
  }

  lemma FairAppend(pairs: seq<Pair>, rows: seq<Row>, a: seq<TradeRow>, b: seq<TradeRow>)
    requires AllFair(pairs, rows, a) && AllFair(pairs, rows, b)
    ensures AllFair(pairs, rows, a + b)
  {
    hide Fair;
  }

  lemma StoredAppend(p: nat, a: seq<Trade>, b: seq<Trade>)
    ensures Stored(p, a + b) == Stored(p, a) + Stored(p, b)
  {
  }

  /** The trades of an order filed are fair, and so are those there were. */
  lemma FiledFair(s: Exchange, s': Exchange, p: nat, o: Order, row: Row, e': State, r: EngineModel.Result, a: seq<Fill>,
                  b: seq<Fill>)
    requires BooksFit(s) && PairsOk(s.pairs) && AllFair(s.pairs, s.rows, s.trades)
    requires Filed(s, s', p, o, row, e', r, a, b) && (o.kind.Limit? ==> o.price > 0.0)
    ensures AllFair(s'.pairs, s'.rows, s'.trades)
  {
    hide AllFair, SideSound, Greedy, Leftover, FillRows, Backs, Mul, TradesOf, Stored, Extends, SideBacked, Crosses;
    var opp, fees, pairs := o.side.Opposite(), s.pairs[p].Fees(), s.pairs;
    var makers, rows := s.books[p].Makers(opp), s.rows + [row];
    var ta, tb := TradesOf(a, o, fees), TradesOf(b, o, fees);
    var rows1 := FillRows(rows, ta);
    BookAt(s, p);
    SideOf(s.books[p], opp);
    BackedLonger(s.rows, row, p, makers) by { MakersBacked(s, p, opp); }
    LegFair(pairs, rows, p, o, makers, a);
    LeftoverBacked(rows, p, opp, makers, a, o, fees);
    LeftoverSound(opp, makers, a);
    FillRowsTerms(rows, ta);
    FillRowsTerms(rows1, tb);
    CarriesOn(rows, rows1, p, o);
    LegFair(pairs, rows1, p, o, Leftover(opp, makers, a), b);
    TradesAppend(a, b, o, fees);
    FillRowsAppend(rows, ta, tb);
    StoredAppend(p, ta, tb);
    RowsExtend(s.rows, row);
    KeepFair(pairs, s.rows, rows, s.trades);
    FairAppend(pairs, rows, s.trades, Stored(p, ta));
    KeepFair(pairs, rows, rows1, s.trades + Stored(p, ta));
    FairAppend(pairs, rows1, s.trades + Stored(p, ta), Stored(p, tb));
    KeepFair(pairs, rows1, s'.rows, s.trades + Stored(p, ta) + Stored(p, tb));
    assert s'.trades == s.trades + Stored(p, ta) + Stored(p, tb);
  }

  lemma MakersBacked(s: Exchange, p: nat, side: Side)
    requires BooksFit(s) && p < |s.books|
    ensures SideBacked(s.rows, p, s.books[p].Makers(side))
  {
    hide BookSound, Backs;
    BookAt(s, p);
  }

  lemma CarriesOn(rows: seq<Row>, rows': seq<Row>, p: nat, o: Order)
    requires Extends(rows, rows') && Carries(rows, p, o)
    ensures Carries(rows', p, o)
  {
    assert SameTerms(rows[o.id], rows'[o.id]);
  }

  lemma RowsExtend(rows: seq<Row>, row: Row)
    ensures Extends(rows, rows + [row])
  {
  }

  lemma KeepFair(pairs: seq<Pair>, rows: seq<Row>, rows': seq<Row>, trades: seq<TradeRow>)
    requires Extends(rows, rows') && AllFair(pairs, rows, trades)
    ensures AllFair(pairs, rows', trades)
  {
    hide Residues, Fair, Extends;
    ExtendsKeeps(pairs, rows, rows', trades, Key(0, 0));
  }

  // ----- every call -----

  ghost predicate TradesFit(s: Exchange) {
    PairsOk(s.pairs) && AllFair(s.pairs, s.rows, s.trades)
  }

  lemma EnterFits(s: Exchange, p: nat, o: Order)
    requires BooksFit(s) && TradesFit(s) && p < |s.books| && Incoming(o) && o.kind.Limit? && o.id == |s.rows|
    requires Enter(s, p, o).1.Done?
    ensures TradesFit(Enter(s, p, o).0)
  {
    hide Enter, Filed, BooksOk, AllFair, PairsOk, LimitShape, KeptBack, Process, Onward;
    var row, e', r := EnterFiled(s, p, o);
    FiledFair(s, Enter(s, p, o).0, p, o, row, e', r, r.fills, []);
    FiledOnward(s, Enter(s, p, o).0, p, o, row, e', r, r.fills, []);
  }

  /** Calls that match nothing keep every trade fair while they keep every order's terms. */
  lemma TermsFit(s: Exchange, s': Exchange)
    requires TradesFit(s) && Keeps(s, s') && s'.trades == s.trades
    ensures TradesFit(s')
  {
    hide AllFair, Extends;
    KeepFair(s.pairs, s.rows, s'.rows, s.trades);
  }

  lemma FinishFits(s: Exchange, p: nat, id: OrderId)
    requires TradesFit(s) && p < |s.pairs| && id < |s.rows|
    ensures TradesFit(Finish(s, p, id))
  {
    hide AllFair, Release;
    TermsFit(s, Finish(s, p, id));
  }

  lemma CopyOneFits(s: Exchange, p: nat, leader: Row, tif: TimeInForce, rel: Relation)
    requires BooksFit(s) && TradesFit(s) && p < |s.books| && leader.price > 0.0
    requires CopyOne(s, p, leader, tif, rel).1.Done?
    ensures TradesFit(CopyOne(s, p, leader, tif, rel).0)
  {
    hide Enter, BooksOk, Cap, FloorToStep, Finish, Asked, AllFair, PairsOk;
    var pair := s.pairs[p];
    var size := CopyQuantity(leader.quantity, leader.price, rel.allocation, rel.maxPosition, pair.minQty, pair.maxQty,
                             pair.minNotional, pair.stepSize);
    if size.Some? {
      var o := LimitOrder(s, rel.follower, leader.side, leader.price, size.value, tif, 0.0);
      if Enter(s, p, o).1.Done? {
        EnterFits(s, p, o);
        FinishFits(Enter(s, p, o).0, p, |s.rows|);
      }
    }
  }

  lemma {:induction false} CopiesFit(s: Exchange, p: nat, leader: Row, tif: TimeInForce, relations: seq<Relation>)
    requires BooksFit(s) && TradesFit(s) && p < |s.books| && leader.price > 0.0
    requires Copies(s, p, leader, tif, relations).1.Done?
    ensures TradesFit(Copies(s, p, leader, tif, relations).0)
    decreases |relations|
  {
    hide CopyOne, BooksOk, TradesFit;
    if relations == [] {
    } else {
      var s1 := CopyOne(s, p, leader, tif, relations[0]).0;
      CopyOneOnward(s, p, leader, tif, relations[0]);
      CopyOneFits(s, p, leader, tif, relations[0]);
      OnwardFits(s, s1);
      CopiesFit(s1, p, leader, tif, relations[1..]);
    }
  }

  lemma PlacedFits(s: Exchange, ev: Event)
    requires BooksFit(s) && TradesFit(s) && (ev.PlaceLimit? || ev.PlaceMarket?) && Step(s, ev).1.Done?
    ensures TradesFit(Step(s, ev).0)
  {
    hide Enter, Copies, Filed, Onward, BooksOk, Process, LimitShape, KeptBack, QuantityRules, PriceRules, Release,
         AllFair, PairsOk, PlaceMarketOrder, PlaceLimitOrder, Single, MarketTaker, FillTotal, Finish;
    if ev.PlaceLimit? {
      var row, e', r, s1, s2 := PlaceLimitStages(s, ev);
      FiledFair(s, s1, ev.pair, Entering(s, ev), row, e', r, r.fills, []);
      OnwardFits(s, s1);
      TakerPrice(s, s1, ev.pair, Entering(s, ev), row, e', r);
      CopiesFit(s1, ev.pair, row, ev.tif, s.relations);
      FinishFits(s2, ev.pair, |s.rows|);
    } else {
      var o, row, e', r, a, b := MarketFiled(s, ev);
      FiledFair(s, Step(s, ev).0, ev.pair, o, row, e', r, a, b);
    }
    PlacedPairs(s, ev);
  }

  lemma StepTradesFit(s: Exchange, ev: Event)
    requires BooksFit(s) && TradesFit(s)
    ensures BooksFit(Step(s, ev).0) && TradesFit(Step(s, ev).0)
  {
    hide BooksFit, PlaceLimitOrder, PlaceMarketOrder, Release, Cancel, AllFair, PairsOk, Extends;
    PlaceRefused(s, ev);
    ViolatedSame(s, ev);
    if Step(s, ev).1.Done? {
      StepFits(s, ev);
      if ev.PlaceLimit? || ev.PlaceMarket? {
        PlacedFits(s, ev);
      } else {
        StepKeeps(s, ev);
        if !ev.CancelOrder? { OtherCalls(s, ev); }
        TermsFit(s, Step(s, ev).0);
      }
    }
  }

  lemma {:induction false} RunTradesFit(s: Exchange, evs: seq<Event>)
    requires BooksFit(s) && TradesFit(s)
    ensures TradesFit(Run(s, evs))
    decreases |evs|
  {
    hide BooksFit, TradesFit, Step;
    if evs == [] {
    } else {
      StepTradesFit(s, evs[0]);
      RunTradesFit(Step(s, evs[0]).0, evs[1..]);
    }
  }

  /** In every run, admissible or not, a stored trade names its two orders and their users, who are on opposite sides of
      its pair; it is at the maker's limit, no worse than a limit the taker has, worth what its price and size come to,
      and charges the taker the pair's taker fee and the maker its maker fee. */
  lemma StoredTradesTell(s: Exchange, evs: seq<Event>, i: nat)
    requires Fresh(s) && i < |Run(s, evs).trades|
    ensures var r := Run(s, evs); var t, p := r.trades[i].trade, r.trades[i].pair;
      && p < |r.pairs| && t.takerOrder < |r.rows| && t.makerOrder < |r.rows|
      && var taker, maker := r.rows[t.takerOrder], r.rows[t.makerOrder];
      && taker.pair == p && taker.user == t.takerUser && taker.side == t.takerSide
      && maker.pair == p && maker.user == t.makerUser && maker.side != t.takerSide
      && maker.kind.Limit? && t.price == maker.price > 0.0 && t.quantity > 0.0
      && (taker.kind.Limit? ==> if taker.side.Buy? then t.price <= taker.price else t.price >= taker.price)
      && t.quote == t.price * t.quantity
      && t.takerFee == r.pairs[p].takerFee * t.quote && t.makerFee == r.pairs[p].makerFee * t.quote
  {
    hide Run;
    FreshFits(s);
    RunTradesFit(s, evs);
    assert Fair(Run(s, evs).pairs, Run(s, evs).rows, Run(s, evs).trades[i]);
  }

  lemma FreshFits(s: Exchange)
    requires Fresh(s)
    ensures BooksFit(s) && TradesFit(s)
  {
  }
}
