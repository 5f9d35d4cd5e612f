/** Every amount an exchange stores is positive, in every run whatever: what its trades move and charge, its deposits
    and its withdrawals. */
module Amounts {
  import opened Orders
  import opened Sums
  import opened Matching
  import opened EngineModel
  import opened EngineProofs
  import opened Wallets
  import opened PairRules
  import opened CopySizing
  import opened ExchangeModel
  import opened Accounting
  import opened Agreement
  import opened Matches
  import opened Filing
  import opened LedgerProofs

  ghost predicate AllPositive(trades: seq<TradeRow>) {
    forall i :: 0 <= i < |trades| ==> Positive(trades[i].trade)
  }

  ghost predicate Proper(s: Exchange) {
    PairsOk(s.pairs) && AllPositive(s.trades) && DepositsOk(s.deposits) && WithdrawalsOk(s.withdrawals)
  }

  lemma FillPositive(f: Fill, o: Order, pair: Pair)
    requires pair.Valid() && f.quantity > 0.0 && f.maker.price > 0.0
    ensures Positive(TradeOf(f, o, pair.Fees()))
  {
    hide Mul;
    MulSign(f.maker.price, f.quantity);
    FeeBelow(pair.makerFee, f.Worth());
    FeeBelow(pair.takerFee, f.Worth());
  }

  lemma GreedyPositive(side: Side, makers: seq<Order>, fills: seq<Fill>)
    requires SideSound(side, makers) && Greedy(makers, fills)
    ensures forall f :: f in fills ==> f.quantity > 0.0 && f.maker.price > 0.0
  {
    forall f | f in fills ensures f.quantity > 0.0 && f.maker.price > 0.0 {
      var i :| 0 <= i < |fills| && fills[i] == f;
      assert makers[i] in makers;
    }
  }

  lemma LegsPositive(side: Side, makers: seq<Order>, a: seq<Fill>, b: seq<Fill>)
    requires SideSound(side, makers) && Legs(side, makers, a, b)
    ensures forall f :: f in a + b ==> f.quantity > 0.0 && f.maker.price > 0.0
  {
    hide SideSound, Greedy, Leftover;
    GreedyPositive(side, makers, a);
    LeftoverSound(side, makers, a);
    GreedyPositive(side, Leftover(side, makers, a), b);
  }

  /** The trades of an order filed are all of positive amounts. */
  lemma FiledPositive(s: Exchange, s': Exchange, p: nat, o: Order, row: Row, e': State, r: EngineModel.Result,
                      a: seq<Fill>, b: seq<Fill>)
    requires BooksFit(s) && PairsOk(s.pairs) && AllPositive(s.trades) && Filed(s, s', p, o, row, e', r, a, b)
    ensures AllPositive(s'.trades)
  {
    hide Positive, SideSound, Legs, AfterLegs, FillRows, Backs, Mul;
    var opp, t := o.side.Opposite(), TradesOf(r.fills, o, s.pairs[p].Fees());
    BookAt(s, p);
    SideOf(s.books[p], opp);
    LegsPositive(opp, s.books[p].Makers(opp), a, b);
    forall i | |s.trades| <= i < |s'.trades| ensures Positive(s'.trades[i].trade) {
      var j := i - |s.trades|;
      assert s'.trades[i] == TradeRow(p, t[j]) && r.fills[j] in a + b;
      FillPositive(r.fills[j], o, s.pairs[p]);
    }
  }

  lemma CopyOnePositive(s: Exchange, p: nat, leader: Row, tif: TimeInForce, rel: Relation)
    requires BooksFit(s) && p < |s.books| && leader.price > 0.0 && CopyOne(s, p, leader, tif, rel).1.Done?
    requires PairsOk(s.pairs) && AllPositive(s.trades)
    ensures AllPositive(CopyOne(s, p, leader, tif, rel).0.trades)
  {
    hide Enter, BooksOk, Cap, FloorToStep, Filed, Release, Asked, Positive;
    var pair := s.pairs[p];
    var size := CopyQuantity(leader.quantity, leader.price, rel.allocation, rel.maxPosition, pair.minQty, pair.maxQty,
                             pair.minNotional, pair.stepSize);
    if size.Some? {
      var o := LimitOrder(s, rel.follower, leader.side, leader.price, size.value, tif, 0.0);
      if Enter(s, p, o).1.Done? {
        var row, e', r := EnterFiled(s, p, o);
        FiledPositive(s, Enter(s, p, o).0, p, o, row, e', r, r.fills, []);
      }
    }
  }

  lemma {:induction false} CopiesPositive(s: Exchange, p: nat, leader: Row, tif: TimeInForce, relations: seq<Relation>)
    requires BooksFit(s) && p < |s.books| && leader.price > 0.0 && Copies(s, p, leader, tif, relations).1.Done?
    requires PairsOk(s.pairs) && AllPositive(s.trades)
    ensures AllPositive(Copies(s, p, leader, tif, relations).0.trades)
    decreases |relations|
  {
    hide CopyOne, BooksOk, AllPositive, PairsOk;
    if relations == [] {
    } else {
      var s1 := CopyOne(s, p, leader, tif, relations[0]).0;
      CopyOneOnward(s, p, leader, tif, relations[0]);
      CopyOnePositive(s, p, leader, tif, relations[0]);
      OnwardFits(s, s1);
      CopiesPositive(s1, p, leader, tif, relations[1..]);
    }
  }

  lemma PlacedPositive(s: Exchange, ev: Event)
    requires BooksFit(s) && PairsOk(s.pairs) && AllPositive(s.trades)
    requires (ev.PlaceLimit? || ev.PlaceMarket?) && Step(s, ev).1.Done?
    ensures AllPositive(Step(s, ev).0.trades)
  {
    hide Enter, Copies, Filed, Onward, BooksOk, Process, LimitShape, KeptBack, QuantityRules, PriceRules, Release,
         AllPositive, PairsOk, PlaceMarketOrder, PlaceLimitOrder, Single, MarketTaker, FillTotal;
    if ev.PlaceLimit? {
      var row, e', r, s1, s2 := PlaceLimitStages(s, ev);
      FiledPositive(s, s1, ev.pair, Entering(s, ev), row, e', r, r.fills, []);
      OnwardFits(s, s1);
      TakerPrice(s, s1, ev.pair, Entering(s, ev), row, e', r);
      CopiesPositive(s1, ev.pair, row, ev.tif, s.relations);
    } else {
      var o, row, e', r, a, b := MarketFiled(s, ev);
      FiledPositive(s, Step(s, ev).0, ev.pair, o, row, e', r, a, b);
    }
  }

  /** A call answered with a violated invariant leaves everything as it was. */
  lemma ViolatedSame(s: Exchange, ev: Event)
    ensures Step(s, ev).1.InvariantViolated? ==> Step(s, ev).0 == s
  {
    hide Enter, Copies, MatchMarketOrder, Reserve, QuantityRules, PriceRules, BestPrice, Release, Vault.Move, Vault.Log;
  }

  lemma StepProper(s: Exchange, ev: Event)
    requires BooksFit(s) && Proper(s)
    ensures BooksFit(Step(s, ev).0) && Proper(Step(s, ev).0)
  {
    hide BooksFit, PlaceLimitOrder, PlaceMarketOrder, Release, Cancel, AllPositive, PairsOk, Vault.Move, Vault.Log;
    PlaceRefused(s, ev);
    ViolatedSame(s, ev);
    if Step(s, ev).1.Done? {
      StepFits(s, ev);
      if ev.PlaceLimit? || ev.PlaceMarket? {
        PlacedPositive(s, ev);
        OrdersLeaveFunds(s, ev);
        PlacedPairs(s, ev);
      }
    }
  }

  lemma PlacedPairs(s: Exchange, ev: Event)
    requires ev.PlaceLimit? || ev.PlaceMarket?
    ensures Step(s, ev).0.pairs == s.pairs
  {
    hide Enter, Copies, Process, Persist, TradesOf, Reserve, QuantityRules, PriceRules, BestPrice, Release,
         ReleaseQuote, FillTotal, FillWorth;
  }

  /** In every run whatever, no call stores an amount that is not positive. */
  lemma {:induction false} RunProper(s: Exchange, evs: seq<Event>)
    requires BooksFit(s) && Proper(s)
    ensures Proper(Run(s, evs))
    decreases |evs|
  {
    hide BooksFit, Proper, Step;
    if evs == [] {
    } else {
      StepProper(s, evs[0]);
      RunProper(Step(s, evs[0]).0, evs[1..]);
    }
  }
}
