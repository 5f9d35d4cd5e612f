/** Where the account ends: a call keeps every wallet's account, the ledger and the totals if and only if it is
    admissible, and a run does so at every call if and only if all its calls are. */
module Boundaries {
  import opened Orders
  import opened Sums
  import opened Priority
  import opened Matching
  import opened EngineModel
  import opened EngineProofs
  import opened Wallets
  import opened PairRules
  import opened ExchangeModel
  import opened Accounting
  import opened Agreement
  import opened Matches
  import opened Filing
  import opened ExchangeProofs
  import opened LedgerProofs
  import opened Folding
  import opened OrderFates
  import opened Drift

  // ----- settling more than was reserved -----

  /** A settlement takes its quantity out of what its seller has locked, but for what it creates. */
  lemma SettleDebits(s: Exchange, p: nat, t: Trade)
    requires p < |s.pairs| && s.pairs[p].base != s.pairs[p].quote && Settle(s.vault, s.pairs[p], t).Ok?
    ensures var base := s.pairs[p].base; var s' := Executed(s, p, t, Settle(s.vault, s.pairs[p], t).value);
      var k := Key(Seller(t), base);
      s'.vault.Locked(k) - Unexplained(s', base) == s.vault.Locked(k) - Unexplained(s, base) - t.quantity
  {
    hide Unexplained, Transfer, FillRow, Vault.Locked, ReserveOk;
    var v, pair := s.vault, s.pairs[p];
    SettleCreates(s, p, t, pair.base);
    TransferLocked(v, pair, t, Min(t.quote + BuyerFee(t), v.Locked(Key(Buyer(t), pair.quote))),
                   Min(t.quantity, v.Locked(Key(Seller(t), pair.base))), Key(Seller(t), pair.base));
  }

  /** A trade whose maker holds nothing in a wallet, and whose quote asset is another, leaves what that wallet owes. */
  lemma ExecutedOwed(s: Exchange, p: nat, t: Trade, v: Vault, k: Key)
    requires p < |s.pairs| && k.asset != s.pairs[p].quote
    requires t.makerOrder < |s.rows| ==> !HeldAt(s.pairs, s.rows[t.makerOrder], k)
    ensures Owed(Executed(s, p, t, v), k) == Owed(s, k)
  {
    hide Total, Hold, Wallets.Cost, Dues;
    var s', tr := Executed(s, p, t, v), TradeRow(p, t);
    ResiduesAppend(s.pairs, s'.rows, s.trades, tr, k);
    assert Residues(s.pairs, s'.rows, s.trades, k) == Residues(s.pairs, s.rows, s.trades, k);
    if t.makerOrder < |s.rows| {
      var m' := s'.rows[t.makerOrder];
      HoldElsewhere(s.pairs, s.rows[t.makerOrder], k);
      HoldElsewhere(s.pairs, m', k);
      HoldsUpdate(s.pairs, s.rows, t.makerOrder, m', k);
    }
  }

  /** Trades all sold by one user, to makers who hold nothing in its base wallet. */
  ghost predicate SoldBy(s: Exchange, p: nat, trades: seq<Trade>, user: UserId)
    requires p < |s.pairs|
  {
    forall i :: 0 <= i < |trades| ==>
      && Seller(trades[i]) == user
      && (trades[i].makerOrder < |s.rows| ==>
            !HeldAt(s.pairs, s.rows[trades[i].makerOrder], Key(user, s.pairs[p].base)))
  }

  /** Persisting such trades takes all they sell out of that wallet's locked funds, but for what they create, and
      leaves what the wallet owes. */
  lemma {:induction false} PersistDebits(s: Exchange, p: nat, trades: seq<Trade>, user: UserId)
    requires p < |s.pairs| && s.pairs[p].base != s.pairs[p].quote && SoldBy(s, p, trades, user)
    requires Persist(s, p, trades).Ok?
    ensures var s' := Persist(s, p, trades).value; var base := s.pairs[p].base; var k := Key(user, base);
      && Owed(s', k) == Owed(s, k)
      && s'.vault.Locked(k) - Unexplained(s', base)
           == s.vault.Locked(k) - Unexplained(s, base) - BaseMoved(trades)
    decreases |trades|
  {
    hide Settle, Owed, Unexplained, Vault.Locked, HeldAt;
    if trades == [] {
    } else {
      var t, rest, k := trades[0], trades[1..], Key(user, s.pairs[p].base);
      var s1 := Executed(s, p, t, Settle(s.vault, s.pairs[p], t).value);
      SettleDebits(s, p, t);
      ExecutedOwed(s, p, t, s1.vault, k);
      forall i | 0 <= i < |rest|
        ensures Seller(rest[i]) == user
        ensures rest[i].makerOrder < |s1.rows| ==> !HeldAt(s1.pairs, s1.rows[rest[i].makerOrder], k)
      {
        assert rest[i] == trades[i + 1];
        HeldStill(s.pairs, s.rows, t, rest[i].makerOrder, k);
      }
      PersistDebits(s1, p, rest, user);
    }
  }

  lemma HeldStill(pairs: seq<Pair>, rows: seq<Row>, t: Trade, i: OrderId, k: Key)
    ensures |FillRow(rows, t)| == |rows|
    ensures i < |rows| ==> (HeldAt(pairs, FillRow(rows, t)[i], k) <==> HeldAt(pairs, rows[i], k))
  {
  }

  lemma {:induction false} MovedIsFilled(fills: seq<Fill>, o: Order, fees: EngineModel.Fees)
    ensures BaseMoved(TradesOf(fills, o, fees)) == FillTotal(fills)
    decreases |fills|
  {
    hide FillTotal, Mul;
    var t := TradesOf(fills, o, fees);
    if fills == [] {
      NoFillTotals();
    } else {
      assert t[1..] == TradesOf(fills[1..], o, fees);
      MovedIsFilled(fills[1..], o, fees);
      assert fills == [fills[0]] + fills[1..];
      FillAppend([fills[0]], fills[1..]);
      FillOne(fills[0]);
    }
  }

  lemma LegMakers(side: Side, makers: seq<Order>, a: seq<Fill>, b: seq<Fill>, i: nat)
    requires SideSound(side, makers) && Legs(side, makers, a, b) && i < |a + b|
    ensures exists x :: x in makers && x.id == (a + b)[i].maker.id
  {
    hide Leftover, SideSound;
    if i < |a| {
      assert makers[i] in makers;
    } else {
      LeftoverSound(side, makers, a);
      assert Leftover(side, makers, a)[i - |a|] in Leftover(side, makers, a);
    }
  }

  /** A market sell's trades are all sold by its user, to bids. */
  lemma MarketSoldBy(s: Exchange, p: nat, o: Order, row: Row, e': State, r: EngineModel.Result, a: seq<Fill>,
                     b: seq<Fill>)
    requires BooksFit(s) && p < |s.books| && PairsOk(s.pairs) && o.side.Sell?
    requires Matched(s.books[p], e', o, r, a, b)
    ensures SoldBy(s.(rows := s.rows + [row]), p, TradesOf(r.fills, o, s.pairs[p].Fees()), o.user)
  {
    hide Mul, AfterLegs, Legs, SideSound;
    var bids, t, rows := s.books[p].bids, TradesOf(r.fills, o, s.pairs[p].Fees()), s.rows + [row];
    BookAt(s, p);
    SideOf(s.books[p], Buy);
    forall i | 0 <= i < |t|
      ensures Seller(t[i]) == o.user
      ensures t[i].makerOrder < |rows| && !HeldAt(s.pairs, rows[t[i].makerOrder], Key(o.user, s.pairs[p].base))
    {
      LegMakers(Buy, bids, a, b, i);
      var x :| x in bids && x.id == (a + b)[i].maker.id;
      assert Backs(s.rows, p, x);
      BidSide(Buy, bids, x);
    }
  }

  lemma BidSide(side: Side, s: seq<Order>, o: Order)
    requires SideSound(side, s) && o in s
    ensures o.side == side
  {
  }

  /** A market sell's reserve and row, before any of its trades: its quantity more is locked, and nothing
      more is owed. */
  lemma SellEntered(s: Exchange, ev: Event, row: Row, e': State)
    requires Inv(s) && ev.PlaceMarket? && ev.side.Sell? && MarketAccepted(s, ev) && MarketReserved(s, ev).Ok?
    requires row.kind.Market? && row.price == 0.0 && row.hidden == 0.0
    ensures var k := Key(ev.user, s.pairs[ev.pair].base);
      var s1 := s.(vault := MarketReserved(s, ev).value, books := s.books[ev.pair := e'], rows := s.rows + [row]);
      && s1.vault.Locked(k) == s.vault.Locked(k) + ev.quantity
      && Owed(s1, k) == Owed(s, k)
      && Unexplained(s1, s.pairs[ev.pair].base) == Unexplained(s, s.pairs[ev.pair].base)
  {
    hide BooksOk, Reserve, Lockup, Mul, BestPrice, QuantityRules, Hold, Total, Supply, Unexplained, Dues, Residues,
         Holds,
         Fair, RowsOk, AllFair, Accounted;
    var pair, reference := s.pairs[ev.pair], BestPrice(s.books[ev.pair], ev.side.Opposite());
    var k := Key(ev.user, pair.base);
    var s1 := s.(vault := MarketReserved(s, ev).value, books := s.books[ev.pair := e'], rows := s.rows + [row]);
    ReserveEffect(s.vault, pair, ev.user, Sell, ev.quantity, reference, ev.quote, pair.takerFee, k);
    SellLockup(reference, ev.quantity, pair.takerFee);
    ReserveSupply(s.vault, pair, ev.user, Sell, ev.quantity, reference, ev.quote, pair.takerFee, pair.base);
    SameVault(s, s1, pair.base);
    HoldsAppend(s.pairs, s.rows, row, k);
    HoldsNothing(s.pairs, row, k);
    assert Extends(s.rows, s1.rows);
    ExtendsKeeps(s.pairs, s.rows, s1.rows, s.trades, k);
  }

  /** A market sell that goes on to spend its budget sells more than it reserved.  If its trades are settled at all,
      the seller's locked base then falls short of what it owes, or the missing base has been created; between the
      two, by exactly what was sold beyond the quantity. */
  lemma OversellBreaks(s: Exchange, ev: Event)
    requires Inv(s) && Oversells(s, ev)
    ensures var (s', reply) := PlaceMarketOrder(s, ev); var base := s.pairs[ev.pair].base; var k := Key(ev.user, base);
      var sold := FillTotal(MatchMarket(s.books[ev.pair].bids, MarketOrder(s, ev)).0);
      && sold > ev.quantity
      && (reply.Done? ==>
            (Owed(s', k) - s'.vault.Locked(k)) + (Unexplained(s', base) - Unexplained(s, base)) == sold - ev.quantity)
  {
    hide BooksOk, Reserve, Lockup, BestPrice, QuantityRules, Process, Persist, TradesOf, FillTotal, FillWorth, Filed,
         Matched, Depth, FirstWorth, Owed, Unexplained, Accounted, StoreOk, Single, BookSound, MarketTaker,
         Vault.Locked,
         MatchMarket;
    var p, o := ev.pair, MarketOrder(s, ev);
    BookAt(s, p);
    IdNotResting(s, p);
    var a, b := MarketMatches(s.books[p], o) by { BookHeld(s.rows, p, s.books[p]); }
    var (e', r) := Process(s.books[p], o, false);
    OversellFills(s.books[p], o) by { BookHeld(s.rows, p, s.books[p]); }
    if PlaceMarketOrder(s, ev).1.Done? {
      var pair, row := s.pairs[p], RowOf(p, r.taker, 0.0);
      var s1 := s.(vault := MarketReserved(s, ev).value, books := s.books[p := e'], rows := s.rows + [row]);
      TakerTerms(s.books[p], e', o, r, a, b);
      LockedSome(s, Key(ev.user, pair.base));
      SellEntered(s, ev, row, e');
      MarketSoldBy(s, p, o, row, e', r, a, b);
      var t := TradesOf(r.fills, o, pair.Fees());
      assert SoldBy(s1, p, t, o.user);
      PersistDebits(s1, p, t, o.user);
      MovedIsFilled(r.fills, o, pair.Fees());
      var s2 := Persist(s1, p, t).value;
      assert PlaceMarketOrder(s, ev).0 == s2 by {
        OversoldTaker(o, FillTotal(r.fills));
        SellLockup(BestPrice(s.books[p], Buy), 0.0, pair.takerFee);
        NothingReleased(s2.vault, pair, o.user, Sell);
      }
    }
  }

  lemma OversellFills(e: State, o: Order)
    requires BookSound(e) && o.kind.Market? && o.side.Sell? && o.tif != Fok && SpendsOn(e.bids, o)
    ensures FillTotal(MatchMarket(e.bids, o).0) > o.quantity
    ensures Process(e, o, false).1.fills == MatchMarket(e.bids, o).0
  {
    hide MatchMarket, FillTotal, SideSound, Depth, FirstWorth, CheckStops, FillWorth;
    FillsBeyondQuantity(e.bids, o);
  }

  lemma OversoldTaker(o: Order, total: real)
    requires total > o.quantity
    ensures MarketTaker(o, total).Remaining() == 0.0
  {
  }

  // ----- releasing what was released before -----

  /** Cancelling an order that is no limit order changes nothing of what is owed, yet asks for its rest again.  It
      takes what it asks for, as far as anything is locked, out of funds locked for something else; and where nothing
      is, it logs an entry of nothing. */
  lemma CancelBreaks(s: Exchange, user: UserId, id: OrderId)
    requires Inv(s) && ReleasesTwice(s, CancelOrder(user, id))
    ensures var s' := CancelStored(s, user, id).0; var pair := s.pairs[s.rows[id].pair];
      var k := Key(user, LockAsset(pair, s.rows[id].side)); var taken := Min(CancelAsks(s, id), s.vault.Locked(k));
      && taken >= 0.0 && s'.vault.Locked(k) == Owed(s', k) - taken
      && s'.vault.ledger == s.vault.ledger
           + [Entry(OrderRelease, k, 0.0, taken, s.vault.Available(k) + s.vault.Locked(k))]
  {
    hide BooksOk, StoreOk, Accounted, Lockup, Total, Cancel, RowOk, Residues, Dues;
    var row, pair := s.rows[id], s.pairs[s.rows[id].pair];
    var k, s' := Key(user, LockAsset(pair, row.side)), CancelStored(s, user, id).0;
    LockedSome(s, k);
    HoldsUpdate(s.pairs, s.rows, id, row.(status := Cancelled), k);
    CancelKeepsOwed(s, s', id, k);
  }

  lemma CancelKeepsOwed(s: Exchange, s': Exchange, id: OrderId, k: Key)
    requires id < |s.rows| && !s.rows[id].kind.Limit? && StoreOk(s)
    requires s' == s.(vault := s'.vault, books := s'.books, rows := s.rows[id := s.rows[id].(status := Cancelled)])
    ensures Owed(s', k) == Owed(s, k)
  {
    hide Hold, Total, Residues, Dues, Holds, RowsOk, AllFair;
    var row' := s.rows[id].(status := Cancelled);
    assert Extends(s.rows, s'.rows);
    ExtendsKeeps(s.pairs, s.rows, s'.rows, s.trades, k);
    HoldsUpdate(s.pairs, s.rows, id, row', k);
    SameHold(s.pairs, s.rows[id], k);
  }

  lemma SameHold(pairs: seq<Pair>, r: Row, k: Key)
    requires !r.kind.Limit?
    ensures Hold(pairs, r.(status := Cancelled), k) == Hold(pairs, r, k)
  {
  }

  // ----- exactly the admissible calls -----

  /** A call that is not answered with a violated invariant, and keeps every wallet's account, a single-sided ledger
      and the total of every asset. */
  ghost predicate Kept(s: Exchange, ev: Event) {
    var (s', reply) := Step(s, ev);
    && !reply.InvariantViolated? && Inv(s') && EntriesSingle(s'.vault)
    && (forall asset :: Unexplained(s', asset) == Unexplained(s, asset))
  }

  lemma InvLocked(s: Exchange, k: Key)
    requires Inv(s)
    ensures s.vault.Locked(k) == Owed(s, k)
  {
    hide BooksOk, StoreOk, Accounted, Owed;
    LockedSome(s, k);
  }

  lemma ReservedAnswer(s: Exchange, ev: Event)
    requires ev.PlaceMarket? && MarketAccepted(s, ev) && MarketReserved(s, ev).Ok?
    ensures !PlaceMarketOrder(s, ev).1.Refused?
  {
    hide MatchMarketOrder, Reserve, BestPrice, QuantityRules;
    NotRefused(s.(vault := MarketReserved(s, ev).value), ev.pair, MarketOrder(s, ev),
               BestPrice(s.books[ev.pair], ev.side.Opposite()));
  }

  lemma OversellNotKept(s: Exchange, ev: Event)
    requires Inv(s) && Oversells(s, ev)
    ensures !Kept(s, ev)
  {
    hide Inv, PlaceMarketOrder, Oversells, Unexplained, FillTotal, MatchMarket, EntriesSingle, Owed, Vault.Locked,
         Reserve,
         BestPrice, QuantityRules;
    OversellBreaks(s, ev);
    OversellTerms(s, ev);
    ReservedAnswer(s, ev);
    var s' := PlaceMarketOrder(s, ev).0;
    var k := Key(ev.user, s.pairs[ev.pair].base);
    if Inv(s') { InvLocked(s', k); }
  }

  lemma OversellTerms(s: Exchange, ev: Event)
    requires Oversells(s, ev)
    ensures ev.PlaceMarket? && ev.side.Sell? && MarketAccepted(s, ev) && MarketReserved(s, ev).Ok?
  {
    hide Reserve, BestPrice, QuantityRules, Depth, FirstWorth;
  }

  lemma CancelNotKept(s: Exchange, user: UserId, id: OrderId)
    requires Inv(s) && ReleasesTwice(s, CancelOrder(user, id))
    ensures !Kept(s, CancelOrder(user, id))
  {
    hide Inv, CancelStored, Unexplained, Owed, Vault.Locked, Lockup;
    CancelBreaks(s, user, id);
    var s', n := CancelStored(s, user, id).0, |s.vault.ledger|;
    var k := Key(user, LockAsset(s.pairs[s.rows[id].pair], s.rows[id].side));
    if Inv(s') {
      InvLocked(s', k);
      assert !SingleSided(s'.vault.ledger[n]);
    }
  }

  /** Solvency is exact, call by call: with the account exact and the ledger in order, a call keeps them and every
      total if and only if it is admissible. */
  lemma AdmissibleExactly(s: Exchange, ev: Event, opening: Vault)
    requires Inv(s) && DepositsOk(s.deposits) && Booked(s.vault, opening)
    ensures Kept(s, ev) <==> Admissible(s, ev)
  {
    hide Inv, Step, Booked, Unexplained, Oversells, ReleasesTwice, DepositsOk, EntriesSingle;
    if Oversells(s, ev) {
      OversellNotKept(s, ev);
    } else if ReleasesTwice(s, ev) {
      assert ev.CancelOrder? by { TwiceTerms(s, ev); }
      CancelNotKept(s, ev.user, ev.id);
    } else {
      StepInv(s, ev);
      forall asset ensures Unexplained(Step(s, ev).0, asset) == Unexplained(s, asset) {
        StepWhole(s, ev, opening, asset, Unexplained(s, asset));
      }
      StepWhole(s, ev, opening, 0, Unexplained(s, 0));
      BookedSingle(Step(s, ev).0.vault, opening);
    }
  }

  lemma TwiceTerms(s: Exchange, ev: Event)
    requires ReleasesTwice(s, ev)
    ensures ev.CancelOrder?
  {
  }

  lemma BookedSingle(v: Vault, opening: Vault)
    requires Booked(v, opening)
    ensures EntriesSingle(v)
  {
  }

  // ----- exactly the allowed runs -----

  ghost predicate AllKept(s: Exchange, evs: seq<Event>)
    decreases |evs|
  {
    evs == [] || (Kept(s, evs[0]) && AllKept(Step(s, evs[0]).0, evs[1..]))
  }

  lemma {:induction false} RunExactly(s: Exchange, evs: seq<Event>, opening: Vault)
    requires Inv(s) && DepositsOk(s.deposits) && Booked(s.vault, opening)
    ensures AllKept(s, evs) <==> Allowed(s, evs)
    decreases |evs|
  {
    hide Inv, Step, Booked, Unexplained, Admissible, DepositsOk, Kept;
    if evs == [] {
    } else {
      AdmissibleExactly(s, evs[0], opening);
      if Admissible(s, evs[0]) {
        StepInv(s, evs[0]);
        StepWhole(s, evs[0], opening, 0, Unexplained(s, 0));
        RunExactly(Step(s, evs[0]).0, evs[1..], opening);
      }
    }
  }

  /** Solvency is exact, run by run: from a fresh exchange, every call keeps the account, the ledger and the totals if
      and only if no market sell in the run oversells and no cancel releases twice. */
  lemma RunsKeptExactly(s: Exchange, evs: seq<Event>)
    requires Fresh(s)
    ensures AllKept(s, evs) <==> Allowed(s, evs)
  {
    hide Inv, Fresh, Booked, DepositsOk, AllKept, Allowed;
    FreshInv(s);
    FreshBooked(s);
    RunExactly(s, evs, s.vault);
  }

  /** A market sell that reserves its quantity is done, with nothing created and the account exact, if and only if the
      bids go no deeper than its quantity or its budget is at most what the first `quantity` units of the bids are
      worth. */
  lemma SellKeptExactly(s: Exchange, ev: Event)
    requires Inv(s) && ev.PlaceMarket? && ev.side.Sell? && MarketAccepted(s, ev) && MarketReserved(s, ev).Ok?
    ensures var (s', reply) := PlaceMarketOrder(s, ev); var bids := s.books[ev.pair].bids;
      reply.Done? && Inv(s') && (forall asset :: Unexplained(s', asset) == Unexplained(s, asset))
      <==> Depth(bids) <= ev.quantity || ev.quote <= FirstWorth(bids, ev.quantity)
  {
    hide Inv, PlaceMarketOrder, Unexplained, FillTotal, MatchMarket, Owed, Vault.Locked, Reserve, BestPrice,
         QuantityRules,
         Depth, FirstWorth, Placed, Process;
    var s' := PlaceMarketOrder(s, ev).0;
    if Oversells(s, ev) {
      OversellBreaks(s, ev);
      if Inv(s') { InvLocked(s', Key(ev.user, s.pairs[ev.pair].base)); }
    } else {
      var o, row, e', r, extra := PlaceMarketInv(s, ev);
      ReservedAnswer(s, ev);
      forall asset ensures Unexplained(s', asset) == Unexplained(s, asset) {
        SellConserves(s, ev, o, row, e', r, extra, asset);
      }
    }
  }

  lemma SellConserves(s: Exchange, ev: Event, o: Order, row: Row, e': State, r: EngineModel.Result, extra: real,
                      asset: AssetId)
    requires ev.PlaceMarket? && ev.side.Sell? && MarketAccepted(s, ev) && MarketReserved(s, ev).Ok?
    requires Placed(s.(vault := MarketReserved(s, ev).value), PlaceMarketOrder(s, ev).0, ev.pair, o, row, e', r, extra)
    ensures Unexplained(PlaceMarketOrder(s, ev).0, asset) == Unexplained(s, asset)
  {
    hide PlaceMarketOrder, Unexplained, Supply, Reserve, BestPrice, QuantityRules, Placed;
    var s0, pair := s.(vault := MarketReserved(s, ev).value), s.pairs[ev.pair];
    var reference := BestPrice(s.books[ev.pair], ev.side.Opposite());
    ReserveSupply(s.vault, pair, ev.user, ev.side, ev.quantity, reference, ev.quote, pair.takerFee, asset);
    SameVault(s, s0, asset);
    PlacedConserves(s0, PlaceMarketOrder(s, ev).0, ev.pair, o, row, e', r, extra, asset);
  }
}
