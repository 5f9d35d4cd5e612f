/** The ledger and the totals whatever the calls, solvent or not: no run loses anything or overdraws a wallet, what a
    run creates is what its settlements were clamped by, what the ledger misses is never more than that, and its entries
    of each kind say who was paid. */
module Folding {
  import opened Orders
  import opened Sums
  import opened Matching
  import opened EngineModel
  import opened Wallets
  import opened PairRules
  import opened CopySizing
  import opened ExchangeModel
  import opened Accounting
  import opened Filing
  import opened ExchangeProofs
  import opened LedgerProofs
  import opened Amounts
  import opened Drift
  import opened Statements

  /** No wallet has gone negative. */
  ghost predicate Solid(v: Vault) {
    forall k :: v.Available(k) >= 0.0 && v.Locked(k) >= 0.0
  }

  /** What settling a trade takes of an asset. */
  function Flow(pairs: seq<Pair>, tr: TradeRow, asset: AssetId): real {
    if tr.pair < |pairs| then
      var t, pair := tr.trade, pairs[tr.pair];
      (if pair.quote == asset then Abs(t.quote + BuyerFee(t)) else 0.0)
        + (if pair.base == asset then Abs(t.quantity) else 0.0)
    else 0.0
  }

  /** What the tolerance of settlement lets a trade create of an asset. */
  function Tolerated(pairs: seq<Pair>, tr: TradeRow, asset: AssetId): real {
    if tr.pair < |pairs| then
      var t, pair := tr.trade, pairs[tr.pair];
      (if pair.quote == asset then Slack(Abs(t.quote + BuyerFee(t))) else 0.0)
        + (if pair.base == asset then Slack(Abs(t.quantity)) else 0.0)
    else 0.0
  }

  function Tolerances(pairs: seq<Pair>, trades: seq<TradeRow>, asset: AssetId): seq<real> {
    seq(|trades|, i requires 0 <= i < |trades| => Tolerated(pairs, trades[i], asset))
  }

  function Flows(pairs: seq<Pair>, trades: seq<TradeRow>, asset: AssetId): seq<real> {
    seq(|trades|, i requires 0 <= i < |trades| => Flow(pairs, trades[i], asset))
  }

  ghost function Tolerance(s: Exchange, asset: AssetId): real {
    Total(Tolerances(s.pairs, s.trades, asset))
  }

  /** From one exchange to a later one: available columns stay explained, locked columns run ahead of the ledger by no
      more than what was created of their asset, nothing is lost, no more is created than the new trades' tolerances,
      entries of each kind account for what their tables have gained, versions count entries, latest entries stay
      current, and no wallet goes negative while all amounts stored are positive. */
  ghost predicate Folds(s: Exchange, s': Exchange) {
    && (forall k :: AvailableGap(s'.vault, k) == AvailableGap(s.vault, k))
    && (forall k :: Ahead(s, s', k))
    && (forall asset :: Within(s, s', asset))
    && (forall kind, k :: Restated(s, s', kind, k))
    && (forall k :: VersionGap(s'.vault, k) == VersionGap(s.vault, k))
    && (Current(s.vault, {}) ==> Current(s'.vault, {}))
    && (Proper(s') ==> Proper(s) && (Solid(s.vault) ==> Solid(s'.vault)))
  }

  ghost predicate Within(s: Exchange, s': Exchange, asset: AssetId) {
    0.0 <= Unexplained(s', asset) - Unexplained(s, asset) <= Tolerance(s', asset) - Tolerance(s, asset)
  }

  ghost predicate Ahead(s: Exchange, s': Exchange, k: Key) {
    0.0 <= LockedGap(s'.vault, k) - LockedGap(s.vault, k) <= Unexplained(s', k.asset) - Unexplained(s, k.asset)
  }

  datatype Promise = Ledger | Totals

  /** From one exchange to a later one the ledger explains as much of every wallet as before; or, nothing has been
      created or lost. */
  ghost predicate Stays(s: Exchange, s': Exchange, what: Promise) {
    match what
    case Ledger => SameGaps(s.vault, s'.vault)
    case Totals => forall asset :: Unexplained(s', asset) == Unexplained(s, asset)
  }

  lemma FoldsOn(a: Exchange, b: Exchange, c: Exchange, what: Promise)
    requires Folds(a, b) && Folds(b, c)
    ensures Folds(a, c)
    ensures Stays(a, c, what) <==> Stays(a, b, what) && Stays(b, c, what)
  {
    hide AvailableGap, LockedGap, Unexplained, Current, Tolerance, Proper, Solid, Unstated,
         VersionGap;
    forall k ensures Ahead(a, c, k) {
      assert Ahead(a, b, k) && Ahead(b, c, k);
    }
    forall kind, k ensures Restated(a, c, kind, k) {
      assert Restated(a, b, kind, k) && Restated(b, c, kind, k);
    }
    forall asset ensures Within(a, c, asset) {
      assert Within(a, b, asset) && Within(b, c, asset);
    }
    if Stays(a, c, what) {
      match what
      case Ledger =>
        forall k
          ensures LockedGap(b.vault, k) == LockedGap(a.vault, k) && LockedGap(c.vault, k) == LockedGap(b.vault, k)
        {
          assert Ahead(a, b, k) && Ahead(b, c, k);
        }
      case Totals =>
        forall asset
          ensures Unexplained(b, asset) == Unexplained(a, asset) && Unexplained(c, asset) == Unexplained(b, asset)
        {
          assert Within(a, b, asset) && Within(b, c, asset);
        }
    }
  }

  // ----- moves within one wallet -----

  /** A vault that has only moved funds within wallets, and logged it. */
  ghost predicate Moved(v: Vault, v': Vault) {
    && SameGaps(v, v') && (forall asset :: Supply(v', asset) == Supply(v, asset))
    && (Current(v, {}) ==> Current(v', {})) && (Solid(v) ==> Solid(v'))
    && (forall kind, k :: Silent(v, v', kind, k)) && (forall k :: VersionGap(v', k) == VersionGap(v, k))
  }

  lemma MovedFolds(s: Exchange, s': Exchange, what: Promise)
    requires s' == s.(vault := s'.vault, rows := s'.rows, books := s'.books) && Moved(s.vault, s'.vault)
    ensures Folds(s, s') && Stays(s, s', what)
  {
    hide AvailableGap, LockedGap, Unexplained, Current, Supply, Solid, Tolerances, PairsOk, AllPositive, KindTotal,
         Shares, Deposited, TakenOut, VersionGap;
    forall asset ensures Within(s, s', asset) && Unexplained(s', asset) == Unexplained(s, asset) {
      SameVault(s, s', asset);
    }
    forall k ensures Ahead(s, s', k) {}
    forall kind, k ensures Restated(s, s', kind, k) {
      assert Silent(s.vault, s'.vault, kind, k);
    }
  }

  lemma SameMoved(v: Vault)
    ensures Moved(v, v)
  {
  }

  lemma LoggedCurrent(v: Vault, kind: EntryKind, k: Key, available: real, locked: real, debit: real, credit: real)
    ensures Current(v, {}) ==> Current(v.Move(k, available, locked).Log(kind, k, debit, credit), {})
  {
    hide Current, Vault.Move, Vault.Log;
    if Current(v, {}) {
      MoveCurrent(v, k, available, locked, {});
      LogCurrent(v.Move(k, available, locked), kind, k, debit, credit, {} + {k});
      assert {} + {k} - {k} == {};
    }
  }

  lemma MoveSolid(v: Vault, kind: EntryKind, k: Key, available: real, locked: real, debit: real, credit: real)
    requires Solid(v) && v.Available(k) + available >= 0.0 && v.Locked(k) + locked >= 0.0
    ensures Solid(v.Move(k, available, locked).Log(kind, k, debit, credit))
  {
    var v' := v.Move(k, available, locked).Log(kind, k, debit, credit);
    forall x ensures v'.Available(x) >= 0.0 && v'.Locked(x) >= 0.0 {
      assert v.Available(x) >= 0.0 && v.Locked(x) >= 0.0;
    }
  }

  /** Moving funds between a wallet's columns, and logging it. */
  lemma ColumnsMoved(v: Vault, kind: EntryKind, k: Key, locked: real, debit: real, credit: real)
    requires var e := Entry(kind, k, debit, credit, 0.0); AvailableDelta(e) == -locked && LockedDelta(e) == locked
    requires Solid(v) ==> -v.Locked(k) <= locked <= v.Available(k)
    requires kind.OrderReserve? || kind.OrderRelease?
    ensures Moved(v, v.Move(k, -locked, locked).Log(kind, k, debit, credit))
  {
    hide SameGaps, Supply, Current, Vault.Move, Vault.Log, Solid, Vault.Available, Vault.Locked, Silent,
         VersionGap;
    BookedMove(v, kind, k, -locked, locked, debit, credit);
    LoggedCurrent(v, kind, k, -locked, locked, debit, credit);
    var v' := v.Move(k, -locked, locked).Log(kind, k, debit, credit);
    forall x ensures VersionGap(v', x) == VersionGap(v, x) {
      LoggedVersions(v, kind, k, -locked, locked, debit, credit, x);
    }
    forall own, x ensures Silent(v, v', own, x) {
      MoveLoggedSilent(v, kind, k, -locked, locked, debit, credit, own, x);
    }
    if Solid(v) { MoveSolid(v, kind, k, -locked, locked, debit, credit); }
    forall asset
      ensures Supply(v.Move(k, -locked, locked).Log(kind, k, debit, credit), asset) == Supply(v, asset)
    {
      MoveSupply(v, k, -locked, locked, asset);
      LogSupply(v.Move(k, -locked, locked), kind, k, debit, credit, asset);
    }
  }

  lemma ReserveMoved(v: Vault, pair: Pair, user: UserId, side: Side, quantity: real, price: real, quote: real,
                     fee: real)
    requires Reserve(v, pair, user, side, quantity, price, quote, fee).Ok?
    ensures Moved(v, Reserve(v, pair, user, side, quantity, price, quote, fee).value)
  {
    hide Moved, ReserveAmount, Vault.Move, Vault.Log, Solid;
    var amount, k := ReserveAmount(side, quantity, price, quote, fee), Key(user, LockAsset(pair, side));
    if Solid(v) { SolidAt(v, k); }
    ColumnsMoved(v, OrderReserve, k, amount, amount, 0.0);
  }

  lemma SolidAt(v: Vault, k: Key)
    requires Solid(v)
    ensures v.Available(k) >= 0.0 && v.Locked(k) >= 0.0
  {
  }

  lemma ReleaseMoved(v: Vault, pair: Pair, user: UserId, side: Side, amount: real)
    ensures Moved(v, ReleaseAmount(v, pair, user, side, amount))
  {
    hide Moved, Vault.Move, Vault.Log, Solid;
    var k := Key(user, LockAsset(pair, side));
    if amount <= 0.0 {
      SameMoved(v);
    } else {
      if Solid(v) { SolidAt(v, k); }
      ColumnsMoved(v, OrderRelease, k, -Min(amount, v.Locked(k)), 0.0, Min(amount, v.Locked(k)));
    }
  }

  lemma AskedMoved(v: Vault, pair: Pair, user: UserId, side: Side, quantity: real, price: real, quote: real, fee: real)
    ensures Moved(v, Asked(v, pair, user, side, quantity, price, quote, fee))
  {
    hide FoldAvailable, FoldLocked, ReserveAmount, Latest, Supply, KindTotal;
    var v' := Asked(v, pair, user, side, quantity, price, quote, fee);
    AskedSame(v, pair, user, side, quantity, price, quote, fee);
    forall k ensures v'.Available(k) == v.Available(k) && v'.Locked(k) == v.Locked(k) {
      assert v'.Get(k) == v.Get(k);
    }
    forall asset ensures Supply(v', asset) == Supply(v, asset) {
      TouchSupply(v, Key(user, LockAsset(pair, side)), asset);
    }
  }

  // ----- settling -----

  /** The seller's reserve covers a trade, which is all the ledger needs; the totals need the buyer's to cover it
      too. */
  predicate Covers(v: Vault, pair: Pair, t: Trade, what: Promise) {
    && t.quantity <= v.Locked(Key(Seller(t), pair.base))
    && (what.Totals? ==> t.quote + BuyerFee(t) <= v.Locked(Key(Buyer(t), pair.quote)))
  }

  /** An exchange whose vault has settled a trade, with the trade stored and its maker's row booked. */
  function Executed(s: Exchange, p: nat, t: Trade, v: Vault): Exchange {
    s.(vault := v, trades := s.trades + [TradeRow(p, t)], rows := FillRow(s.rows, t))
  }

  /** What an accepted settlement creates of an asset is what its debits were clamped by. */
  lemma SettleCreates(s: Exchange, p: nat, t: Trade, asset: AssetId)
    requires p < |s.pairs| && Settle(s.vault, s.pairs[p], t).Ok?
    ensures var v, pair := s.vault, s.pairs[p]; var needed := t.quote + BuyerFee(t);
      Unexplained(Executed(s, p, t, Settle(v, pair, t).value), asset) == Unexplained(s, asset)
        + (if pair.quote == asset then needed - Min(needed, v.Locked(Key(Buyer(t), pair.quote))) else 0.0)
        + (if pair.base == asset then t.quantity - Min(t.quantity, v.Locked(Key(Seller(t), pair.base))) else 0.0)
  {
    hide Supply, Transfer, FillRow, Total, FeesOf, Vault.Locked, ReserveOk;
    var v, pair := s.vault, s.pairs[p];
    var s', x := Executed(s, p, t, Settle(v, pair, t).value), FeesOf(s.pairs, TradeRow(p, t), asset);
    var fees := seq(|s.trades|, i requires 0 <= i < |s.trades| => FeesOf(s.pairs, s.trades[i], asset));
    assert seq(|s'.trades|, i requires 0 <= i < |s'.trades| => FeesOf(s'.pairs, s'.trades[i], asset)) == fees + [x];
    TotalAppend(fees, [x]);
    TotalOne(x);
    FeesOne(s.pairs, p, t, asset);
    TransferSupply(v, pair, t, Min(t.quote + BuyerFee(t), v.Locked(Key(Buyer(t), pair.quote))),
                   Min(t.quantity, v.Locked(Key(Seller(t), pair.base))), asset);
  }

  /** A settlement uses no more than it finds locked, and credits what is positive. */
  lemma TransferSolid(v: Vault, pair: Pair, t: Trade, buyerDebit: real, baseDebit: real)
    requires Solid(v) && Positive(t) && pair.base != pair.quote
    requires buyerDebit <= v.Locked(Key(Buyer(t), pair.quote)) && baseDebit <= v.Locked(Key(Seller(t), pair.base))
    ensures Solid(Transfer(v, pair, t, buyerDebit, baseDebit))
  {
    var v' := Transfer(v, pair, t, buyerDebit, baseDebit);
    forall k ensures v'.Available(k) >= 0.0 && v'.Locked(k) >= 0.0 {
      assert v.Available(k) >= 0.0 && v.Locked(k) >= 0.0;
      TransferLocked(v, pair, t, buyerDebit, baseDebit, k);
    }
  }

  /** Positive amounts stored afterwards were positive before, and so is the trade just settled. */
  lemma ProperBefore(s: Exchange, p: nat, t: Trade, v: Vault)
    requires p < |s.pairs| && Proper(Executed(s, p, t, v))
    ensures Proper(s) && Positive(t) && s.pairs[p].Valid()
  {
    hide Positive, FillRow;
    var all := s.trades + [TradeRow(p, t)];
    assert all[|s.trades|].trade == t;
    forall i | 0 <= i < |s.trades| ensures Positive(s.trades[i].trade) { assert all[i] == s.trades[i]; }
  }

  /** What a settlement creates is within its trade's tolerance. */
  lemma SettleWithin(s: Exchange, p: nat, t: Trade, asset: AssetId)
    requires p < |s.pairs| && Settle(s.vault, s.pairs[p], t).Ok?
    ensures Within(s, Executed(s, p, t, Settle(s.vault, s.pairs[p], t).value), asset)
  {
    hide Transfer, FillRow, Total, Vault.Locked, Unexplained;
    var s' := Executed(s, p, t, Settle(s.vault, s.pairs[p], t).value);
    var x := Tolerated(s.pairs, TradeRow(p, t), asset);
    assert Tolerances(s'.pairs, s'.trades, asset) == Tolerances(s.pairs, s.trades, asset) + [x];
    TotalAppend(Tolerances(s.pairs, s.trades, asset), [x]);
    TotalOne(x);
    SettleCreates(s, p, t, asset);
  }

  /** The trade a settlement stores is what it logs. */
  lemma SettleStated(s: Exchange, p: nat, t: Trade, kind: EntryKind, k: Key)
    requires p < |s.pairs| && Settle(s.vault, s.pairs[p], t).Ok?
    ensures Restated(s, Executed(s, p, t, Settle(s.vault, s.pairs[p], t).value), kind, k)
  {
    hide Transfer, FillRow, Vault.Locked, KindTotal, Share, Shares, Deposited, TakenOut;
    if Tabled(kind) {
      var v, pair := s.vault, s.pairs[p];
      TransferStated(v, s.pairs, p, t, Min(t.quote + BuyerFee(t), v.Locked(Key(Buyer(t), pair.quote))),
                     Min(t.quantity, v.Locked(Key(Seller(t), pair.base))), kind, k);
      SharesAppend(s.pairs, s.trades, TradeRow(p, t), kind, k);
      if kind in {DepositCredit, WithdrawalReserve, WithdrawalComplete} { NoShare(s.pairs, TradeRow(p, t), kind, k); }
    }
  }

  lemma NoShare(pairs: seq<Pair>, tr: TradeRow, kind: EntryKind, k: Key)
    requires kind in {DepositCredit, WithdrawalReserve, WithdrawalComplete}
    ensures Share(pairs, tr, kind, k) == 0.0
  {
  }

  lemma SettleFolds(s: Exchange, p: nat, t: Trade, what: Promise)
    requires p < |s.pairs| && Settle(s.vault, s.pairs[p], t).Ok?
    ensures var s' := Executed(s, p, t, Settle(s.vault, s.pairs[p], t).value);
      Folds(s, s') && (Stays(s, s', what) <==> Covers(s.vault, s.pairs[p], t, what))
  {
    hide AvailableGap, LockedGap, Unexplained, Current, Transfer, FillRow, Vault.Locked, ReserveOk, Tolerance, Proper,
         Solid, Positive, Restated, VersionGap;
    var v, pair := s.vault, s.pairs[p];
    var s' := Executed(s, p, t, Settle(v, pair, t).value);
    var buyerDebit := Min(t.quote + BuyerFee(t), v.Locked(Key(Buyer(t), pair.quote)));
    var baseDebit := Min(t.quantity, v.Locked(Key(Seller(t), pair.base)));
    forall k ensures AvailableGap(s'.vault, k) == AvailableGap(v, k) && Ahead(s, s', k) {
      TransferGaps(v, pair, t, buyerDebit, baseDebit, k);
      SettleCreates(s, p, t, k.asset);
    }
    forall asset ensures Within(s, s', asset) { SettleWithin(s, p, t, asset); }
    forall kind, k ensures Restated(s, s', kind, k) { SettleStated(s, p, t, kind, k); }
    forall k ensures VersionGap(s'.vault, k) == VersionGap(v, k) {
      TransferVersions(v, pair, t, buyerDebit, baseDebit, k);
    }
    if Proper(s') {
      ProperBefore(s, p, t, s'.vault);
      if Solid(v) { TransferSolid(v, pair, t, buyerDebit, baseDebit); }
    }
    if Current(v, {}) { TransferCurrent(v, pair, t, buyerDebit, baseDebit); }
    SettleCreates(s, p, t, pair.base);
    SettleCreates(s, p, t, pair.quote);
    forall k ensures LockedGap(s'.vault, k) == LockedGap(v, k)
        + (if k == Key(Seller(t), pair.base) then t.quantity - baseDebit else 0.0) {
      TransferGaps(v, pair, t, buyerDebit, baseDebit, k);
    }
    assert LockedGap(s'.vault, Key(Seller(t), pair.base))
        == LockedGap(v, Key(Seller(t), pair.base)) + t.quantity - baseDebit;
    if Covers(v, pair, t, Totals) {
      forall asset ensures Unexplained(s', asset) == Unexplained(s, asset) { SettleCreates(s, p, t, asset); }
    }
  }

  /** Every settlement of a match is covered. */
  ghost predicate CoversAll(s: Exchange, p: nat, trades: seq<Trade>, what: Promise)
    requires p < |s.pairs|
    decreases |trades|
  {
    trades == [] ||
    var settled := Settle(s.vault, s.pairs[p], trades[0]);
    settled.Ok? ==>
      && Covers(s.vault, s.pairs[p], trades[0], what)
      && CoversAll(Executed(s, p, trades[0], settled.value), p, trades[1..], what)
  }

  lemma {:induction false} PersistFolds(s: Exchange, p: nat, trades: seq<Trade>, what: Promise)
    requires p < |s.pairs| && Persist(s, p, trades).Ok?
    ensures var s' := Persist(s, p, trades).value;
      Folds(s, s') && (Stays(s, s', what) <==> CoversAll(s, p, trades, what))
    decreases |trades|
  {
    hide Folds, Stays, Covers, Settle, FillRow;
    if trades == [] {
      FoldsSame(s, what);
    } else {
      var s1 := Executed(s, p, trades[0], Settle(s.vault, s.pairs[p], trades[0]).value);
      SettleFolds(s, p, trades[0], what);
      PersistFolds(s1, p, trades[1..], what);
      FoldsOn(s, s1, Persist(s, p, trades).value, what);
    }
  }

  lemma FoldsSame(s: Exchange, what: Promise)
    ensures Folds(s, s) && Stays(s, s, what)
  {
    hide AvailableGap, LockedGap, Unexplained, Current, Tolerance, Proper, Solid, Unstated,
         VersionGap;
  }

  // ----- every call -----

  /** A match on an exchange whose vault holds the reserve is covered when it is persisted. */
  ghost predicate MatchCovers(s: Exchange, p: nat, o: Order, row: Row, what: Promise)
    requires p < |s.pairs| && p < |s.books|
  {
    var (book, r) := Process(s.books[p], o, false);
    CoversAll(s.(books := s.books[p := book], rows := s.rows + [row]), p, TradesOf(r.fills, o, s.pairs[p].Fees()), what)
  }

  ghost predicate EnterCovers(s: Exchange, p: nat, o: Order, what: Promise)
    requires p < |s.pairs| && p < |s.books|
  {
    var r := Process(s.books[p], o, false).1;
    var reserved := Reserved(s, p, o);
    reserved.Ok? ==> MatchCovers(s.(vault := reserved.value), p, o, RowOf(p, r.taker, KeptBack(o, r)), what)
  }

  ghost predicate CopyCovers(s: Exchange, p: nat, leader: Row, tif: TimeInForce, rel: Relation, what: Promise)
    requires p < |s.pairs| && p < |s.books|
  {
    var pair := s.pairs[p];
    var size := CopyQuantity(leader.quantity, leader.price, rel.allocation, rel.maxPosition, pair.minQty, pair.maxQty,
                             pair.minNotional, pair.stepSize);
    rel.leader == leader.user && rel.active && size.Some? ==>
      EnterCovers(s, p, LimitOrder(s, rel.follower, leader.side, leader.price, size.value, tif, 0.0), what)
  }

  ghost predicate CopiesCover(s: Exchange, p: nat, leader: Row, tif: TimeInForce, relations: seq<Relation>,
                              what: Promise)
    requires p < |s.pairs| && p < |s.books|
    decreases |relations|
  {
    relations == []
    || (CopyCovers(s, p, leader, tif, relations[0], what)
        && CopiesCover(CopyOne(s, p, leader, tif, relations[0]).0, p, leader, tif, relations[1..], what))
  }

  /** A call all of whose settlements are covered. */
  ghost predicate Unclamped(s: Exchange, ev: Event, what: Promise) {
    match ev
    case PlaceLimit(_, _, _, _, _, _, _) =>
      LimitAccepted(s, ev) ==>
        var (s1, entered) := Enter(s, ev.pair, Entering(s, ev));
        && EnterCovers(s, ev.pair, Entering(s, ev), what)
        && (entered.Done? ==> CopiesCover(s1, ev.pair, s1.rows[|s.rows|], ev.tif, s.relations, what))
    case PlaceMarket(_, _, _, _, _) =>
      MarketAccepted(s, ev) && MarketReserved(s, ev).Ok? ==>
        MatchCovers(s.(vault := MarketReserved(s, ev).value), ev.pair, MarketOrder(s, ev), MarketRow(s, ev), what)
    case _ => true
  }

  /** The row a market order is stored with. */
  ghost function MarketRow(s: Exchange, ev: Event): Row
    requires ev.PlaceMarket? && ev.pair < |s.books|
  {
    var r := Process(s.books[ev.pair], MarketOrder(s, ev), false).1;
    RowOf(ev.pair,
          if ev.side.Buy? then r.taker.(filled := FillTotal(r.fills), quantity := FillTotal(r.fills)) else r.taker, 0.0)
  }

  lemma EnterFolds(s: Exchange, p: nat, o: Order, what: Promise)
    requires p < |s.pairs| && p < |s.books| && Enter(s, p, o).1.Done?
    ensures Folds(s, Enter(s, p, o).0) && (Stays(s, Enter(s, p, o).0, what) <==> EnterCovers(s, p, o, what))
  {
    hide Folds, Stays, Process, Persist, TradesOf, Reserve, KeptBack, CoversAll, Moved;
    var pair := s.pairs[p];
    var v := Reserved(s, p, o).value;
    var (book, r) := Process(s.books[p], o, false);
    var s1 := s.(vault := v, books := s.books[p := book], rows := s.rows + [RowOf(p, r.taker, KeptBack(o, r))]);
    ReserveMoved(s.vault, pair, o.user, o.side, o.quantity, o.price, 0.0, pair.takerFee);
    MovedFolds(s, s1, what);
    PersistFolds(s1, p, TradesOf(r.fills, o, pair.Fees()), what);
    FoldsOn(s, s1, Enter(s, p, o).0, what);
  }

  lemma FinishFolds(s: Exchange, p: nat, id: OrderId, what: Promise)
    requires p < |s.pairs| && id < |s.rows|
    ensures Folds(s, Finish(s, p, id)) && Stays(s, Finish(s, p, id), what)
  {
    hide Folds, Stays, Lockup, Moved, ReleaseAmount;
    var row := s.rows[id];
    FoldsSame(s, what);
    if row.status.Terminal() {
      ReleaseMoved(s.vault, s.pairs[p], row.user, row.side,
                   Lockup(row.side, row.price, row.quantity - row.filled, s.pairs[p].takerFee));
      MovedFolds(s, Finish(s, p, id), what);
    }
  }

  lemma CopyOneFolds(s: Exchange, p: nat, leader: Row, tif: TimeInForce, rel: Relation, what: Promise)
    requires p < |s.pairs| && p < |s.books| && CopyOne(s, p, leader, tif, rel).1.Done?
    ensures var s' := CopyOne(s, p, leader, tif, rel).0;
      Folds(s, s') && (Stays(s, s', what) <==> CopyCovers(s, p, leader, tif, rel, what))
  {
    hide Folds, Stays, Enter, Finish, Cap, FloorToStep, EnterCovers, Asked, Moved;
    var pair := s.pairs[p];
    var size := CopyQuantity(leader.quantity, leader.price, rel.allocation, rel.maxPosition, pair.minQty, pair.maxQty,
                             pair.minNotional, pair.stepSize);
    var s' := CopyOne(s, p, leader, tif, rel).0;
    FoldsSame(s, what);
    if rel.leader == leader.user && rel.active && size.Some? {
      var o := LimitOrder(s, rel.follower, leader.side, leader.price, size.value, tif, 0.0);
      var (s1, entered) := Enter(s, p, o);
      if entered.Done? {
        EnterFolds(s, p, o, what);
        FinishFolds(s1, p, |s.rows|, what);
        FoldsOn(s, s1, s', what);
      } else {
        AskedMoved(s.vault, pair, rel.follower, leader.side, size.value, leader.price, 0.0, pair.takerFee);
        MovedFolds(s, s', what);
        NotEntered(s, p, o, what);
      }
    }
  }

  lemma NotEntered(s: Exchange, p: nat, o: Order, what: Promise)
    requires p < |s.pairs| && p < |s.books| && Enter(s, p, o).1.Refused?
    ensures EnterCovers(s, p, o, what)
  {
    hide Process, MatchLimitOrder, Reserve, MatchCovers, KeptBack;
  }

  lemma {:induction false} CopiesFold(s: Exchange, p: nat, leader: Row, tif: TimeInForce, relations: seq<Relation>,
                                      what: Promise)
    requires p < |s.pairs| && p < |s.books| && Copies(s, p, leader, tif, relations).1.Done?
    ensures var s' := Copies(s, p, leader, tif, relations).0;
      Folds(s, s') && (Stays(s, s', what) <==> CopiesCover(s, p, leader, tif, relations, what))
    decreases |relations|
  {
    hide Folds, Stays, CopyOne, CopyCovers;
    if relations == [] {
      FoldsSame(s, what);
    } else {
      var s1 := CopyOne(s, p, leader, tif, relations[0]).0;
      CopyOneFolds(s, p, leader, tif, relations[0], what);
      CopiesFold(s1, p, leader, tif, relations[1..], what);
      FoldsOn(s, s1, Copies(s, p, leader, tif, relations).0, what);
    }
  }

  lemma PlaceLimitFolds(s: Exchange, ev: Event, what: Promise)
    requires ev.PlaceLimit? && PlaceLimitOrder(s, ev).1.Done?
    ensures var s' := PlaceLimitOrder(s, ev).0; Folds(s, s') && (Stays(s, s', what) <==> Unclamped(s, ev, what))
  {
    hide Folds, Stays, Enter, Copies, Finish, EnterCovers, CopiesCover, QuantityRules, PriceRules;
    var p, o := ev.pair, Entering(s, ev);
    var s1 := Enter(s, p, o).0;
    var s2 := Copies(s1, p, s1.rows[|s.rows|], ev.tif, s.relations).0;
    EnterFolds(s, p, o, what);
    CopiesFold(s1, p, s1.rows[|s.rows|], ev.tif, s.relations, what);
    FinishFolds(s2, p, |s.rows|, what);
    FoldsOn(s, s1, s2, what);
    FoldsOn(s, s2, PlaceLimitOrder(s, ev).0, what);
  }

  lemma PlaceMarketFolds(s: Exchange, ev: Event, what: Promise)
    requires ev.PlaceMarket? && PlaceMarketOrder(s, ev).1.Done?
    ensures var s' := PlaceMarketOrder(s, ev).0; Folds(s, s') && (Stays(s, s', what) <==> Unclamped(s, ev, what))
  {
    hide Folds, Stays, Process, Persist, TradesOf, Reserve, CoversAll, Moved, QuantityRules, BestPrice, ReleaseAmount,
         FillTotal, FillWorth, Mul, Lockup;
    var p, pair, o := ev.pair, s.pairs[ev.pair], MarketOrder(s, ev);
    var reference := BestPrice(s.books[p], ev.side.Opposite());
    var quantity := if ev.quantity > 0.0 then ev.quantity else ev.quote / reference;
    var (book, r) := Process(s.books[p], o, false);
    var s1 := s.(vault := MarketReserved(s, ev).value, books := s.books[p := book],
                 rows := s.rows + [MarketRow(s, ev)]);
    ReserveMoved(s.vault, pair, ev.user, ev.side, quantity, reference, ev.quote, pair.takerFee);
    MovedFolds(s, s1, what);
    PersistFolds(s1, p, TradesOf(r.fills, o, pair.Fees()), what);
    var s2 := Persist(s1, p, TradesOf(r.fills, o, pair.Fees())).value;
    FoldsOn(s, s1, s2, what);
    var unspent := o.quote - FillWorth(r.fills);
    var amount := if o.side.Buy? then Mul(if unspent > 0.0 then unspent else 0.0, 1.0 + pair.takerFee)
                  else Lockup(o.side, reference, r.taker.Remaining(), pair.takerFee);
    ReleaseMoved(s2.vault, pair, o.user, o.side, amount);
    MovedFolds(s2, PlaceMarketOrder(s, ev).0, what);
    FoldsOn(s, s2, PlaceMarketOrder(s, ev).0, what);
  }

  lemma CancelFolds(s: Exchange, user: UserId, id: OrderId, what: Promise)
    ensures var s' := CancelStored(s, user, id).0; Folds(s, s') && Stays(s, s', what)
  {
    hide Folds, Stays, Lockup, Moved, ReleaseAmount, Cancel;
    FoldsSame(s, what);
    if Cancellable(s, user, id) {
      var row := s.rows[id];
      ReleaseMoved(s.vault, s.pairs[row.pair], user, row.side, CancelAsks(s, id));
      MovedFolds(s, CancelStored(s, user, id).0, what);
    }
  }

  /** A move that is logged with the entry that says so. */
  lemma LoggedMove(v: Vault, kind: EntryKind, k: Key, available: real, locked: real, debit: real, credit: real)
    requires var e := Entry(kind, k, debit, credit, 0.0); AvailableDelta(e) == available && LockedDelta(e) == locked
    ensures var v' := v.Move(k, available, locked).Log(kind, k, debit, credit);
      && SameGaps(v, v') && (Current(v, {}) ==> Current(v', {}))
      && (Solid(v) && v.Available(k) + available >= 0.0 && v.Locked(k) + locked >= 0.0 ==> Solid(v'))
      && (forall x :: VersionGap(v', x) == VersionGap(v, x))
  {
    hide SameGaps, Current, Vault.Move, Vault.Log, Solid, Vault.Available, Vault.Locked, VersionGap;
    var v' := v.Move(k, available, locked).Log(kind, k, debit, credit);
    forall x ensures VersionGap(v', x) == VersionGap(v, x) {
      LoggedVersions(v, kind, k, available, locked, debit, credit, x);
    }
    BookedMove(v, kind, k, available, locked, debit, credit);
    LoggedCurrent(v, kind, k, available, locked, debit, credit);
    if Solid(v) && v.Available(k) + available >= 0.0 && v.Locked(k) + locked >= 0.0 {
      MoveSolid(v, kind, k, available, locked, debit, credit);
    }
  }

  /** Deposits and withdrawals log what they move, whatever they find locked. */
  lemma FundsLogged(s: Exchange, ev: Event)
    requires !ev.PlaceLimit? && !ev.PlaceMarket? && !ev.CancelOrder?
    ensures var v' := Step(s, ev).0.vault; SameGaps(s.vault, v') && (Current(s.vault, {}) ==> Current(v', {}))
    ensures forall k :: VersionGap(Step(s, ev).0.vault, k) == VersionGap(s.vault, k)
    ensures Proper(s) && Solid(s.vault) ==> Solid(Step(s, ev).0.vault)
  {
    hide AvailableGap, LockedGap, Current, Vault.Move, Vault.Log, Vault.Locked, Vault.Available, Solid, PairsOk,
         AllPositive, VersionGap;
    if Step(s, ev).0.vault != s.vault {
      match ev
      case ConfirmDeposit(_, id, _) =>
        var d := s.deposits[id];
        if Solid(s.vault) { SolidAt(s.vault, d.key); }
        LoggedMove(s.vault, DepositCredit, d.key, d.amount, 0.0, 0.0, d.amount);
      case RequestWithdrawal(user, asset, amount) =>
        if Solid(s.vault) { SolidAt(s.vault, Key(user, asset)); }
        LoggedMove(s.vault, WithdrawalReserve, Key(user, asset), -amount, amount, amount, 0.0);
      case CancelWithdrawal(_, id) =>
        var w := s.withdrawals[id];
        var released := Min(s.vault.Locked(w.key), w.amount);
        if Solid(s.vault) { SolidAt(s.vault, w.key); }
        LoggedMove(s.vault, WithdrawalRelease, w.key, released, -released, 0.0, released);
      case CompleteWithdrawal(_, id) =>
        var w := s.withdrawals[id];
        if Solid(s.vault) { SolidAt(s.vault, w.key); }
        LoggedMove(s.vault, WithdrawalComplete, w.key, 0.0, -w.amount, w.amount, 0.0);
      case _ =>
    }
  }

  lemma SameTrades(s: Exchange, s': Exchange, asset: AssetId)
    requires s'.pairs == s.pairs && s'.trades == s.trades
    ensures Tolerance(s', asset) == Tolerance(s, asset)
  {
  }

  /** Deposits and withdrawals keep the amounts stored before. */
  lemma FundsProper(s: Exchange, ev: Event)
    requires !ev.PlaceLimit? && !ev.PlaceMarket? && !ev.CancelOrder? && Proper(Step(s, ev).0)
    ensures Proper(s)
  {
    hide Vault.Move, Vault.Log, Vault.Locked, Vault.Available, PairsOk, AllPositive;
    var s' := Step(s, ev).0;
    forall i | 0 <= i < |s.deposits| ensures s.deposits[i].amount > 0.0 {
      assert s'.deposits[i].amount == s.deposits[i].amount;
    }
    forall i | 0 <= i < |s.withdrawals| ensures s.withdrawals[i].amount > 0.0 {
      assert s'.withdrawals[i].amount == s.withdrawals[i].amount;
    }
  }

  lemma FundsFold(s: Exchange, ev: Event, what: Promise)
    requires !ev.PlaceLimit? && !ev.PlaceMarket? && !ev.CancelOrder?
    ensures Folds(s, Step(s, ev).0) && Stays(s, Step(s, ev).0, what)
  {
    hide AvailableGap, LockedGap, Unexplained, Current, Step, Tolerance, Proper, Solid, Unstated,
         VersionGap;
    FundsLogged(s, ev);
    forall kind, k ensures Restated(s, Step(s, ev).0, kind, k) {
      if Tabled(kind) { FundsStated(s, ev, kind, k); }
    }
    if Proper(Step(s, ev).0) { FundsProper(s, ev); }
    OtherCalls(s, ev);
    forall asset ensures Within(s, Step(s, ev).0, asset) && Unexplained(Step(s, ev).0, asset) == Unexplained(s, asset) {
      FundsConserve(s, ev, asset);
      SameTrades(s, Step(s, ev).0, asset);
    }
    forall k ensures Ahead(s, Step(s, ev).0, k) {}
  }

  lemma NotPlaced(s: Exchange, ev: Event, what: Promise)
    requires (ev.PlaceLimit? || ev.PlaceMarket?) && !Step(s, ev).1.Done?
    ensures Step(s, ev).0 == s && (Step(s, ev).1.Refused? ==> Unclamped(s, ev, what))
  {
    hide Process, Persist, Reserve, MatchCovers, Copies, KeptBack, QuantityRules, PriceRules, BestPrice, CopiesCover;
  }

  lemma NothingSettled(s: Exchange, ev: Event, what: Promise)
    requires !ev.PlaceLimit? && !ev.PlaceMarket?
    ensures Unclamped(s, ev, what)
  {
  }

  /** A call answered with a violated invariant, which changes nothing, or one all of whose settlements are covered. */
  ghost predicate Covered(s: Exchange, ev: Event, what: Promise) {
    Step(s, ev).1.InvariantViolated? || Unclamped(s, ev, what)
  }

  /** Every call folds, and keeps the ledger, or the totals, if and only if its settlements are covered. */
  lemma StepFolds(s: Exchange, ev: Event, what: Promise)
    ensures Folds(s, Step(s, ev).0) && (Stays(s, Step(s, ev).0, what) <==> Covered(s, ev, what))
  {
    hide Folds, Stays, PlaceLimitOrder, PlaceMarketOrder, CancelStored, Unclamped;
    if !ev.PlaceLimit? && !ev.PlaceMarket? && !ev.CancelOrder? {
      FundsFold(s, ev, what);
      NothingSettled(s, ev, what);
    } else if ev.CancelOrder? {
      NothingSettled(s, ev, what);
      CancelFolds(s, ev.user, ev.id, what);
    } else if Step(s, ev).1.Done? {
      if ev.PlaceLimit? { PlaceLimitFolds(s, ev, what); } else { PlaceMarketFolds(s, ev, what); }
    } else {
      NotPlaced(s, ev, what);
      FoldsSame(s, what);
    }
  }

  ghost predicate CoveredRun(s: Exchange, evs: seq<Event>, what: Promise)
    decreases |evs|
  {
    evs == [] || (Covered(s, evs[0], what) && CoveredRun(Step(s, evs[0]).0, evs[1..], what))
  }

  lemma {:induction false} RunFolds(s: Exchange, evs: seq<Event>, what: Promise)
    ensures Folds(s, Run(s, evs)) && (Stays(s, Run(s, evs), what) <==> CoveredRun(s, evs, what))
    decreases |evs|
  {
    hide Folds, Stays, Step, Covered;
    if evs == [] {
      FoldsSame(s, what);
    } else {
      var s1 := Step(s, evs[0]).0;
      StepFolds(s, evs[0], what);
      RunFolds(s1, evs[1..], what);
      FoldsOn(s, s1, Run(s, evs), what);
    }
  }

  /** What a run has created of an asset: what users hold and the exchange kept, beyond what they opened with and the
      deposits completed less the withdrawals completed. */
  ghost function Created(s: Exchange, s': Exchange, asset: AssetId): real {
    Supply(s'.vault, asset) + LedgerProofs.Fees(s', asset)
      - (Supply(s.vault, asset) + Total(Credits(s'.deposits, asset)) - Total(Payouts(s'.withdrawals, asset)))
  }

  /** The tolerances of trades come to a millionth of what they move, and a floor a trade. */
  lemma {:induction false} ToleranceBound(pairs: seq<Pair>, trades: seq<TradeRow>, asset: AssetId)
    requires PairsOk(pairs)
    ensures Total(Tolerances(pairs, trades, asset))
         <= 0.000001 * Total(Flows(pairs, trades, asset)) + 0.000000000001 * |trades| as real
    decreases |trades|
  {
    hide PairsOk, Abs, BuyerFee;
    var a, b := Tolerances(pairs, trades, asset), Flows(pairs, trades, asset);
    if trades == [] {
    } else {
      ToleranceBound(pairs, trades[1..], asset);
      assert a[1..] == Tolerances(pairs, trades[1..], asset) && b[1..] == Flows(pairs, trades[1..], asset);
      ToleranceOne(pairs, trades[0], asset);
      assert |trades| as real == |trades[1..]| as real + 1.0;
    }
  }

  lemma ToleranceOne(pairs: seq<Pair>, tr: TradeRow, asset: AssetId)
    requires PairsOk(pairs)
    ensures Tolerated(pairs, tr, asset) <= 0.000001 * Flow(pairs, tr, asset) + 0.000000000001
  {
    assert tr.pair < |pairs| ==> pairs[tr.pair].Valid();
  }

  lemma FreshProper(s: Exchange)
    requires Fresh(s)
    ensures BooksFit(s) && Proper(s) && Solid(s.vault)
  {
  }

  /** Every run from a fresh exchange, admissible or not: no wallet goes negative and nothing is lost; what is created
      of an asset is within a millionth of what the trades moved of it and 1e-12 a trade; folding the ledger rebuilds
      `available`, and rebuilds `locked` up to at most what was created; a wallet's latest entry carries its
      balance. */
  lemma EveryRunFolds(s: Exchange, evs: seq<Event>, k: Key)
    requires Fresh(s)
    ensures var r := Run(s, evs); var v, created := r.vault, Created(s, r, k.asset);
      && 0.0 <= created
      && created <= 0.000001 * Total(Flows(r.pairs, r.trades, k.asset)) + 0.000000000001 * |r.trades| as real
      && v.Available(k) == s.vault.Available(k) + FoldAvailable(v.ledger, k) >= 0.0
      && FoldLocked(v.ledger, k) <= v.Locked(k) <= FoldLocked(v.ledger, k) + created && v.Locked(k) >= 0.0
      && (forall i :: 0 <= i < |v.ledger| && Latest(v.ledger, i) ==>
            v.ledger[i].balanceAfter == v.Available(v.ledger[i].key) + v.Locked(v.ledger[i].key))
  {
    hide Run, FoldAvailable, FoldLocked, PairsOk, Unexplained, Latest, Solid, Tolerances, Flows, Total, AllPositive,
         DepositsOk, WithdrawalsOk, Vault.Available, Vault.Locked, BooksFit, Fresh, Created;
    var r := Run(s, evs);
    RunFolds(s, evs, Totals);
    FreshGaps(s, r, k);
    FreshProper(s);
    RunProper(s, evs);
    SolidAt(r.vault, k);
    NoTolerance(s, k.asset);
    ToleranceBound(r.pairs, r.trades, k.asset);
    assert Ahead(s, r, k) && Within(s, r, k.asset);
    assert AvailableGap(r.vault, k) == AvailableGap(s.vault, k);
  }

  lemma NoTolerance(s: Exchange, asset: AssetId)
    requires Fresh(s)
    ensures Tolerance(s, asset) == 0.0
  {
    assert Tolerances(s.pairs, s.trades, asset) == [];
  }

  lemma FreshGaps(s: Exchange, r: Exchange, k: Key)
    requires Fresh(s)
    ensures AvailableGap(s.vault, k) == s.vault.Available(k) && LockedGap(s.vault, k) == 0.0
    ensures Created(s, r, k.asset) == Unexplained(r, k.asset) - Unexplained(s, k.asset)
    ensures Current(s.vault, {})
  {
    hide PairsOk, Supply, FoldAvailable, FoldLocked, LedgerProofs.Fees, Credits, Payouts, Total;
    NoEntries(k);
    NothingMoved(s, k.asset) by { hide *; }
  }

  /** Exactly when: after a run from a fresh exchange folding the ledger rebuilds both columns of every wallet if and
      only if every settlement in the run found the seller's base locked. */
  lemma LedgerRebuildsExactly(s: Exchange, evs: seq<Event>)
    requires Fresh(s)
    ensures var v := Run(s, evs).vault;
      (forall k :: v.Available(k) == s.vault.Available(k) + FoldAvailable(v.ledger, k)
                   && v.Locked(k) == FoldLocked(v.ledger, k))
      <==> CoveredRun(s, evs, Ledger)
  {
    hide Run, FoldAvailable, FoldLocked, Fresh, CoveredRun, Folds, Vault.Available, Vault.Locked;
    var r := Run(s, evs);
    RunFolds(s, evs, Ledger);
    forall k
      ensures AvailableGap(s.vault, k) == s.vault.Available(k) && LockedGap(s.vault, k) == 0.0
    {
      FreshGaps(s, r, k);
    }
    forall k
      ensures (AvailableGap(r.vault, k) == AvailableGap(s.vault, k) && LockedGap(r.vault, k) == LockedGap(s.vault, k))
        <==> (r.vault.Available(k) == s.vault.Available(k) + FoldAvailable(r.vault.ledger, k)
              && r.vault.Locked(k) == FoldLocked(r.vault.ledger, k))
    {
    }
  }

  /** Exactly when: after a run from a fresh exchange the total of every asset is explained if and only if every
      settlement in the run found both reserves locked. */
  lemma TotalsKeptExactly(s: Exchange, evs: seq<Event>)
    requires Fresh(s)
    ensures (forall asset :: Created(s, Run(s, evs), asset) == 0.0) <==> CoveredRun(s, evs, Totals)
  {
    hide Run, Fresh, CoveredRun, Folds, Created, Unexplained;
    var r := Run(s, evs);
    RunFolds(s, evs, Totals);
    forall asset ensures Created(s, r, asset) == Unexplained(r, asset) - Unexplained(s, asset) {
      FreshGaps(s, r, Key(0, asset));
    }
  }

  /** In an admissible run no settlement is clamped: every one finds both reserves locked. */
  lemma AdmissibleCovered(s: Exchange, evs: seq<Event>)
    requires Fresh(s) && Allowed(s, evs)
    ensures Calm(s, evs) && CoveredRun(s, evs, Totals)
  {
    hide Run, Allowed, Fresh, CoveredRun, Inv, Calm, Created;
    FreshInv(s);
    RunInv(s, evs);
    forall asset ensures Created(s, Run(s, evs), asset) == 0.0 { NothingCreated(s, evs, asset); }
    TotalsKeptExactly(s, evs);
  }

  lemma NothingCreated(s: Exchange, evs: seq<Event>, asset: AssetId)
    requires Fresh(s) && Allowed(s, evs)
    ensures Created(s, Run(s, evs), asset) == 0.0
  {
    hide Run, Allowed, Fresh, Supply, LedgerProofs.Fees, Credits, Payouts, Total;
    AssetsConserved(s, evs, asset);
  }

  // ----- who is paid -----

  /** What entries that are in no table have moved into a wallet's `available`: releases less reserves of orders, and
      what withdrawals called off gave back. */
  ghost function GivenBack(ledger: seq<Entry>, k: Key): real {
    KindTotal(ledger, OrderRelease, k) - KindTotal(ledger, OrderReserve, k) + KindTotal(ledger, WithdrawalRelease, k)
  }

  /** What the tables pay into a wallet's `available`: the base its user bought, what he sold base for less his own
      fees, and his completed deposits, less the withdrawals he asked for. */
  ghost function Paid(s: Exchange, k: Key): real {
    Shares(s.pairs, s.trades, TradeBuyBase, k) + Shares(s.pairs, s.trades, TradeSellQuote, k)
      + Deposited(s.deposits, k) - TakenOut(s.withdrawals, k, false)
  }

  lemma FoldPaid(s: Exchange, k: Key)
    ensures FoldAvailable(s.vault.ledger, k)
         == Paid(s, k) + GivenBack(s.vault.ledger, k) + Unstated(s, TradeBuyBase, k) + Unstated(s, TradeSellQuote, k)
            + Unstated(s, DepositCredit, k) - Unstated(s, WithdrawalReserve, k)
  {
    hide FoldAvailable, FoldLocked, KindTotal, Shares, Deposited, TakenOut;
    FoldKinds(s.vault.ledger, k);
  }

  lemma FoldsPay(s: Exchange, s': Exchange, k: Key)
    requires Folds(s, s')
    ensures s'.vault.Available(k) - s.vault.Available(k)
         == Paid(s', k) - Paid(s, k) + GivenBack(s'.vault.ledger, k) - GivenBack(s.vault.ledger, k)
    ensures forall kind :: Restated(s, s', kind, k)
  {
    hide FoldAvailable, Paid, GivenBack, Unstated, Ahead, Within, Current, Proper, Solid, Vault.Available;
    assert AvailableGap(s'.vault, k) == AvailableGap(s.vault, k);
    FoldPaid(s, k);
    FoldPaid(s', k);
    assert Restated(s, s', TradeBuyBase, k) && Restated(s, s', TradeSellQuote, k)
        && Restated(s, s', DepositCredit, k) && Restated(s, s', WithdrawalReserve, k);
  }

  /** Every call, at every exchange: what it adds to a wallet's `available` is the base its user bought in the trades
      the call stores, what he sold base for in them less his own fees, the deposit of his it completes, less the
      withdrawal he asks for, and beyond that only what it reserves for orders and gives back. */
  lemma StepPays(s: Exchange, ev: Event, k: Key)
    ensures var s' := Step(s, ev).0;
      s'.vault.Available(k) - s.vault.Available(k)
        == Shares(s'.pairs, s'.trades, TradeBuyBase, k) - Shares(s.pairs, s.trades, TradeBuyBase, k)
           + Shares(s'.pairs, s'.trades, TradeSellQuote, k) - Shares(s.pairs, s.trades, TradeSellQuote, k)
           + Deposited(s'.deposits, k) - Deposited(s.deposits, k)
           - (TakenOut(s'.withdrawals, k, false) - TakenOut(s.withdrawals, k, false))
           + GivenBack(s'.vault.ledger, k) - GivenBack(s.vault.ledger, k)
  {
    hide Step, Covered, Stays, Folds, Shares, Deposited, TakenOut, GivenBack, Vault.Available;
    StepFolds(s, ev, Ledger);
    FoldsPay(s, Step(s, ev).0, k);
  }

  /** Every run from a fresh exchange, admissible or not: a wallet's entries of trades add up to the base its user
      bought and sold in the stored trades and to what he sold it for, its deposit entries to his completed deposits,
      its withdrawal entries to what he asked for and to what was paid out; and its `available` is what he opened with,
      plus what the trades and deposits paid him, less what he asked to withdraw, but for reserves and what was given
      back. */
  lemma EveryRunPays(s: Exchange, evs: seq<Event>, k: Key)
    requires Fresh(s)
    ensures var r := Run(s, evs); var ledger := r.vault.ledger;
      && KindTotal(ledger, TradeBuyBase, k) == Shares(r.pairs, r.trades, TradeBuyBase, k)
      && KindTotal(ledger, TradeSellBase, k) == Shares(r.pairs, r.trades, TradeSellBase, k)
      && KindTotal(ledger, TradeSellQuote, k) == Shares(r.pairs, r.trades, TradeSellQuote, k)
      && KindTotal(ledger, DepositCredit, k) == Deposited(r.deposits, k)
      && KindTotal(ledger, WithdrawalReserve, k) == TakenOut(r.withdrawals, k, false)
      && KindTotal(ledger, WithdrawalComplete, k) == TakenOut(r.withdrawals, k, true)
      && r.vault.Available(k) == s.vault.Available(k)
           + Shares(r.pairs, r.trades, TradeBuyBase, k) + Shares(r.pairs, r.trades, TradeSellQuote, k)
           + Deposited(r.deposits, k) - TakenOut(r.withdrawals, k, false) + GivenBack(ledger, k)
  {
    hide Run, Fresh, CoveredRun, Folds, Stays, KindTotal, Shares, Deposited, TakenOut, GivenBack, Vault.Available,
         Restated;
    var r := Run(s, evs);
    RunFolds(s, evs, Ledger);
    FoldsPay(s, r, k);
    NothingStored(s, k);
    forall kind | Tabled(kind) ensures KindTotal(r.vault.ledger, kind, k) == InTable(r, kind, k) {
      StatedFrom(s, r, kind, k);
    }
  }

  /** Every run from a fresh exchange, admissible or not: a wallet's version has gone up by one for each of its ledger
      entries. */
  lemma VersionsCount(s: Exchange, evs: seq<Event>, k: Key)
    requires Fresh(s)
    ensures var v := Run(s, evs).vault; v.Get(k).version == s.vault.Get(k).version + EntryCount(v.ledger, k)
  {
    hide Run, Fresh, CoveredRun, Stays, PairsOk, EntryCount, Restated, Ahead, Within, Current, Proper, Solid,
         AvailableGap;
    RunFolds(s, evs, Ledger);
    EmptyLedger(s);
    assert VersionGap(Run(s, evs).vault, k) == VersionGap(s.vault, k);
    NoCount(k);
  }

  lemma NoCount(k: Key)
    ensures EntryCount([], k) == 0
  {
  }

  lemma StatedFrom(s: Exchange, r: Exchange, kind: EntryKind, k: Key)
    requires Fresh(s) && Restated(s, r, kind, k) && Tabled(kind)
    ensures KindTotal(r.vault.ledger, kind, k) == InTable(r, kind, k)
  {
    hide KindTotal, InTable, PairsOk;
    NoKinds(kind, k);
    NothingDue(s, kind, k);
  }

  lemma NothingDue(s: Exchange, kind: EntryKind, k: Key)
    requires Fresh(s)
    ensures InTable(s, kind, k) == 0.0
  {
    assert DepositsOf(s.deposits, k) == [] && SharesOf(s.pairs, s.trades, kind, k) == [];
    assert forall paid :: WithdrawalsOf(s.withdrawals, k, paid) == [];
  }

  lemma NothingStored(s: Exchange, k: Key)
    requires Fresh(s)
    ensures Paid(s, k) == 0.0 && GivenBack(s.vault.ledger, k) == 0.0
  {
    hide KindTotal, InTable, Fresh, PairsOk;
    forall kind ensures InTable(s, kind, k) == 0.0 { NothingDue(s, kind, k); }
    EmptyLedger(s);
    NoKinds(OrderRelease, k);
    NoKinds(OrderReserve, k);
    NoKinds(WithdrawalRelease, k);
    PaidDue(s, k);
  }

  lemma EmptyLedger(s: Exchange)
    requires Fresh(s)
    ensures s.vault.ledger == []
  {
  }

  lemma PaidDue(s: Exchange, k: Key)
    ensures Paid(s, k) == InTable(s, TradeBuyBase, k) + InTable(s, TradeSellQuote, k) + InTable(s, DepositCredit, k)
                          - InTable(s, WithdrawalReserve, k)
  {
  }
}
