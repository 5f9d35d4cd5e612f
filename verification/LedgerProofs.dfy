/** The ledger and the totals over every admissible run: folding the entries rebuilds both columns of every wallet,
    every entry is single-sided, a wallet's last entry carries its balance, and assets are conserved. */
module LedgerProofs {
  import opened Orders
  import opened Sums
  import opened EngineModel
  import opened Wallets
  import opened ExchangeModel
  import opened Accounting
  import opened PairRules
  import opened CopySizing
  import opened Filing
  import opened ExchangeProofs

  // ----- what wallets hold beyond what the ledger says -----

  ghost function AvailableGap(v: Vault, k: Key): real {
    v.Available(k) - FoldAvailable(v.ledger, k)
  }

  ghost function LockedGap(v: Vault, k: Key): real {
    v.Locked(k) - FoldLocked(v.ledger, k)
  }

  /** Two vaults whose ledgers miss exactly the same amounts. */
  ghost predicate SameGaps(v: Vault, v': Vault) {
    forall k :: AvailableGap(v', k) == AvailableGap(v, k) && LockedGap(v', k) == LockedGap(v, k)
  }

  lemma MoveGaps(v: Vault, at: Key, available: real, locked: real, k: Key)
    ensures AvailableGap(v.Move(at, available, locked), k) == AvailableGap(v, k) + (if k == at then available else 0.0)
    ensures LockedGap(v.Move(at, available, locked), k) == LockedGap(v, k) + (if k == at then locked else 0.0)
  {
    hide FoldAvailable, FoldLocked;
  }

  lemma LogGaps(v: Vault, kind: EntryKind, at: Key, debit: real, credit: real, k: Key)
    ensures var e := Entry(kind, at, debit, credit, v.Available(at) + v.Locked(at));
      && AvailableGap(v.Log(kind, at, debit, credit), k) == AvailableGap(v, k)
         - (if k == at then AvailableDelta(e) else 0.0)
      && LockedGap(v.Log(kind, at, debit, credit), k) == LockedGap(v, k) - (if k == at then LockedDelta(e) else 0.0)
  {
    hide FoldAvailable, FoldLocked;
    FoldAppend(v.ledger, Entry(kind, at, debit, credit, v.Available(at) + v.Locked(at)), k);
  }

  /** A balance moved and logged with the entry that says so leaves no gap behind. */
  lemma BookedMove(v: Vault, kind: EntryKind, k0: Key, available: real, locked: real, debit: real, credit: real)
    requires var e := Entry(kind, k0, debit, credit, 0.0); AvailableDelta(e) == available && LockedDelta(e) == locked
    ensures SameGaps(v, v.Move(k0, available, locked).Log(kind, k0, debit, credit))
  {
    hide AvailableGap, LockedGap, Vault.Move, Vault.Log;
    var v' := v.Move(k0, available, locked).Log(kind, k0, debit, credit);
    forall k ensures AvailableGap(v', k) == AvailableGap(v, k) && LockedGap(v', k) == LockedGap(v, k) {
      MoveGaps(v, k0, available, locked, k);
      LogGaps(v.Move(k0, available, locked), kind, k0, debit, credit, k);
    }
  }

  // ----- the last entry of a wallet -----

  ghost predicate Latest(ledger: seq<Entry>, i: nat)
    requires i < |ledger|
  {
    forall j :: i < j < |ledger| ==> ledger[j].key != ledger[i].key
  }

  /** Outside `moved`, a wallet's latest entry carries its balance. */
  ghost predicate Current(v: Vault, moved: set<Key>) {
    forall i :: 0 <= i < |v.ledger| && Latest(v.ledger, i) && v.ledger[i].key !in moved ==>
      v.ledger[i].balanceAfter == v.Available(v.ledger[i].key) + v.Locked(v.ledger[i].key)
  }

  lemma MoveCurrent(v: Vault, k: Key, available: real, locked: real, moved: set<Key>)
    requires Current(v, moved)
    ensures Current(v.Move(k, available, locked), moved + {k})
  {
  }

  lemma LogCurrent(v: Vault, kind: EntryKind, k: Key, debit: real, credit: real, moved: set<Key>)
    requires Current(v, moved)
    ensures Current(v.Log(kind, k, debit, credit), moved - {k})
  {
    var v' := v.Log(kind, k, debit, credit);
    var n := |v.ledger|;
    forall i | 0 <= i < |v'.ledger| && Latest(v'.ledger, i) && v'.ledger[i].key !in moved - {k}
      ensures v'.ledger[i].balanceAfter == v'.Available(v'.ledger[i].key) + v'.Locked(v'.ledger[i].key)
    {
      if i < n {
        assert v'.ledger[n].key == k;
        assert v'.ledger[i] == v.ledger[i];
        forall j | i < j < n ensures v.ledger[j].key != v.ledger[i].key { assert v'.ledger[j] == v.ledger[j]; }
        assert Latest(v.ledger, i);
      }
    }
  }

  // ----- what every step keeps -----

  ghost predicate EntriesSingle(v: Vault) {
    forall i :: 0 <= i < |v.ledger| ==> SingleSided(v.ledger[i])
  }

  ghost predicate NoneOverdrawn(v: Vault) {
    forall k :: v.Available(k) >= 0.0
  }

  /** The books of a vault that opened with the wallets `opening` and an empty ledger. */
  ghost predicate Booked(v: Vault, opening: Vault) {
    && SameGaps(opening.(ledger := []), v)
    && EntriesSingle(v) && NoneOverdrawn(v) && Current(v, {})
  }

  lemma BookOne(v: Vault, opening: Vault, kind: EntryKind, k: Key, available: real, locked: real, debit: real,
                credit: real)
    requires Booked(v, opening) && v.Available(k) + available >= 0.0
    requires var e := Entry(kind, k, debit, credit, 0.0);
      AvailableDelta(e) == available && LockedDelta(e) == locked && SingleSided(e)
    ensures Booked(v.Move(k, available, locked).Log(kind, k, debit, credit), opening)
  {
    hide AvailableGap, LockedGap, Current;
    var v' := v.Move(k, available, locked).Log(kind, k, debit, credit);
    forall x ensures v'.Available(x) >= 0.0 { assert v.Available(x) >= 0.0; }
    BookedMove(v, kind, k, available, locked, debit, credit);
    MoveCurrent(v, k, available, locked, {});
    LogCurrent(v.Move(k, available, locked), kind, k, debit, credit, {} + {k});
    assert {} + {k} - {k} == {};
  }

  lemma ReserveBooked(v: Vault, opening: Vault, pair: Pair, user: UserId, side: Side, quantity: real, price: real,
                      quote: real, fee: real)
    requires Booked(v, opening) && Reserve(v, pair, user, side, quantity, price, quote, fee).Ok?
    ensures Booked(Reserve(v, pair, user, side, quantity, price, quote, fee).value, opening)
  {
    hide Booked, ReserveAmount, Vault.Move, Vault.Log;
    var amount, k := ReserveAmount(side, quantity, price, quote, fee), Key(user, LockAsset(pair, side));
    BookOne(v, opening, OrderReserve, k, -amount, amount, amount, 0.0);
  }

  lemma ReleaseBooked(v: Vault, opening: Vault, pair: Pair, user: UserId, side: Side, amount: real)
    requires Booked(v, opening) && amount <= v.Locked(Key(user, LockAsset(pair, side)))
    ensures Booked(ReleaseAmount(v, pair, user, side, amount), opening)
  {
    hide Vault.Move, Vault.Log;
    if amount > 0.0 {
      BookOne(v, opening, OrderRelease, Key(user, LockAsset(pair, side)), amount, -amount, 0.0, amount);
    }
  }

  /** Every amount a settlement logs is positive. */
  ghost predicate Positive(t: Trade) {
    t.quantity > 0.0 && t.quote + BuyerFee(t) > 0.0 && t.quote - SellerFee(t) > 0.0
  }

  lemma FairPositive(pairs: seq<Pair>, rows: seq<Row>, tr: TradeRow)
    requires Fair(pairs, rows, tr)
    ensures Positive(tr.trade)
  {
    hide Mul;
    var t, pair := tr.trade, pairs[tr.pair];
    var fee := if t.takerSide.Buy? then pair.makerFee else pair.takerFee;
    MulSign(t.price, t.quantity);
    FeeBelow(pair.makerFee, t.quote);
    FeeBelow(pair.takerFee, t.quote);
  }

  lemma FeeBelow(fee: real, amount: real)
    requires 0.0 <= fee < 1.0 && amount > 0.0
    ensures 0.0 <= Mul(fee, amount) < amount
  {
    hide Mul;
    MulSign(fee, amount);
    MulSum(amount, 1.0, fee);
    MulSign(1.0 - fee, amount);
    MulOne(amount);
    MulSwap(amount, 1.0);
  }

  /** A settlement's entries explain its balances except for what the seller's debit was clamped by. */
  lemma TransferGaps(v: Vault, pair: Pair, t: Trade, buyerDebit: real, baseDebit: real, k: Key)
    ensures var v' := Transfer(v, pair, t, buyerDebit, baseDebit);
      && AvailableGap(v', k) == AvailableGap(v, k)
      && LockedGap(v', k) == LockedGap(v, k) + (if k == Key(Seller(t), pair.base) then t.quantity - baseDebit else 0.0)
  {
    hide AvailableGap, LockedGap, Vault.Move, Vault.Log;
    var bq, bb := Key(Buyer(t), pair.quote), Key(Buyer(t), pair.base);
    var sb, sq := Key(Seller(t), pair.base), Key(Seller(t), pair.quote);
    var credit := t.quote - SellerFee(t);
    var v1 := v.Move(bq, 0.0, -buyerDebit);
    var v2 := v1.Move(bb, t.quantity, 0.0);
    var v3 := v2.Move(sb, 0.0, -baseDebit);
    var v4 := v3.Move(sq, credit, 0.0);
    var v5 := v4.Log(TradeBuyQuote, bq, buyerDebit, 0.0);
    var v6 := v5.Log(TradeBuyBase, bb, 0.0, t.quantity);
    var v7 := v6.Log(TradeSellBase, sb, t.quantity, 0.0);
    MoveGaps(v, bq, 0.0, -buyerDebit, k);
    MoveGaps(v1, bb, t.quantity, 0.0, k);
    MoveGaps(v2, sb, 0.0, -baseDebit, k);
    MoveGaps(v3, sq, credit, 0.0, k);
    LogGaps(v4, TradeBuyQuote, bq, buyerDebit, 0.0, k);
    LogGaps(v5, TradeBuyBase, bb, 0.0, t.quantity, k);
    LogGaps(v6, TradeSellBase, sb, t.quantity, 0.0, k);
    LogGaps(v7, TradeSellQuote, sq, 0.0, credit, k);
  }

  lemma SettleGaps(v: Vault, pair: Pair, t: Trade)
    ensures SameGaps(v, SettleExactly(v, pair, t))
  {
    hide AvailableGap, LockedGap, Transfer;
    var v' := SettleExactly(v, pair, t);
    forall k ensures AvailableGap(v', k) == AvailableGap(v, k) && LockedGap(v', k) == LockedGap(v, k) {
      TransferGaps(v, pair, t, t.quote + BuyerFee(t), t.quantity, k);
    }
  }

  lemma TransferCurrent(v: Vault, pair: Pair, t: Trade, buyerDebit: real, baseDebit: real)
    requires Current(v, {})
    ensures Current(Transfer(v, pair, t, buyerDebit, baseDebit), {})
  {
    hide Current, Vault.Move, Vault.Log;
    var bq, bb := Key(Buyer(t), pair.quote), Key(Buyer(t), pair.base);
    var sb, sq := Key(Seller(t), pair.base), Key(Seller(t), pair.quote);
    var credit := t.quote - SellerFee(t);
    var v1 := v.Move(bq, 0.0, -buyerDebit);
    var v2 := v1.Move(bb, t.quantity, 0.0);
    var v3 := v2.Move(sb, 0.0, -baseDebit);
    var v4 := v3.Move(sq, credit, 0.0);
    var v5 := v4.Log(TradeBuyQuote, bq, buyerDebit, 0.0);
    var v6 := v5.Log(TradeBuyBase, bb, 0.0, t.quantity);
    var v7 := v6.Log(TradeSellBase, sb, t.quantity, 0.0);
    MoveCurrent(v, bq, 0.0, -buyerDebit, {});
    MoveCurrent(v1, bb, t.quantity, 0.0, {} + {bq});
    MoveCurrent(v2, sb, 0.0, -baseDebit, {} + {bq} + {bb});
    MoveCurrent(v3, sq, credit, 0.0, {} + {bq} + {bb} + {sb});
    var m := {} + {bq} + {bb} + {sb} + {sq};
    LogCurrent(v4, TradeBuyQuote, bq, buyerDebit, 0.0, m);
    LogCurrent(v5, TradeBuyBase, bb, 0.0, t.quantity, m - {bq});
    LogCurrent(v6, TradeSellBase, sb, t.quantity, 0.0, m - {bq} - {bb});
    LogCurrent(v7, TradeSellQuote, sq, 0.0, credit, m - {bq} - {bb} - {sb});
    assert m - {bq} - {bb} - {sb} - {sq} == {};
  }

  lemma SettleBooked(v: Vault, opening: Vault, pair: Pair, t: Trade)
    requires Booked(v, opening) && Positive(t)
    ensures Booked(SettleExactly(v, pair, t), opening)
  {
    hide AvailableGap, LockedGap, Current;
    var v' := SettleExactly(v, pair, t);
    forall x ensures v'.Available(x) >= 0.0 { assert v.Available(x) >= 0.0; }
    SettleGaps(v, pair, t);
    TransferCurrent(v, pair, t, t.quote + BuyerFee(t), t.quantity);
  }

  lemma {:induction false} PersistBooked(s: Exchange, opening: Vault, p: nat, trades: seq<Trade>)
    requires p < |s.pairs| && Booked(s.vault, opening) && forall i :: 0 <= i < |trades| ==> Positive(trades[i])
    ensures Booked(PersistExactly(s, p, trades).vault, opening)
    decreases |trades|
  {
    hide Booked, SettleExactly, Positive, FillRow;
    if trades == [] {
    } else {
      SettleBooked(s.vault, opening, s.pairs[p], trades[0]);
      PersistBooked(Settled(s, p, trades[0]), opening, p, trades[1..]);
    }
  }

  lemma PlacedBooked(s: Exchange, s': Exchange, p: nat, o: Order, row: Row, e': State, r: EngineModel.Result,
                     extra: real,
                     opening: Vault)
    requires Booked(s.vault, opening) && Placed(s, s', p, o, row, e', r, extra)
    ensures Booked(s'.vault, opening)
  {
    hide Booked, PersistExactly, Positive, Fair, ReleaseAmount, FillRows, TradesOf;
    var s1, t := Recorded(s, p, row, e'), TradesOf(r.fills, o, s.pairs[p].Fees());
    forall i | 0 <= i < |t| ensures Positive(t[i]) {
      assert Unsettled(s1.pairs, s1.rows, p, t[i]);
      FairPositive(s1.pairs, s1.rows, TradeRow(p, t[i]));
    }
    PersistBooked(s1, opening, p, t);
    PersistElsewhere(s1, p, t);
    ReleaseBooked(PersistExactly(s1, p, t).vault, opening, s.pairs[p], o.user, o.side, extra);
  }

  /** The deposits waiting to be credited are all for positive amounts. */
  ghost predicate DepositsOk(deposits: seq<Deposit>) {
    forall i :: 0 <= i < |deposits| ==> deposits[i].amount > 0.0
  }

  lemma AvailableNonneg(v: Vault, opening: Vault, k: Key)
    requires Booked(v, opening)
    ensures v.Available(k) >= 0.0
  {
  }

  lemma {:induction false} PersistElsewhere(s: Exchange, p: nat, trades: seq<Trade>)
    requires p < |s.pairs|
    ensures var s' := PersistExactly(s, p, trades);
      s' == s.(vault := s'.vault, trades := s'.trades, rows := s'.rows)
    decreases |trades|
  {
    hide SettleExactly, FillRow;
    if trades == [] {
    } else {
      PersistElsewhere(Settled(s, p, trades[0]), p, trades[1..]);
    }
  }

  // ----- conservation -----

  ghost function FeesOf(pairs: seq<Pair>, tr: TradeRow, asset: AssetId): real {
    if tr.pair < |pairs| && pairs[tr.pair].quote == asset then tr.trade.takerFee + tr.trade.makerFee else 0.0
  }

  /** What the exchange has kept of an asset. */
  ghost function Fees(s: Exchange, asset: AssetId): real {
    Total(seq(|s.trades|, i requires 0 <= i < |s.trades| => FeesOf(s.pairs, s.trades[i], asset)))
  }

  ghost function CreditOf(d: Deposit, asset: AssetId): real {
    if d.completed && d.key.asset == asset then d.amount else 0.0
  }

  ghost function Credits(deposits: seq<Deposit>, asset: AssetId): seq<real> {
    seq(|deposits|, i requires 0 <= i < |deposits| => CreditOf(deposits[i], asset))
  }

  ghost function PayoutOf(w: Withdrawal, asset: AssetId): real {
    if w.status.Withdrawn? && w.key.asset == asset then w.amount else 0.0
  }

  ghost function Payouts(withdrawals: seq<Withdrawal>, asset: AssetId): seq<real> {
    seq(|withdrawals|, i requires 0 <= i < |withdrawals| => PayoutOf(withdrawals[i], asset))
  }

  /** What of an asset is neither in a wallet nor kept as a fee, counting completed deposits as having come
      in and completed withdrawals as having gone out. */
  ghost function Unexplained(s: Exchange, asset: AssetId): real {
    Supply(s.vault, asset) + Fees(s, asset) - Total(Credits(s.deposits, asset)) + Total(Payouts(s.withdrawals, asset))
  }

  lemma LogSupply(v: Vault, kind: EntryKind, k: Key, debit: real, credit: real, asset: AssetId)
    ensures Supply(v.Log(kind, k, debit, credit), asset) == Supply(v, asset)
  {
    assert Balances(v.Log(kind, k, debit, credit), asset) == Balances(v, asset);
  }

  /** Settling a trade takes its two fees out of the wallets, whoever its users are, and creates exactly what
      its debits were clamped by. */
  lemma TransferSupply(v: Vault, pair: Pair, t: Trade, buyerDebit: real, baseDebit: real, asset: AssetId)
    ensures Supply(Transfer(v, pair, t, buyerDebit, baseDebit), asset)
         == Supply(v, asset)
            + (if pair.quote == asset then t.quote + BuyerFee(t) - buyerDebit - t.takerFee - t.makerFee else 0.0)
            + (if pair.base == asset then t.quantity - baseDebit else 0.0)
  {
    hide Supply, Vault.Move, Vault.Log;
    var bq, bb := Key(Buyer(t), pair.quote), Key(Buyer(t), pair.base);
    var sb, sq := Key(Seller(t), pair.base), Key(Seller(t), pair.quote);
    var credit := t.quote - SellerFee(t);
    var v1 := v.Move(bq, 0.0, -buyerDebit);
    var v2 := v1.Move(bb, t.quantity, 0.0);
    var v3 := v2.Move(sb, 0.0, -baseDebit);
    var v4 := v3.Move(sq, credit, 0.0);
    var v5 := v4.Log(TradeBuyQuote, bq, buyerDebit, 0.0);
    var v6 := v5.Log(TradeBuyBase, bb, 0.0, t.quantity);
    var v7 := v6.Log(TradeSellBase, sb, t.quantity, 0.0);
    MoveSupply(v, bq, 0.0, -buyerDebit, asset);
    MoveSupply(v1, bb, t.quantity, 0.0, asset);
    MoveSupply(v2, sb, 0.0, -baseDebit, asset);
    MoveSupply(v3, sq, credit, 0.0, asset);
    LogSupply(v4, TradeBuyQuote, bq, buyerDebit, 0.0, asset);
    LogSupply(v5, TradeBuyBase, bb, 0.0, t.quantity, asset);
    LogSupply(v6, TradeSellBase, sb, t.quantity, 0.0, asset);
    LogSupply(v7, TradeSellQuote, sq, 0.0, credit, asset);
  }

  lemma SettledConserves(s: Exchange, p: nat, t: Trade, asset: AssetId)
    requires p < |s.pairs|
    ensures Unexplained(Settled(s, p, t), asset) == Unexplained(s, asset)
  {
    hide Supply, Transfer, FillRow, Total, FeesOf;
    var s', x := Settled(s, p, t), FeesOf(s.pairs, TradeRow(p, t), asset);
    var fees := seq(|s.trades|, i requires 0 <= i < |s.trades| => FeesOf(s.pairs, s.trades[i], asset));
    assert seq(|s'.trades|, i requires 0 <= i < |s'.trades| => FeesOf(s'.pairs, s'.trades[i], asset)) == fees + [x];
    TotalAppend(fees, [x]);
    TotalOne(x);
    TransferSupply(s.vault, s.pairs[p], t, t.quote + BuyerFee(t), t.quantity, asset);
    FeesOne(s.pairs, p, t, asset);
  }

  lemma FeesOne(pairs: seq<Pair>, p: nat, t: Trade, asset: AssetId)
    requires p < |pairs|
    ensures FeesOf(pairs, TradeRow(p, t), asset) == if pairs[p].quote == asset then t.takerFee + t.makerFee else 0.0
  {
  }

  lemma {:induction false} PersistConserves(s: Exchange, p: nat, trades: seq<Trade>, asset: AssetId)
    requires p < |s.pairs|
    ensures Unexplained(PersistExactly(s, p, trades), asset) == Unexplained(s, asset)
    decreases |trades|
  {
    hide Unexplained, SettleExactly, FillRow;
    if trades == [] {
    } else {
      SettledConserves(s, p, trades[0], asset);
      PersistConserves(Settled(s, p, trades[0]), p, trades[1..], asset);
    }
  }

  lemma SameVault(s: Exchange, s': Exchange, asset: AssetId)
    requires s' == s.(vault := s'.vault, rows := s'.rows, books := s'.books)
    ensures Unexplained(s', asset) - Supply(s'.vault, asset) == Unexplained(s, asset) - Supply(s.vault, asset)
  {
    hide Supply, Total;
  }

  /** Reserving and releasing move funds within one wallet. */
  lemma ReserveSupply(v: Vault, pair: Pair, user: UserId, side: Side, quantity: real, price: real, quote: real,
                      fee: real,
                      asset: AssetId)
    requires Reserve(v, pair, user, side, quantity, price, quote, fee).Ok?
    ensures Supply(Reserve(v, pair, user, side, quantity, price, quote, fee).value, asset) == Supply(v, asset)
  {
    hide Supply, ReserveAmount, Vault.Move, Vault.Log;
    var amount, k := ReserveAmount(side, quantity, price, quote, fee), Key(user, LockAsset(pair, side));
    MoveSupply(v, k, -amount, amount, asset);
    LogSupply(v.Move(k, -amount, amount), OrderReserve, k, amount, 0.0, asset);
  }

  lemma ReleaseSupply(v: Vault, pair: Pair, user: UserId, side: Side, amount: real, asset: AssetId)
    ensures Supply(ReleaseAmount(v, pair, user, side, amount), asset) == Supply(v, asset)
  {
    hide Supply, Vault.Move, Vault.Log;
    var k := Key(user, LockAsset(pair, side));
    var released := Min(amount, v.Locked(k));
    MoveSupply(v, k, released, -released, asset);
    LogSupply(v.Move(k, released, -released), OrderRelease, k, 0.0, released, asset);
  }

  lemma PlacedConserves(s: Exchange, s': Exchange, p: nat, o: Order, row: Row, e': State, r: EngineModel.Result,
                        extra: real,
                        asset: AssetId)
    requires Placed(s, s', p, o, row, e', r, extra)
    ensures Unexplained(s', asset) == Unexplained(s, asset)
  {
    hide Unexplained, Supply, PersistExactly, ReleaseAmount, AllUnsettled, FillRows, TradesOf;
    var s1, t := Recorded(s, p, row, e'), TradesOf(r.fills, o, s.pairs[p].Fees());
    PersistConserves(s1, p, t, asset);
    SameVault(s, s1, asset);
    var s2 := PersistExactly(s1, p, t);
    ReleaseSupply(s2.vault, s.pairs[p], o.user, o.side, extra, asset);
    SameVault(s2, s', asset);
  }

  /** A deposit's credit and the wallet it credits move together. */
  lemma ConfirmConserves(s: Exchange, ev: Event, asset: AssetId)
    requires ev.MakeDeposit? || ev.ConfirmDeposit?
    ensures Unexplained(Step(s, ev).0, asset) == Unexplained(s, asset)
  {
    hide Supply, Total, Vault.Move, Vault.Log, Fees;
    var s' := Step(s, ev).0;
    FeesKept(s, s', asset);
    if s'.deposits != s.deposits {
      if ev.MakeDeposit? {
        var d := s'.deposits[|s.deposits|];
        assert Credits(s'.deposits, asset) == Credits(s.deposits, asset) + [CreditOf(d, asset)];
        TotalAppend(Credits(s.deposits, asset), [CreditOf(d, asset)]);
        TotalOne(CreditOf(d, asset));
      } else {
        var d, d' := s.deposits[ev.id], s'.deposits[ev.id];
        assert Credits(s'.deposits, asset) == Credits(s.deposits, asset)[ev.id := CreditOf(d', asset)];
        TotalUpdate(Credits(s.deposits, asset), ev.id, CreditOf(d', asset));
        MoveSupply(s.vault, d.key, d.amount, 0.0, asset);
        LogSupply(s.vault.Move(d.key, d.amount, 0.0), DepositCredit, d.key, 0.0, d.amount, asset);
      }
    }
  }

  lemma FeesKept(s: Exchange, s': Exchange, asset: AssetId)
    requires s'.pairs == s.pairs && s'.trades == s.trades
    ensures Fees(s', asset) == Fees(s, asset)
  {
  }

  lemma WithdrawalConserves(s: Exchange, ev: Event, asset: AssetId)
    requires ev.RequestWithdrawal? || ev.ApproveWithdrawal? || ev.BroadcastWithdrawal?
          || ev.CancelWithdrawal? || ev.CompleteWithdrawal?
    ensures Unexplained(Step(s, ev).0, asset) == Unexplained(s, asset)
  {
    hide Supply, Total, Vault.Move, Vault.Log, Vault.Get, Fees;
    var s' := Step(s, ev).0;
    FeesKept(s, s', asset);
    if s' != s {
      if ev.RequestWithdrawal? {
        var w := s'.withdrawals[|s.withdrawals|];
        assert Payouts(s'.withdrawals, asset) == Payouts(s.withdrawals, asset) + [PayoutOf(w, asset)];
        TotalAppend(Payouts(s.withdrawals, asset), [PayoutOf(w, asset)]);
        TotalOne(PayoutOf(w, asset));
        MoveSupply(s.vault, w.key, -w.amount, w.amount, asset);
        LogSupply(s.vault.Move(w.key, -w.amount, w.amount), WithdrawalReserve, w.key, w.amount, 0.0, asset);
      } else {
        var w, w' := s.withdrawals[ev.id], s'.withdrawals[ev.id];
        assert Payouts(s'.withdrawals, asset) == Payouts(s.withdrawals, asset)[ev.id := PayoutOf(w', asset)];
        TotalUpdate(Payouts(s.withdrawals, asset), ev.id, PayoutOf(w', asset));
        var released := Min(s.vault.Locked(w.key), w.amount);
        MoveSupply(s.vault, w.key, released, -released, asset);
        LogSupply(s.vault.Move(w.key, released, -released), WithdrawalRelease, w.key, 0.0, released, asset);
        MoveSupply(s.vault, w.key, 0.0, -w.amount, asset);
        LogSupply(s.vault.Move(w.key, 0.0, -w.amount), WithdrawalComplete, w.key, w.amount, 0.0, asset);
      }
    }
  }

  // ----- every call -----

  /** The books of the exchange's vault, and of one asset `total` that nothing else explains. */
  ghost predicate Whole(s: Exchange, opening: Vault, asset: AssetId, total: real) {
    Booked(s.vault, opening) && Unexplained(s, asset) == total
  }

  lemma ReserveWhole(s: Exchange, pair: Pair, user: UserId, side: Side, quantity: real, price: real, quote: real,
                     fee: real, opening: Vault, asset: AssetId, total: real)
    requires Whole(s, opening, asset, total) && Reserve(s.vault, pair, user, side, quantity, price, quote, fee).Ok?
    ensures Whole(s.(vault := Reserve(s.vault, pair, user, side, quantity, price, quote, fee).value),
                  opening, asset, total)
  {
    hide Booked, Unexplained, Supply, Reserve;
    var v := Reserve(s.vault, pair, user, side, quantity, price, quote, fee).value;
    ReserveBooked(s.vault, opening, pair, user, side, quantity, price, quote, fee);
    ReserveSupply(s.vault, pair, user, side, quantity, price, quote, fee, asset);
    SameVault(s, s.(vault := v), asset);
  }

  lemma ReleaseWhole(s: Exchange, s': Exchange, pair: Pair, user: UserId, side: Side, amount: real, opening: Vault,
                     asset: AssetId, total: real)
    requires Whole(s, opening, asset, total) && amount <= s.vault.Locked(Key(user, LockAsset(pair, side)))
    requires s' == s.(vault := ReleaseAmount(s.vault, pair, user, side, amount), rows := s'.rows, books := s'.books)
    ensures Whole(s', opening, asset, total)
  {
    hide Booked, Unexplained, Supply, ReleaseAmount;
    ReleaseBooked(s.vault, opening, pair, user, side, amount);
    ReleaseSupply(s.vault, pair, user, side, amount, asset);
    SameVault(s, s', asset);
  }

  lemma PlacedWhole(s: Exchange, s': Exchange, p: nat, o: Order, row: Row, e': State, r: EngineModel.Result,
                    extra: real,
                    opening: Vault, asset: AssetId, total: real)
    requires Whole(s, opening, asset, total) && Placed(s, s', p, o, row, e', r, extra)
    ensures Whole(s', opening, asset, total)
  {
    hide Booked, Unexplained, Placed;
    PlacedBooked(s, s', p, o, row, e', r, extra, opening);
    PlacedConserves(s, s', p, o, row, e', r, extra, asset);
  }

  lemma EnterWhole(s: Exchange, p: nat, o: Order, opening: Vault, asset: AssetId, total: real)
    requires Inv(s) && p < |s.books| && Incoming(o) && o.kind.Limit? && o.id == |s.rows|
    requires Whole(s, opening, asset, total) && Enter(s, p, o).1.Done?
    ensures Whole(Enter(s, p, o).0, opening, asset, total)
  {
    hide Inv, Whole, Enter, Placed, Filed, Reserve, KeptBack;
    InvParts(s);
    var row, e', r := EnterInv(s, p, o);
    ReserveWhole(s, s.pairs[p], o.user, o.side, o.quantity, o.price, 0.0, s.pairs[p].takerFee, opening, asset, total);
    PlacedWhole(s.(vault := Reserved(s, p, o).value), Enter(s, p, o).0, p, o, row, e', r, 0.0, opening, asset, total);
  }

  lemma FinishWhole(s: Exchange, p: nat, id: OrderId, opening: Vault, asset: AssetId, total: real)
    requires Inv(s) && p < |s.pairs| && KeepsRest(s, p, id) && Whole(s, opening, asset, total)
    ensures Whole(Finish(s, p, id), opening, asset, total)
  {
    hide Inv, Whole, ReleaseAmount, Lockup;
    FinishInv(s, p, id);
    if s.rows[id].status.Terminal() {
      ReleaseWhole(s, Finish(s, p, id), s.pairs[p], s.rows[id].user, s.rows[id].side, FinishAmount(s, p, id), opening,
                   asset, total);
    }
  }

  lemma SameBalancesBooked(v: Vault, v': Vault, opening: Vault)
    requires Booked(v, opening) && SameBalances(v, v')
    ensures Booked(v', opening)
  {
    hide FoldAvailable, FoldLocked, Latest, SingleSided;
    forall k ensures v'.Available(k) == v.Available(k) && v'.Locked(k) == v.Locked(k) {
      assert v'.Get(k) == v.Get(k);
    }
  }

  lemma AskedWhole(s: Exchange, pair: Pair, user: UserId, side: Side, quantity: real, price: real, quote: real,
                   fee: real,
                   opening: Vault, asset: AssetId, total: real)
    requires Whole(s, opening, asset, total)
    ensures Whole(s.(vault := Asked(s.vault, pair, user, side, quantity, price, quote, fee)), opening, asset, total)
  {
    hide Booked, Unexplained, Supply, ReserveAmount, Touch, SameBalances;
    var s' := s.(vault := Asked(s.vault, pair, user, side, quantity, price, quote, fee));
    AskedSame(s.vault, pair, user, side, quantity, price, quote, fee);
    SameBalancesBooked(s.vault, s'.vault, opening);
    TouchSupply(s.vault, Key(user, LockAsset(pair, side)), asset);
    SameVault(s, s', asset);
  }

  lemma CopyOneWhole(s: Exchange, p: nat, leader: Row, tif: TimeInForce, rel: Relation, opening: Vault, asset: AssetId,
                     total: real)
    requires Inv(s) && p < |s.books| && leader.price > 0.0 && Whole(s, opening, asset, total)
    ensures Whole(CopyOne(s, p, leader, tif, rel).0, opening, asset, total)
  {
    hide Enter, Finish, Inv, Cap, FloorToStep, Filed, Placed, KeptBack, Whole, Asked;
    InvParts(s);
    var pair := s.pairs[p];
    var size := CopyQuantity(leader.quantity, leader.price, rel.allocation, rel.maxPosition, pair.minQty, pair.maxQty,
                             pair.minNotional, pair.stepSize);
    if size.Some? {
      var o := LimitOrder(s, rel.follower, leader.side, leader.price, size.value, tif, 0.0);
      var row, e', r := EnterInv(s, p, o);
      if Enter(s, p, o).1.Done? {
        var s1 := Enter(s, p, o).0;
        EnterWhole(s, p, o, opening, asset, total);
        FiledOnward(s, s1, p, o, row, e', r, r.fills, []);
        FiledTaker(s, s1, p, o, row, e', r);
        KeptBackAt(s1, p, |s.rows|, o, r);
        FinishWhole(s1, p, |s.rows|, opening, asset, total);
      } else {
        AskedWhole(s, pair, rel.follower, leader.side, size.value, leader.price, 0.0, pair.takerFee, opening, asset,
                   total);
      }
    }
  }

  lemma {:induction false} CopiesWhole(s: Exchange, p: nat, leader: Row, tif: TimeInForce, relations: seq<Relation>,
                                       opening: Vault, asset: AssetId, total: real)
    requires Inv(s) && p < |s.books| && leader.price > 0.0 && Whole(s, opening, asset, total)
    ensures Whole(Copies(s, p, leader, tif, relations).0, opening, asset, total)
    decreases |relations|
  {
    hide CopyOne, Inv, Whole;
    InvParts(s);
    if relations == [] {
    } else {
      CopyOneInv(s, p, leader, tif, relations[0]);
      CopyOneWhole(s, p, leader, tif, relations[0], opening, asset, total);
      CopiesWhole(CopyOne(s, p, leader, tif, relations[0]).0, p, leader, tif, relations[1..], opening, asset, total);
    }
  }

  lemma PlaceLimitWhole(s: Exchange, ev: Event, opening: Vault, asset: AssetId, total: real)
    requires Inv(s) && ev.PlaceLimit? && Whole(s, opening, asset, total)
    ensures Whole(PlaceLimitOrder(s, ev).0, opening, asset, total)
  {
    hide Enter, Copies, Finish, Inv, QuantityRules, PriceRules, Filed, Placed, KeptBack, Whole;
    if LimitAccepted(s, ev) {
      InvParts(s);
      var p, o := ev.pair, Entering(s, ev);
      var row, e', r := EnterInv(s, p, o);
      if Enter(s, p, o).1.Done? {
        var s1 := Enter(s, p, o).0;
        EnterWhole(s, p, o, opening, asset, total);
        FiledOnward(s, s1, p, o, row, e', r, r.fills, []);
        TakerPrice(s, s1, p, o, row, e', r);
        CopiesInv(s1, p, row, ev.tif, s.relations);
        CopiesWhole(s1, p, row, ev.tif, s.relations, opening, asset, total);
        var s2 := Copies(s1, p, row, ev.tif, s.relations).0;
        CopiesOwnSide(s1, p, row, ev.tif, s.relations, |s.rows|);
        FiledTaker(s, s1, p, o, row, e', r);
        KeptBackAt(s2, p, |s.rows|, o, r);
        FinishWhole(s2, p, |s.rows|, opening, asset, total);
      }
    }
  }

  lemma PlaceMarketWhole(s: Exchange, ev: Event, opening: Vault, asset: AssetId, total: real)
    requires Inv(s) && ev.PlaceMarket? && !Oversells(s, ev) && Whole(s, opening, asset, total)
    ensures Whole(PlaceMarketOrder(s, ev).0, opening, asset, total)
  {
    hide Inv, Whole, Placed, Oversells, Reserve, BestPrice, MatchMarketOrder, QuantityRules;
    InvParts(s);
    var o, row, e', r, extra := PlaceMarketInv(s, ev);
    PlaceRefused(s, ev);
    if PlaceMarketOrder(s, ev).1.Done? {
      var reference := BestPrice(s.books[ev.pair], ev.side.Opposite());
      var quantity := if ev.quantity > 0.0 then ev.quantity else ev.quote / reference;
      ReserveWhole(s, s.pairs[ev.pair], ev.user, ev.side, quantity, reference, ev.quote, s.pairs[ev.pair].takerFee,
                   opening, asset, total);
      PlacedWhole(s.(vault := MarketReserved(s, ev).value), PlaceMarketOrder(s, ev).0, ev.pair, o, row, e', r, extra,
                  opening, asset, total);
    }
  }

  lemma CancelWhole(s: Exchange, user: UserId, id: OrderId, opening: Vault, asset: AssetId, total: real)
    requires Inv(s) && !ReleasesTwice(s, CancelOrder(user, id)) && Whole(s, opening, asset, total)
    ensures Whole(CancelStored(s, user, id).0, opening, asset, total)
  {
    hide Inv, Whole, ReleaseAmount, Lockup, Cancel;
    CancelInv(s, user, id);
    if Cancellable(s, user, id) {
      var row, s' := s.rows[id], CancelStored(s, user, id).0;
      if CancelAsks(s, id) > 0.0 {
        ReleaseWhole(s, s', s.pairs[row.pair], user, row.side, CancelAsks(s, id), opening, asset, total);
      } else {
        NothingAsked(s.vault, s.pairs[row.pair], user, row.side, CancelAsks(s, id));
        SameWhole(s, s', opening, asset, total);
      }
    }
  }

  lemma SameWhole(s: Exchange, s': Exchange, opening: Vault, asset: AssetId, total: real)
    requires Whole(s, opening, asset, total) && s' == s.(rows := s'.rows, books := s'.books)
    ensures Whole(s', opening, asset, total)
  {
    hide Booked, Supply, Unexplained;
    SameVault(s, s', asset);
  }

  /** Deposits and withdrawals log what they move. */
  lemma FundsBooked(s: Exchange, ev: Event, opening: Vault)
    requires Inv(s) && DepositsOk(s.deposits) && Booked(s.vault, opening)
    requires !ev.PlaceLimit? && !ev.PlaceMarket? && !ev.CancelOrder?
    ensures Booked(Step(s, ev).0.vault, opening) && DepositsOk(Step(s, ev).0.deposits)
  {
    hide Inv, Booked, Vault.Move, Vault.Log;
    match ev
    case ConfirmDeposit(_, id, _) =>
      if Step(s, ev).0.vault != s.vault {
        var d := s.deposits[id];
        AvailableNonneg(s.vault, opening, d.key);
        BookOne(s.vault, opening, DepositCredit, d.key, d.amount, 0.0, 0.0, d.amount);
      }
    case RequestWithdrawal(user, asset, amount) =>
      if Step(s, ev).0.vault != s.vault {
        BookOne(s.vault, opening, WithdrawalReserve, Key(user, asset), -amount, amount, amount, 0.0);
      }
    case CancelWithdrawal(_, id) =>
      if Step(s, ev).0.vault != s.vault {
        var w := s.withdrawals[id];
        WithdrawalLocked(s, id);
        AvailableNonneg(s.vault, opening, w.key);
        BookOne(s.vault, opening, WithdrawalRelease, w.key, w.amount, -w.amount, 0.0, w.amount);
      }
    case CompleteWithdrawal(_, id) =>
      if Step(s, ev).0.vault != s.vault {
        var w := s.withdrawals[id];
        WithdrawalLocked(s, id);
        AvailableNonneg(s.vault, opening, w.key);
        BookOne(s.vault, opening, WithdrawalComplete, w.key, 0.0, -w.amount, w.amount, 0.0);
      }
    case _ =>
  }

  lemma FundsConserve(s: Exchange, ev: Event, asset: AssetId)
    requires !ev.PlaceLimit? && !ev.PlaceMarket? && !ev.CancelOrder?
    ensures Unexplained(Step(s, ev).0, asset) == Unexplained(s, asset)
  {
    hide Unexplained, Step;
    if ev.MakeDeposit? || ev.ConfirmDeposit? {
      ConfirmConserves(s, ev, asset);
    } else {
      WithdrawalConserves(s, ev, asset);
    }
  }

  /** Every admissible call keeps the ledger's properties and every asset's total. */
  lemma StepWhole(s: Exchange, ev: Event, opening: Vault, asset: AssetId, total: real)
    requires Inv(s) && Admissible(s, ev) && DepositsOk(s.deposits) && Whole(s, opening, asset, total)
    ensures Whole(Step(s, ev).0, opening, asset, total) && DepositsOk(Step(s, ev).0.deposits)
  {
    hide Inv, PlaceLimitOrder, PlaceMarketOrder, CancelStored, Booked, Unexplained, Oversells, ReleasesTwice, Confirm,
         AddDeposit, Request, Approve, SendOut, CallOff, Complete;
    match ev
    case PlaceLimit(_, _, _, _, _, _, _) =>
      PlaceLimitWhole(s, ev, opening, asset, total);
      OrdersLeaveFunds(s, ev);
    case PlaceMarket(_, _, _, _, _) =>
      PlaceMarketWhole(s, ev, opening, asset, total);
      OrdersLeaveFunds(s, ev);
    case CancelOrder(user, id) =>
      CancelWhole(s, user, id, opening, asset, total);
      OrdersLeaveFunds(s, ev);
    case _ =>
      FundsBooked(s, ev, opening);
      FundsConserve(s, ev, asset);
  }

  // ----- every run -----

  lemma {:induction false} RunWhole(s: Exchange, evs: seq<Event>, opening: Vault, asset: AssetId, total: real)
    requires Inv(s) && Allowed(s, evs) && DepositsOk(s.deposits) && Whole(s, opening, asset, total)
    ensures Whole(Run(s, evs), opening, asset, total)
    decreases |evs|
  {
    hide Inv, Step, Whole, Admissible, DepositsOk;
    if evs == [] {
    } else {
      StepInv(s, evs[0]);
      StepWhole(s, evs[0], opening, asset, total);
      RunWhole(Step(s, evs[0]).0, evs[1..], opening, asset, total);
    }
  }

  lemma FreshBooked(s: Exchange)
    requires Fresh(s)
    ensures Booked(s.vault, s.vault) && DepositsOk(s.deposits)
  {
    hide FoldAvailable, FoldLocked;
    assert s.vault.(ledger := []) == s.vault;
  }

  lemma NoEntries(k: Key)
    ensures FoldAvailable([], k) == 0.0 == FoldLocked([], k)
  {
  }

  /** Every admissible run: folding the ledger rebuilds both columns of every wallet from what it opened with; nothing
      is overdrawn, every entry is single-sided, and a wallet's latest entry carries its balance. */
  lemma LedgerRebuilds(s: Exchange, evs: seq<Event>, k: Key)
    requires Fresh(s) && Allowed(s, evs)
    ensures var v := Run(s, evs).vault;
      && v.Available(k) == s.vault.Available(k) + FoldAvailable(v.ledger, k) >= 0.0
      && v.Locked(k) == FoldLocked(v.ledger, k)
      && (forall i :: 0 <= i < |v.ledger| ==> SingleSided(v.ledger[i]))
      && (forall i :: 0 <= i < |v.ledger| && Latest(v.ledger, i) ==>
            v.ledger[i].balanceAfter == v.Available(v.ledger[i].key) + v.Locked(v.ledger[i].key))
  {
    hide Run, Allowed, FoldAvailable, FoldLocked, Inv, PairsOk, SingleSided;
    FreshInv(s);
    FreshBooked(s);
    RunWhole(s, evs, s.vault, 0, Unexplained(s, 0));
    NoEntries(k);
    var v := Run(s, evs).vault;
    assert AvailableGap(v, k) == AvailableGap(s.vault.(ledger := []), k);
    assert LockedGap(v, k) == LockedGap(s.vault.(ledger := []), k);
  }

  lemma NothingMoved(s: Exchange, asset: AssetId)
    requires Fresh(s)
    ensures Unexplained(s, asset) == Supply(s.vault, asset)
  {
    hide Supply, PairsOk;
    assert Credits(s.deposits, asset) == [] && Payouts(s.withdrawals, asset) == [];
  }

  /** Every admissible run: what users hold of an asset plus what the exchange kept in fees is what they opened with
      plus the deposits completed less the withdrawals completed. */
  lemma AssetsConserved(s: Exchange, evs: seq<Event>, asset: AssetId)
    requires Fresh(s) && Allowed(s, evs)
    ensures var r := Run(s, evs);
      Supply(r.vault, asset) + Fees(r, asset)
        == Supply(s.vault, asset) + Total(Credits(r.deposits, asset)) - Total(Payouts(r.withdrawals, asset))
  {
    hide Run, Allowed, Supply, Fees, Credits, Payouts, Total, Fresh, Booked, DepositsOk, Inv;
    FreshInv(s);
    FreshBooked(s);
    RunWhole(s, evs, s.vault, asset, Unexplained(s, asset));
    NothingMoved(s, asset);
  }
}
