/** The exact account of every wallet's locked funds, and why settling a match keeps it.

    At any moment a wallet's `locked` is the sum of what its owner's live limit orders still lock up, its
    live withdrawals, and the residue its buys have left behind: what their limits had locked up beyond
    what they paid.  Nothing returns that residue, so it is part of the account. */
module Accounting {
  import opened Orders
  import opened Sums
  import opened EngineModel
  import opened Wallets
  import opened ExchangeModel

  // ----- what is owed -----

  function Unfilled(r: Row): real {
    if r.status.Live() && r.kind.Limit? then r.quantity - r.filled else 0.0
  }

  ghost predicate HeldAt(pairs: seq<Pair>, r: Row, k: Key) {
    r.pair < |pairs| && Key(r.user, LockAsset(pairs[r.pair], r.side)) == k
  }

  /** What a stored order keeps locked in a wallet. */
  ghost function Hold(pairs: seq<Pair>, r: Row, k: Key): real {
    if HeldAt(pairs, r, k) then Lockup(r.side, r.price, Unfilled(r) + r.hidden, pairs[r.pair].takerFee) else 0.0
  }

  ghost function Due(w: Withdrawal, k: Key): real {
    if w.key == k && w.status.Live() then w.amount else 0.0
  }

  function BuyOrder(t: Trade): OrderId {
    if t.takerSide.Buy? then t.takerOrder else t.makerOrder
  }

  /** The price a party's funds were locked at. */
  function LockPrice(r: Row, t: Trade): real {
    if r.kind.Limit? then r.price else t.price
  }

  /** What a trade's buyer had locked for it beyond what the trade took. */
  ghost function Residue(pairs: seq<Pair>, rows: seq<Row>, tr: TradeRow, k: Key): real {
    if tr.pair < |pairs| && BuyOrder(tr.trade) < |rows| && Key(Buyer(tr.trade), pairs[tr.pair].quote) == k then
      Cost(LockPrice(rows[BuyOrder(tr.trade)], tr.trade), tr.trade.quantity, pairs[tr.pair].takerFee)
        - (tr.trade.quote + BuyerFee(tr.trade))
    else 0.0
  }

  /** What a taker still has locked for a trade not yet settled. */
  ghost function Claim(pairs: seq<Pair>, rows: seq<Row>, t: Trade, k: Key): real {
    if t.takerOrder < |rows| && HeldAt(pairs, rows[t.takerOrder], k) then
      var r := rows[t.takerOrder];
      Lockup(r.side, LockPrice(r, t), t.quantity, pairs[r.pair].takerFee)
    else 0.0
  }

  ghost function Holds(pairs: seq<Pair>, rows: seq<Row>, k: Key): seq<real> {
    seq(|rows|, i requires 0 <= i < |rows| => Hold(pairs, rows[i], k))
  }

  ghost function Dues(withdrawals: seq<Withdrawal>, k: Key): seq<real> {
    seq(|withdrawals|, i requires 0 <= i < |withdrawals| => Due(withdrawals[i], k))
  }

  ghost function Residues(pairs: seq<Pair>, rows: seq<Row>, trades: seq<TradeRow>, k: Key): seq<real> {
    seq(|trades|, i requires 0 <= i < |trades| => Residue(pairs, rows, trades[i], k))
  }

  ghost function Claims(pairs: seq<Pair>, rows: seq<Row>, trades: seq<Trade>, k: Key): seq<real> {
    seq(|trades|, i requires 0 <= i < |trades| => Claim(pairs, rows, trades[i], k))
  }

  ghost function Owed(s: Exchange, k: Key): real {
    Total(Holds(s.pairs, s.rows, k)) + Total(Dues(s.withdrawals, k)) + Total(Residues(s.pairs, s.rows, s.trades, k))
  }

  /** Locked funds are exactly what is owed, plus the claims of trades still to be settled and an amount
      `extra` in one wallet that the step has yet to release. */
  ghost predicate Accounted(s: Exchange, pending: seq<Trade>, extra: real, at: Key) {
    forall k: Key :: s.vault.Locked(k) == Owed(s, k) + Total(Claims(s.pairs, s.rows, pending, k))
                                          + (if k == at then extra else 0.0)
  }

  // ----- what makes every term nonnegative -----

  ghost predicate RowOk(pairs: seq<Pair>, r: Row) {
    && r.pair < |pairs| && pairs[r.pair].Valid()
    && 0.0 <= r.filled <= r.quantity && r.hidden >= 0.0 && r.price >= 0.0
    && (r.kind.Limit? ==> r.price > 0.0 && (r.status.Live() || r.status.Terminal()))
  }

  ghost predicate RowsOk(pairs: seq<Pair>, rows: seq<Row>) {
    forall i :: 0 <= i < |rows| ==> RowOk(pairs, rows[i])
  }

  /** A trade is between two stored orders of its pair, at the maker's limit and no worse than the taker's. */
  ghost predicate Fair(pairs: seq<Pair>, rows: seq<Row>, tr: TradeRow) {
    var t := tr.trade;
    && tr.pair < |pairs| && pairs[tr.pair].Valid() && t.takerOrder < |rows| && t.makerOrder < |rows|
    && t.price > 0.0 && t.quantity > 0.0 && t.quote == Mul(t.price, t.quantity)
    && t.takerFee == Mul(pairs[tr.pair].takerFee, t.quote) && t.makerFee == Mul(pairs[tr.pair].makerFee, t.quote)
    && (var a := rows[t.takerOrder];
        && a.user == t.takerUser && a.side == t.takerSide && a.pair == tr.pair
        && (a.kind.Limit? ==> a.price > 0.0 && if a.side.Buy? then t.price <= a.price else t.price >= a.price))
    && (var m := rows[t.makerOrder];
        && m.user == t.makerUser && m.side == t.takerSide.Opposite() && m.pair == tr.pair
        && m.kind.Limit? && m.price == t.price)
  }

  ghost predicate AllFair(pairs: seq<Pair>, rows: seq<Row>, trades: seq<TradeRow>) {
    forall i :: 0 <= i < |trades| ==> Fair(pairs, rows, trades[i])
  }

  ghost predicate WithdrawalsOk(withdrawals: seq<Withdrawal>) {
    forall i :: 0 <= i < |withdrawals| ==> withdrawals[i].amount > 0.0
  }

  ghost predicate StoreOk(s: Exchange) {
    RowsOk(s.pairs, s.rows) && AllFair(s.pairs, s.rows, s.trades) && WithdrawalsOk(s.withdrawals)
  }

  lemma HoldSign(pairs: seq<Pair>, r: Row, k: Key)
    requires RowOk(pairs, r)
    ensures Hold(pairs, r, k) >= 0.0
    ensures forall q :: 0.0 <= q <= Unfilled(r) && HeldAt(pairs, r, k) ==>
      Lockup(r.side, r.price, q, pairs[r.pair].takerFee) <= Hold(pairs, r, k)
  {
    hide Lockup;
    if r.pair < |pairs| {
      LockupSign(r.side, r.price, Unfilled(r) + r.hidden, pairs[r.pair].takerFee);
      forall q | 0.0 <= q <= Unfilled(r) && HeldAt(pairs, r, k)
        ensures Lockup(r.side, r.price, q, pairs[r.pair].takerFee) <= Hold(pairs, r, k)
      {
        LockupAdd(r.side, r.price, q, Unfilled(r) + r.hidden - q, pairs[r.pair].takerFee);
        LockupSign(r.side, r.price, Unfilled(r) + r.hidden - q, pairs[r.pair].takerFee);
      }
    }
  }

  /** A fair trade's buyer had at least what the trade takes locked for it. */
  lemma FairCovers(pairs: seq<Pair>, rows: seq<Row>, tr: TradeRow, k: Key)
    requires Fair(pairs, rows, tr)
    ensures var t := tr.trade; var b := rows[BuyOrder(t)];
      && b.user == Buyer(t) && b.side.Buy? && b.pair == tr.pair
      && 0.0 < t.quote + BuyerFee(t) <= Cost(LockPrice(b, t), t.quantity, pairs[tr.pair].takerFee)
    ensures Residue(pairs, rows, tr, k) >= 0.0
    ensures Claim(pairs, rows, tr.trade, k) >= 0.0
  {
    hide Mul, Cost;
    var t, pair := tr.trade, pairs[tr.pair];
    var b, a := rows[BuyOrder(t)], rows[t.takerOrder];
    var fee := if t.takerSide.Buy? then pair.takerFee else pair.makerFee;
    CostCovers(LockPrice(b, t), t.price, t.quantity, fee, pair.takerFee);
    MulSign(t.price, t.quantity);
    MulSign(fee, t.quote);
    LockupSign(a.side, LockPrice(a, t), t.quantity, pair.takerFee) by { assert LockPrice(a, t) >= 0.0; }
  }

  lemma OwedSign(s: Exchange, k: Key)
    requires StoreOk(s)
    ensures Total(Holds(s.pairs, s.rows, k)) >= 0.0
    ensures forall i :: 0 <= i < |s.rows| ==> Hold(s.pairs, s.rows[i], k) <= Total(Holds(s.pairs, s.rows, k))
    ensures Total(Dues(s.withdrawals, k)) >= 0.0
    ensures forall i :: 0 <= i < |s.withdrawals| ==> Due(s.withdrawals[i], k) <= Total(Dues(s.withdrawals, k))
    ensures Total(Residues(s.pairs, s.rows, s.trades, k)) >= 0.0
  {
    hide Hold, Residue, Fair, RowOk;
    var holds, dues := Holds(s.pairs, s.rows, k), Dues(s.withdrawals, k);
    forall i | 0 <= i < |s.rows| ensures holds[i] >= 0.0 { HoldSign(s.pairs, s.rows[i], k); }
    forall i | 0 <= i < |s.trades| ensures Residue(s.pairs, s.rows, s.trades[i], k) >= 0.0 {
      FairCovers(s.pairs, s.rows, s.trades[i], k);
    }
    TotalBounds(holds);
    TotalBounds(dues);
    TotalBounds(Residues(s.pairs, s.rows, s.trades, k));
    forall i | 0 <= i < |s.rows| ensures Hold(s.pairs, s.rows[i], k) <= Total(holds) {
      assert holds[i] <= Total(holds);
    }
    forall i | 0 <= i < |s.withdrawals| ensures Due(s.withdrawals[i], k) <= Total(dues) {
      assert dues[i] <= Total(dues);
    }
  }

  // ----- rows that keep their terms -----

  predicate SameTerms(a: Row, b: Row) {
    a.user == b.user && a.pair == b.pair && a.side == b.side && a.kind == b.kind && a.price == b.price
  }

  /** Later rows keep every earlier order's terms. */
  ghost predicate Extends(rows: seq<Row>, rows': seq<Row>) {
    |rows| <= |rows'| && forall i :: 0 <= i < |rows| ==> SameTerms(rows[i], rows'[i])
  }

  lemma ExtendsKeeps(pairs: seq<Pair>, rows: seq<Row>, rows': seq<Row>, trades: seq<TradeRow>, k: Key)
    requires Extends(rows, rows') && AllFair(pairs, rows, trades)
    ensures AllFair(pairs, rows', trades)
    ensures Residues(pairs, rows', trades, k) == Residues(pairs, rows, trades, k)
  {
    hide Mul, Cost;
    forall i | 0 <= i < |trades|
      ensures Fair(pairs, rows', trades[i]) && Residue(pairs, rows', trades[i], k) == Residue(pairs, rows, trades[i], k)
    {
      assert Fair(pairs, rows, trades[i]);
    }
  }

  lemma ExtendsClaims(pairs: seq<Pair>, rows: seq<Row>, rows': seq<Row>, trades: seq<Trade>, k: Key)
    requires Extends(rows, rows') && forall i :: 0 <= i < |trades| ==> trades[i].takerOrder < |rows|
    ensures Claims(pairs, rows', trades, k) == Claims(pairs, rows, trades, k)
  {
    hide Lockup;
    forall i | 0 <= i < |trades| ensures Claim(pairs, rows', trades[i], k) == Claim(pairs, rows, trades[i], k) {
      assert SameTerms(rows[trades[i].takerOrder], rows'[trades[i].takerOrder]);
    }
  }

  lemma ResiduesAppend(pairs: seq<Pair>, rows: seq<Row>, trades: seq<TradeRow>, tr: TradeRow, k: Key)
    ensures Total(Residues(pairs, rows, trades + [tr], k))
         == Total(Residues(pairs, rows, trades, k)) + Residue(pairs, rows, tr, k)
  {
    hide Residue;
    var x := Residue(pairs, rows, tr, k);
    assert Residues(pairs, rows, trades + [tr], k) == Residues(pairs, rows, trades, k) + [x];
    TotalAppend(Residues(pairs, rows, trades, k), [x]);
    TotalOne(x);
  }

  lemma HoldsAppend(pairs: seq<Pair>, rows: seq<Row>, r: Row, k: Key)
    ensures Total(Holds(pairs, rows + [r], k)) == Total(Holds(pairs, rows, k)) + Hold(pairs, r, k)
  {
    hide Hold;
    var x := Hold(pairs, r, k);
    assert Holds(pairs, rows + [r], k) == Holds(pairs, rows, k) + [x];
    TotalAppend(Holds(pairs, rows, k), [x]);
    TotalOne(x);
  }

  lemma HoldsUpdate(pairs: seq<Pair>, rows: seq<Row>, i: nat, r: Row, k: Key)
    requires i < |rows|
    ensures Total(Holds(pairs, rows[i := r], k))
         == Total(Holds(pairs, rows, k)) - Hold(pairs, rows[i], k) + Hold(pairs, r, k)
  {
    hide Hold;
    assert Holds(pairs, rows[i := r], k) == Holds(pairs, rows, k)[i := Hold(pairs, r, k)];
    TotalUpdate(Holds(pairs, rows, k), i, Hold(pairs, r, k));
  }

  lemma DuesAppend(withdrawals: seq<Withdrawal>, w: Withdrawal, k: Key)
    ensures Total(Dues(withdrawals + [w], k)) == Total(Dues(withdrawals, k)) + Due(w, k)
  {
    assert Dues(withdrawals + [w], k) == Dues(withdrawals, k) + [Due(w, k)];
    TotalAppend(Dues(withdrawals, k), [Due(w, k)]);
    TotalOne(Due(w, k));
  }

  lemma DuesUpdate(withdrawals: seq<Withdrawal>, i: nat, w: Withdrawal, k: Key)
    requires i < |withdrawals|
    ensures Total(Dues(withdrawals[i := w], k))
         == Total(Dues(withdrawals, k)) - Due(withdrawals[i], k) + Due(w, k)
  {
    assert Dues(withdrawals[i := w], k) == Dues(withdrawals, k)[i := Due(w, k)];
    TotalUpdate(Dues(withdrawals, k), i, Due(w, k));
  }

  lemma ClaimsCons(pairs: seq<Pair>, rows: seq<Row>, trades: seq<Trade>, k: Key)
    requires trades != []
    ensures Total(Claims(pairs, rows, trades, k)) == Claim(pairs, rows, trades[0], k)
         + Total(Claims(pairs, rows, trades[1..], k))
  {
    hide Claim;
    assert Claims(pairs, rows, trades, k)[1..] == Claims(pairs, rows, trades[1..], k);
  }

  // ----- settling one trade -----

  /** A trade about to be settled: fair, and its maker's order still open for at least its quantity. */
  ghost predicate Unsettled(pairs: seq<Pair>, rows: seq<Row>, p: nat, t: Trade) {
    && Fair(pairs, rows, TradeRow(p, t))
    && Unfilled(rows[t.makerOrder]) >= t.quantity
  }

  ghost predicate AllUnsettled(pairs: seq<Pair>, rows: seq<Row>, p: nat, trades: seq<Trade>) {
    && (forall i :: 0 <= i < |trades| ==> Unsettled(pairs, rows, p, trades[i]))
    && (forall i, j :: 0 <= i < j < |trades| ==> trades[i].makerOrder != trades[j].makerOrder)
  }

  /** Settlement with nothing to clamp. */
  function SettleExactly(v: Vault, pair: Pair, t: Trade): Vault {
    Transfer(v, pair, t, t.quote + BuyerFee(t), t.quantity)
  }

  lemma SettleUnclamped(v: Vault, pair: Pair, t: Trade)
    requires 0.0 < t.quote + BuyerFee(t) <= v.Locked(Key(Buyer(t), pair.quote))
    requires 0.0 < t.quantity <= v.Locked(Key(Seller(t), pair.base))
    ensures Settle(v, pair, t) == Ok(SettleExactly(v, pair, t))
  {
    hide Transfer;
  }

  lemma SettleLocked(v: Vault, pair: Pair, t: Trade, k: Key)
    requires pair.base != pair.quote
    ensures SettleExactly(v, pair, t).Locked(k) == v.Locked(k)
         - (if k == Key(Buyer(t), pair.quote) then t.quote + BuyerFee(t) else 0.0)
         - (if k == Key(Seller(t), pair.base) then t.quantity else 0.0)
  {
  }

  /** The account covers a pending trade, so settling it clamps nothing and is never refused. */
  lemma AccountCovers(s: Exchange, p: nat, t: Trade, rest: seq<Trade>, extra: real, at: Key)
    requires StoreOk(s) && p < |s.pairs| && AllUnsettled(s.pairs, s.rows, p, [t] + rest) && extra >= 0.0
    requires Accounted(s, [t] + rest, extra, at)
    ensures 0.0 < t.quote + BuyerFee(t) <= s.vault.Locked(Key(Buyer(t), s.pairs[p].quote))
    ensures 0.0 < t.quantity <= s.vault.Locked(Key(Seller(t), s.pairs[p].base))
  {
    hide Cost, Mul, StoreOk, Residue, Total, Accounted, Lockup, Claim;
    assert ([t] + rest)[0] == t;
    FairIds(s.pairs, s.rows, TradeRow(p, t));
    var pair, tr := s.pairs[p], TradeRow(p, t);
    var m := s.rows[t.makerOrder];
    forall k ensures s.vault.Locked(k) >= Hold(s.pairs, m, k) && s.vault.Locked(k) >= Claim(s.pairs, s.rows, t, k) {
      LockedAtLeast(s, p, t, rest, extra, at, k);
    }
    var kq, kb := Key(Buyer(t), pair.quote), Key(Seller(t), pair.base);
    FairCovers(s.pairs, s.rows, tr, kq);
    assert RowOk(s.pairs, m) by { RowAt(s, t.makerOrder); }
    HoldSign(s.pairs, m, kq);
    HoldSign(s.pairs, m, kb);
    ClaimIs(s.pairs, s.rows, p, t, kq);
    ClaimIs(s.pairs, s.rows, p, t, kb);
    MakerLockup(m, t, pair.takerFee);
  }

  lemma RowAt(s: Exchange, i: nat)
    requires StoreOk(s) && i < |s.rows|
    ensures RowOk(s.pairs, s.rows[i])
  {
  }

  lemma MakerLockup(m: Row, t: Trade, fee: real)
    requires m.kind.Limit? && m.price == t.price
    ensures Lockup(m.side, m.price, t.quantity, fee)
         == if m.side.Buy? then Cost(LockPrice(m, t), t.quantity, fee) else t.quantity
  {
  }

  lemma ClaimIs(pairs: seq<Pair>, rows: seq<Row>, p: nat, t: Trade, k: Key)
    requires Fair(pairs, rows, TradeRow(p, t))
    ensures Claim(pairs, rows, t, k)
         == if k == Key(t.takerUser, LockAsset(pairs[p], t.takerSide))
            then (if t.takerSide.Buy? then Cost(LockPrice(rows[t.takerOrder], t), t.quantity, pairs[p].takerFee)
                  else t.quantity)
            else 0.0
  {
    hide Cost, Mul;
  }

  lemma LockedAtLeast(s: Exchange, p: nat, t: Trade, rest: seq<Trade>, extra: real, at: Key, k: Key)
    requires StoreOk(s) && p < |s.pairs| && AllUnsettled(s.pairs, s.rows, p, [t] + rest) && extra >= 0.0
    requires Accounted(s, [t] + rest, extra, at) && t.makerOrder < |s.rows|
    ensures s.vault.Locked(k) >= Hold(s.pairs, s.rows[t.makerOrder], k)
    ensures s.vault.Locked(k) >= Claim(s.pairs, s.rows, t, k)
  {
    hide Cost, Mul, StoreOk, Residue, Total, Hold, Claim, Fair;
    var all := [t] + rest;
    assert all[0] == t && Unsettled(s.pairs, s.rows, p, t);
    OwedSign(s, k);
    forall i | 0 <= i < |all| ensures Claims(s.pairs, s.rows, all, k)[i] >= 0.0 {
      assert Unsettled(s.pairs, s.rows, p, all[i]);
      FairCovers(s.pairs, s.rows, TradeRow(p, all[i]), k);
    }
    TotalBounds(Claims(s.pairs, s.rows, all, k));
    assert Claims(s.pairs, s.rows, all, k)[0] == Claim(s.pairs, s.rows, t, k);
  }

  lemma FairIds(pairs: seq<Pair>, rows: seq<Row>, tr: TradeRow)
    requires Fair(pairs, rows, tr)
    ensures tr.trade.takerOrder < |rows| && tr.trade.makerOrder < |rows|
  {
  }

  /** After a trade is settled, stored and booked. */
  function Settled(s: Exchange, p: nat, t: Trade): Exchange
    requires p < |s.pairs|
  {
    s.(vault := SettleExactly(s.vault, s.pairs[p], t),
       trades := s.trades + [TradeRow(p, t)],
       rows := FillRow(s.rows, t))
  }

  lemma FillRowKeeps(pairs: seq<Pair>, rows: seq<Row>, p: nat, t: Trade)
    requires Unsettled(pairs, rows, p, t) && RowsOk(pairs, rows)
    ensures Extends(rows, FillRow(rows, t)) && RowsOk(pairs, FillRow(rows, t)) && |FillRow(rows, t)| == |rows|
    ensures Unfilled(FillRow(rows, t)[t.makerOrder]) == Unfilled(rows[t.makerOrder]) - t.quantity
    ensures FillRow(rows, t)[t.makerOrder].hidden == rows[t.makerOrder].hidden
    ensures forall i :: 0 <= i < |rows| && i != t.makerOrder ==> FillRow(rows, t)[i] == rows[i]
  {
    hide Mul;
    assert RowOk(pairs, rows[t.makerOrder]);
  }

  /** The maker's hold shrinks by exactly what it had locked for the trade. */
  lemma MakerHold(pairs: seq<Pair>, rows: seq<Row>, p: nat, t: Trade, k: Key)
    requires Unsettled(pairs, rows, p, t) && RowsOk(pairs, rows)
    ensures Total(Holds(pairs, FillRow(rows, t), k)) == Total(Holds(pairs, rows, k))
         - (if k == Key(t.makerUser, LockAsset(pairs[p], t.takerSide.Opposite()))
            then (if t.takerSide.Buy? then t.quantity
                  else Wallets.Cost(LockPrice(rows[t.makerOrder], t), t.quantity, pairs[p].takerFee))
            else 0.0)
  {
    hide Wallets.Cost, Mul, Lockup, Total;
    var m := rows[t.makerOrder];
    FillRowKeeps(pairs, rows, p, t);
    var m' := FillRow(rows, t)[t.makerOrder];
    HoldsUpdate(pairs, rows, t.makerOrder, m', k);
    LockupAdd(m.side, m.price, Unfilled(m') + m.hidden, t.quantity, pairs[p].takerFee);
    MakerLockup(m, t, pairs[p].takerFee);
    assert FillRow(rows, t) == rows[t.makerOrder := m'];
  }

  /** Settling one trade moves what was claimed and held for it into the wallets and the residue: the
      account stays exact, trade by trade. */
  lemma SettledAccounted(s: Exchange, p: nat, t: Trade, rest: seq<Trade>, extra: real, at: Key)
    requires StoreOk(s) && p < |s.pairs| && AllUnsettled(s.pairs, s.rows, p, [t] + rest)
    requires Accounted(s, [t] + rest, extra, at)
    ensures Accounted(Settled(s, p, t), rest, extra, at)
  {
    hide Wallets.Cost, Mul, Lockup, Total, Holds, Residues, Claims, Dues, StoreOk, SettleExactly, Fair;
    var s', all := Settled(s, p, t), [t] + rest;
    assert all[0] == t && all[1..] == rest;
    forall k ensures s'.vault.Locked(k) == Owed(s', k) + Total(Claims(s'.pairs, s'.rows, rest, k))
                                           + (if k == at then extra else 0.0)
    {
      SettledAt(s, p, t, rest, k);
      assert s.vault.Locked(k) == Owed(s, k) + Total(Claims(s.pairs, s.rows, all, k))
        + (if k == at then extra else 0.0);
    }
  }

  lemma SettledAt(s: Exchange, p: nat, t: Trade, rest: seq<Trade>, k: Key)
    requires StoreOk(s) && p < |s.pairs| && AllUnsettled(s.pairs, s.rows, p, [t] + rest)
    ensures var s' := Settled(s, p, t);
      s'.vault.Locked(k) - Owed(s', k) - Total(Claims(s'.pairs, s'.rows, rest, k))
        == s.vault.Locked(k) - Owed(s, k) - Total(Claims(s.pairs, s.rows, [t] + rest, k))
  {
    hide Wallets.Cost, Mul, Lockup, Total, Holds, Residues, Claims, Dues, SettleExactly, Claim, AllUnsettled, Unfilled;
    var s', all, pair := Settled(s, p, t), [t] + rest, s.pairs[p];
    assert all[0] == t && all[1..] == rest;
    assert Unsettled(s.pairs, s.rows, p, t) by { assert AllUnsettled(s.pairs, s.rows, p, all);
      FirstUnsettled(s, p, all); }
    FillRowKeeps(s.pairs, s.rows, p, t);
    SettleLocked(s.vault, pair, t, k);
    MakerHold(s.pairs, s.rows, p, t, k);
    ExtendsKeeps(s.pairs, s.rows, s'.rows, s.trades, k);
    ResiduesAppend(s.pairs, s'.rows, s.trades, TradeRow(p, t), k);
    ClaimsCons(s.pairs, s.rows, all, k);
    ExtendsClaims(s.pairs, s.rows, s'.rows, rest, k) by { TakersStored(s, p, all); }
    ClaimIs(s.pairs, s.rows, p, t, k);
    assert Residue(s.pairs, s'.rows, TradeRow(p, t), k)
        == if k == Key(Buyer(t), pair.quote)
           then Wallets.Cost(LockPrice(s.rows[BuyOrder(t)], t), t.quantity, pair.takerFee) - (t.quote + BuyerFee(t))
           else 0.0 by {
      assert SameTerms(s.rows[BuyOrder(t)], s'.rows[BuyOrder(t)]);
    }
  }

  lemma FirstUnsettled(s: Exchange, p: nat, all: seq<Trade>)
    requires AllUnsettled(s.pairs, s.rows, p, all) && all != []
    ensures Unsettled(s.pairs, s.rows, p, all[0])
  {
    hide Fair, Mul;
  }

  lemma TakersStored(s: Exchange, p: nat, all: seq<Trade>)
    requires AllUnsettled(s.pairs, s.rows, p, all) && all != []
    ensures forall i :: 0 <= i < |all[1..]| ==> all[1..][i].takerOrder < |s.rows|
  {
    hide Mul;
    forall i | 0 <= i < |all[1..]| ensures all[1..][i].takerOrder < |s.rows| {
      assert Unsettled(s.pairs, s.rows, p, all[i + 1]);
    }
  }

  lemma RestUnsettled(pairs: seq<Pair>, rows: seq<Row>, p: nat, all: seq<Trade>)
    requires AllUnsettled(pairs, rows, p, all) && all != [] && RowsOk(pairs, rows)
    ensures AllUnsettled(pairs, FillRow(rows, all[0]), p, all[1..])
  {
    hide Mul, RowsOk;
    var t, rest, rows' := all[0], all[1..], FillRow(rows, all[0]);
    assert Unsettled(pairs, rows, p, t);
    FillRowKeeps(pairs, rows, p, t);
    forall i | 0 <= i < |rest| ensures Unsettled(pairs, rows', p, rest[i]) {
      assert rest[i] == all[i + 1];
      assert Unsettled(pairs, rows, p, all[i + 1]);
      assert SameTerms(rows[rest[i].takerOrder], rows'[rest[i].takerOrder]);
    }
  }

  /** The rows after a whole match. */
  function FillRows(rows: seq<Row>, trades: seq<Trade>): seq<Row>
    decreases |trades|
  {
    if trades == [] then rows else FillRows(FillRow(rows, trades[0]), trades[1..])
  }

  function PersistExactly(s: Exchange, p: nat, trades: seq<Trade>): Exchange
    requires p < |s.pairs|
    decreases |trades|
  {
    if trades == [] then s else PersistExactly(Settled(s, p, trades[0]), p, trades[1..])
  }

  lemma SettledStoreOk(s: Exchange, p: nat, t: Trade)
    requires StoreOk(s) && p < |s.pairs| && Unsettled(s.pairs, s.rows, p, t)
    ensures StoreOk(Settled(s, p, t))
  {
    hide Mul, Fair, Residues;
    var s' := Settled(s, p, t);
    FillRowKeeps(s.pairs, s.rows, p, t);
    ExtendsKeeps(s.pairs, s.rows, s'.rows, s.trades, Key(0, 0));
    assert AllFair(s.pairs, s.rows, [TradeRow(p, t)]);
    ExtendsKeeps(s.pairs, s.rows, s'.rows, [TradeRow(p, t)], Key(0, 0));
    assert Fair(s.pairs, s'.rows, [TradeRow(p, t)][0]);
  }

  /** A whole match is settled without a refusal and without a clamp, and the account is exact again. */
  lemma {:induction false} PersistAccounted(s: Exchange, p: nat, trades: seq<Trade>, extra: real, at: Key)
    requires StoreOk(s) && p < |s.pairs| && AllUnsettled(s.pairs, s.rows, p, trades) && extra >= 0.0
    requires Accounted(s, trades, extra, at)
    ensures var s' := PersistExactly(s, p, trades);
      && Persist(s, p, trades) == Ok(s')
      && StoreOk(s') && Accounted(s', [], extra, at)
      && s'.rows == FillRows(s.rows, trades)
      && s' == s.(vault := s'.vault, trades := s'.trades, rows := s'.rows)
    decreases |trades|
  {
    hide Mul, StoreOk, Accounted, AllUnsettled, SettleExactly, FillRow, Settle;
    if trades == [] {
    } else {
      var t, rest := trades[0], trades[1..];
      assert [t] + rest == trades;
      AccountCovers(s, p, t, rest, extra, at);
      SettleUnclamped(s.vault, s.pairs[p], t);
      FirstUnsettled(s, p, trades);
      SettledAccounted(s, p, t, rest, extra, at);
      SettledStoreOk(s, p, t);
      RestUnsettled(s.pairs, s.rows, p, trades) by { StoreRows(s); }
      PersistAccounted(Settled(s, p, t), p, rest, extra, at);
    }
  }

  lemma StoreRows(s: Exchange)
    requires StoreOk(s)
    ensures RowsOk(s.pairs, s.rows)
  {
  }
}
