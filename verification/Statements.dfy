/** Who is paid: what one settlement does to every wallet, and each kind of ledger entry against the stored trades,
    deposits and withdrawals it comes from. */
module Statements {
  import opened Orders
  import opened Sums
  import opened EngineModel
  import opened Wallets
  import opened ExchangeModel
  import opened LedgerProofs

  // ----- one settlement -----

  /** An accepted settlement pays the base to the buyer and the proceeds, less the seller's own fee, to the seller,
      takes the cost with the buyer's own fee and the base out of what the two have locked, and touches no other
      balance. */
  lemma SettlePays(v: Vault, pair: Pair, t: Trade, k: Key)
    requires pair.base != pair.quote && Settle(v, pair, t).Ok?
    ensures var v' := Settle(v, pair, t).value;
      var buyer, seller := if t.takerSide.Buy? then t.takerUser else t.makerUser,
                           if t.takerSide.Buy? then t.makerUser else t.takerUser;
      var cost := t.quote + (if t.takerSide.Buy? then t.takerFee else t.makerFee);
      var proceeds := t.quote - (if t.takerSide.Buy? then t.makerFee else t.takerFee);
      && v'.Available(k) == v.Available(k) + (if k == Key(buyer, pair.base) then t.quantity else 0.0)
                                           + (if k == Key(seller, pair.quote) then proceeds else 0.0)
      && v'.Locked(k) == v.Locked(k) - (if k == Key(buyer, pair.quote) then Min(cost, v.Locked(k)) else 0.0)
                                     - (if k == Key(seller, pair.base) then Min(t.quantity, v.Locked(k)) else 0.0)
  {
  }

  /** A settlement is refused exactly when one of the two has less locked than it takes, beyond a millionth of that and
      1e-12; the buyer is looked at first. */
  lemma SettleAnswers(v: Vault, pair: Pair, t: Trade)
    ensures var buyer, seller := if t.takerSide.Buy? then t.takerUser else t.makerUser,
                                 if t.takerSide.Buy? then t.makerUser else t.takerUser;
      var cost := t.quote + (if t.takerSide.Buy? then t.takerFee else t.makerFee);
      var buyerShort := v.Locked(Key(buyer, pair.quote))
                          < cost - (0.000001 * (if cost < 0.0 then -cost else cost) + 0.000000000001);
      var sellerShort := v.Locked(Key(seller, pair.base))
                           < t.quantity - (0.000001 * (if t.quantity < 0.0 then -t.quantity else t.quantity)
                                           + 0.000000000001);
      && (Settle(v, pair, t) == Fail(BuyerReserve) <==> buyerShort)
      && (Settle(v, pair, t) == Fail(SellerReserve) <==> !buyerShort && sellerShort)
      && (Settle(v, pair, t).Ok? <==> !buyerShort && !sellerShort)
  {
    hide Transfer;
  }

  // ----- entries by kind -----

  /** What an entry records: what it debits, or what it credits. */
  function Logged(e: Entry): real {
    match e.kind
    case OrderReserve | WithdrawalReserve | TradeBuyQuote | TradeSellBase | WithdrawalComplete => e.debit
    case OrderRelease | WithdrawalRelease | TradeBuyBase | TradeSellQuote | DepositCredit => e.credit
  }

  function EntryOf(e: Entry, kind: EntryKind, k: Key): real {
    if e.kind == kind && e.key == k then Logged(e) else 0.0
  }

  function EntriesOf(ledger: seq<Entry>, kind: EntryKind, k: Key): seq<real> {
    seq(|ledger|, i requires 0 <= i < |ledger| => EntryOf(ledger[i], kind, k))
  }

  /** All that a wallet's entries of one kind record. */
  ghost function KindTotal(ledger: seq<Entry>, kind: EntryKind, k: Key): real {
    Total(EntriesOf(ledger, kind, k))
  }

  lemma KindAppend(ledger: seq<Entry>, e: Entry, kind: EntryKind, k: Key)
    ensures KindTotal(ledger + [e], kind, k) == KindTotal(ledger, kind, k) + EntryOf(e, kind, k)
  {
    hide EntryOf;
    assert EntriesOf(ledger + [e], kind, k) == EntriesOf(ledger, kind, k) + [EntryOf(e, kind, k)];
    TotalAppend(EntriesOf(ledger, kind, k), [EntryOf(e, kind, k)]);
    TotalOne(EntryOf(e, kind, k));
  }

  lemma NoKinds(kind: EntryKind, k: Key)
    ensures KindTotal([], kind, k) == 0.0
  {
  }

  /** Both columns of a wallet, folded from its entries kind by kind. */
  lemma {:induction false} FoldKinds(ledger: seq<Entry>, k: Key)
    ensures FoldAvailable(ledger, k)
         == KindTotal(ledger, TradeBuyBase, k) + KindTotal(ledger, TradeSellQuote, k)
            + KindTotal(ledger, DepositCredit, k) - KindTotal(ledger, WithdrawalReserve, k)
            + KindTotal(ledger, WithdrawalRelease, k) - KindTotal(ledger, OrderReserve, k)
            + KindTotal(ledger, OrderRelease, k)
    ensures FoldLocked(ledger, k)
         == KindTotal(ledger, OrderReserve, k) - KindTotal(ledger, OrderRelease, k)
            + KindTotal(ledger, WithdrawalReserve, k) - KindTotal(ledger, WithdrawalRelease, k)
            - KindTotal(ledger, WithdrawalComplete, k) - KindTotal(ledger, TradeBuyQuote, k)
            - KindTotal(ledger, TradeSellBase, k)
    decreases |ledger|
  {
    hide FoldAvailable, FoldLocked, KindTotal;
    if ledger == [] {
      NoEntries(k);
      forall kind: EntryKind ensures KindTotal([], kind, k) == 0.0 { NoKinds(kind, k); }
    } else {
      var front, e := ledger[..|ledger| - 1], ledger[|ledger| - 1];
      assert ledger == front + [e];
      FoldKinds(front, k);
      FoldAppend(front, e, k);
      forall kind: EntryKind ensures KindTotal(ledger, kind, k) == KindTotal(front, kind, k) + EntryOf(e, kind, k) {
        KindAppend(front, e, kind, k);
      }
    }
  }

  // ----- versions -----

  /** How many entries a wallet has. */
  function EntryCount(ledger: seq<Entry>, k: Key): nat {
    if ledger == [] then 0 else EntryCount(ledger[..|ledger| - 1], k) + (if ledger[|ledger| - 1].key == k then 1 else 0)
  }

  /** How far a wallet's version is ahead of its entries. */
  function VersionGap(v: Vault, k: Key): int {
    v.Get(k).version - EntryCount(v.ledger, k)
  }

  lemma MoveVersions(v: Vault, at: Key, available: real, locked: real, k: Key)
    ensures VersionGap(v.Move(at, available, locked), k) == VersionGap(v, k) + (if k == at then 1 else 0)
  {
  }

  lemma LogVersions(v: Vault, kind: EntryKind, at: Key, debit: real, credit: real, k: Key)
    ensures VersionGap(v.Log(kind, at, debit, credit), k) == VersionGap(v, k) - (if k == at then 1 else 0)
  {
    var e := Entry(kind, at, debit, credit, v.Available(at) + v.Locked(at));
    assert (v.ledger + [e])[..|v.ledger|] == v.ledger;
  }

  /** A move that is logged counts once. */
  lemma LoggedVersions(v: Vault, kind: EntryKind, at: Key, available: real, locked: real, debit: real, credit: real,
                       k: Key)
    ensures VersionGap(v.Move(at, available, locked).Log(kind, at, debit, credit), k) == VersionGap(v, k)
  {
    hide Vault.Move, Vault.Log, VersionGap;
    MoveVersions(v, at, available, locked, k);
    LogVersions(v.Move(at, available, locked), kind, at, debit, credit, k);
  }

  lemma TransferVersions(v: Vault, pair: Pair, t: Trade, buyerDebit: real, baseDebit: real, k: Key)
    ensures VersionGap(Transfer(v, pair, t, buyerDebit, baseDebit), k) == VersionGap(v, k)
  {
    hide Vault.Move, Vault.Log, VersionGap;
    var bq, bb := Key(Buyer(t), pair.quote), Key(Buyer(t), pair.base);
    var sb, sq := Key(Seller(t), pair.base), Key(Seller(t), pair.quote);
    var credit := t.quote - SellerFee(t);
    var v1 := v.Move(bq, 0.0, -buyerDebit);
    var v2 := v1.Move(bb, t.quantity, 0.0);
    var v3 := v2.Move(sb, 0.0, -baseDebit);
    var v4 := v3.Move(sq, credit, 0.0);
    var v5 := v4.Log(TradeBuyQuote, bq, buyerDebit, 0.0);
    var v6 := v5.Log(TradeBuyBase, bb, 0.0, t.quantity);
    var v7 := v6.Log(TradeSellBase, sb, t.quantity, 0.0);
    MoveVersions(v, bq, 0.0, -buyerDebit, k);
    MoveVersions(v1, bb, t.quantity, 0.0, k);
    MoveVersions(v2, sb, 0.0, -baseDebit, k);
    MoveVersions(v3, sq, credit, 0.0, k);
    LogVersions(v4, TradeBuyQuote, bq, buyerDebit, 0.0, k);
    LogVersions(v5, TradeBuyBase, bb, 0.0, t.quantity, k);
    LogVersions(v6, TradeSellBase, sb, t.quantity, 0.0, k);
    LogVersions(v7, TradeSellQuote, sq, 0.0, credit, k);
  }

  // ----- what the tables say of each kind -----

  /** What a trade moves into a wallet, or out of it, under an entry of some kind. */
  function Share(pairs: seq<Pair>, tr: TradeRow, kind: EntryKind, k: Key): real {
    if tr.pair >= |pairs| then 0.0
    else
      var t, pair := tr.trade, pairs[tr.pair];
      var buyer, seller := if t.takerSide.Buy? then t.takerUser else t.makerUser,
                           if t.takerSide.Buy? then t.makerUser else t.takerUser;
      match kind
      case TradeBuyBase => if k == Key(buyer, pair.base) then t.quantity else 0.0
      case TradeSellBase => if k == Key(seller, pair.base) then t.quantity else 0.0
      case TradeSellQuote =>
        if k == Key(seller, pair.quote) then t.quote - (if t.takerSide.Buy? then t.makerFee else t.takerFee) else 0.0
      case _ => 0.0
  }

  function SharesOf(pairs: seq<Pair>, trades: seq<TradeRow>, kind: EntryKind, k: Key): seq<real> {
    seq(|trades|, i requires 0 <= i < |trades| => Share(pairs, trades[i], kind, k))
  }

  /** Over the stored trades: the base a user bought, the base he sold, or what he sold it for. */
  ghost function Shares(pairs: seq<Pair>, trades: seq<TradeRow>, kind: EntryKind, k: Key): real {
    Total(SharesOf(pairs, trades, kind, k))
  }

  lemma SharesAppend(pairs: seq<Pair>, trades: seq<TradeRow>, tr: TradeRow, kind: EntryKind, k: Key)
    ensures Shares(pairs, trades + [tr], kind, k) == Shares(pairs, trades, kind, k) + Share(pairs, tr, kind, k)
  {
    hide Share;
    var x := Share(pairs, tr, kind, k);
    assert SharesOf(pairs, trades + [tr], kind, k) == SharesOf(pairs, trades, kind, k) + [x];
    TotalAppend(SharesOf(pairs, trades, kind, k), [x]);
    TotalOne(x);
  }

  function DepositsOf(deposits: seq<Deposit>, k: Key): seq<real> {
    seq(|deposits|, i requires 0 <= i < |deposits| =>
      if deposits[i].completed && deposits[i].key == k then deposits[i].amount else 0.0)
  }

  /** The completed deposits of a wallet. */
  ghost function Deposited(deposits: seq<Deposit>, k: Key): real {
    Total(DepositsOf(deposits, k))
  }

  function WithdrawalsOf(withdrawals: seq<Withdrawal>, k: Key, paid: bool): seq<real> {
    seq(|withdrawals|, i requires 0 <= i < |withdrawals| =>
      if withdrawals[i].key == k && (paid ==> withdrawals[i].status.Withdrawn?) then withdrawals[i].amount else 0.0)
  }

  /** The withdrawals asked for out of a wallet, or only those paid out. */
  ghost function TakenOut(withdrawals: seq<Withdrawal>, k: Key, paid: bool): real {
    Total(WithdrawalsOf(withdrawals, k, paid))
  }

  /** The kinds of entry that one table accounts for. */
  predicate Tabled(kind: EntryKind) {
    kind in {TradeBuyBase, TradeSellBase, TradeSellQuote, DepositCredit, WithdrawalReserve, WithdrawalComplete}
  }

  ghost function InTable(s: Exchange, kind: EntryKind, k: Key): real {
    match kind
    case DepositCredit => Deposited(s.deposits, k)
    case WithdrawalReserve => TakenOut(s.withdrawals, k, false)
    case WithdrawalComplete => TakenOut(s.withdrawals, k, true)
    case _ => Shares(s.pairs, s.trades, kind, k)
  }

  /** What a wallet's entries of a kind record beyond what the tables account for. */
  ghost function Unstated(s: Exchange, kind: EntryKind, k: Key): real {
    KindTotal(s.vault.ledger, kind, k) - InTable(s, kind, k)
  }

  /** From one exchange to a later one, the entries of a kind account for what has been added to its table. */
  ghost predicate Restated(s: Exchange, s': Exchange, kind: EntryKind, k: Key) {
    Tabled(kind) ==> Unstated(s', kind, k) == Unstated(s, kind, k)
  }

  /** Between two vaults, nothing has been logged of the kinds the tables account for. */
  ghost predicate Silent(v: Vault, v': Vault, kind: EntryKind, k: Key) {
    Tabled(kind) ==> KindTotal(v'.ledger, kind, k) == KindTotal(v.ledger, kind, k)
  }

  // ----- what moves it -----

  /** An entry of an order's reserve or release is in no table. */
  lemma MoveLoggedSilent(v: Vault, own: EntryKind, at: Key, available: real, locked: real, debit: real, credit: real,
                         kind: EntryKind, k: Key)
    requires !Tabled(own)
    ensures Silent(v, v.Move(at, available, locked).Log(own, at, debit, credit), kind, k)
  {
    hide KindTotal, Vault.Move, Vault.Log;
    MoveSilent(v, at, available, locked);
    LogStated(v.Move(at, available, locked), own, at, debit, credit, kind, k);
  }

  /** An accepted settlement is logged under each kind as the trade it stores. */
  lemma TransferStated(v: Vault, pairs: seq<Pair>, p: nat, t: Trade, buyerDebit: real, baseDebit: real, kind: EntryKind,
                       k: Key)
    requires p < |pairs| && Tabled(kind)
    ensures KindTotal(Transfer(v, pairs[p], t, buyerDebit, baseDebit).ledger, kind, k)
         == KindTotal(v.ledger, kind, k) + Share(pairs, TradeRow(p, t), kind, k)
  {
    hide KindTotal, Vault.Move, Vault.Log;
    var pair := pairs[p];
    var bq, bb := Key(Buyer(t), pair.quote), Key(Buyer(t), pair.base);
    var sb, sq := Key(Seller(t), pair.base), Key(Seller(t), pair.quote);
    var credit := t.quote - SellerFee(t);
    var v1 := v.Move(bq, 0.0, -buyerDebit);
    var v2 := v1.Move(bb, t.quantity, 0.0);
    var v3 := v2.Move(sb, 0.0, -baseDebit);
    var v4 := v3.Move(sq, credit, 0.0);
    var v5 := v4.Log(TradeBuyQuote, bq, buyerDebit, 0.0);
    var v6 := v5.Log(TradeBuyBase, bb, 0.0, t.quantity);
    var v7 := v6.Log(TradeSellBase, sb, t.quantity, 0.0);
    MoveSilent(v, bq, 0.0, -buyerDebit);
    MoveSilent(v1, bb, t.quantity, 0.0);
    MoveSilent(v2, sb, 0.0, -baseDebit);
    MoveSilent(v3, sq, credit, 0.0);
    LogStated(v4, TradeBuyQuote, bq, buyerDebit, 0.0, kind, k);
    LogStated(v5, TradeBuyBase, bb, 0.0, t.quantity, kind, k);
    LogStated(v6, TradeSellBase, sb, t.quantity, 0.0, kind, k);
    LogStated(v7, TradeSellQuote, sq, 0.0, credit, kind, k);
  }

  lemma MoveSilent(v: Vault, k: Key, available: real, locked: real)
    ensures v.Move(k, available, locked).ledger == v.ledger
  {
  }

  lemma LogStated(v: Vault, own: EntryKind, at: Key, debit: real, credit: real, kind: EntryKind, k: Key)
    ensures KindTotal(v.Log(own, at, debit, credit).ledger, kind, k)
         == KindTotal(v.ledger, kind, k) + EntryOf(Entry(own, at, debit, credit, 0.0), kind, k)
  {
    hide KindTotal;
    KindAppend(v.ledger, Entry(own, at, debit, credit, v.Available(at) + v.Locked(at)), kind, k);
  }

  lemma DepositChanged(deposits: seq<Deposit>, i: nat, d: Deposit, k: Key)
    requires i < |deposits| && d.key == deposits[i].key && d.amount == deposits[i].amount && !deposits[i].completed
    ensures Deposited(deposits[i := d], k)
         == Deposited(deposits, k) + (if d.completed && d.key == k then d.amount else 0.0)
  {
    var x := if d.completed && d.key == k then d.amount else 0.0;
    assert DepositsOf(deposits[i := d], k) == DepositsOf(deposits, k)[i := x];
    TotalUpdate(DepositsOf(deposits, k), i, x);
  }

  lemma DepositAdded(deposits: seq<Deposit>, d: Deposit, k: Key)
    requires !d.completed
    ensures Deposited(deposits + [d], k) == Deposited(deposits, k)
  {
    assert DepositsOf(deposits + [d], k) == DepositsOf(deposits, k) + [0.0];
    TotalAppend(DepositsOf(deposits, k), [0.0]);
    TotalOne(0.0);
  }

  lemma WithdrawalChanged(ws: seq<Withdrawal>, i: nat, w: Withdrawal, k: Key, paid: bool)
    requires i < |ws| && w == ws[i].(status := w.status) && !ws[i].status.Withdrawn?
    ensures TakenOut(ws[i := w], k, paid)
         == TakenOut(ws, k, paid) + (if paid && w.status.Withdrawn? && w.key == k then w.amount else 0.0)
  {
    var x := if w.key == k && (paid ==> w.status.Withdrawn?) then w.amount else 0.0;
    assert WithdrawalsOf(ws[i := w], k, paid) == WithdrawalsOf(ws, k, paid)[i := x];
    TotalUpdate(WithdrawalsOf(ws, k, paid), i, x);
  }

  lemma WithdrawalAdded(ws: seq<Withdrawal>, w: Withdrawal, k: Key, paid: bool)
    requires w.status.Requested?
    ensures TakenOut(ws + [w], k, paid) == TakenOut(ws, k, paid) + (if !paid && w.key == k then w.amount else 0.0)
  {
    var x := if !paid && w.key == k then w.amount else 0.0;
    assert WithdrawalsOf(ws + [w], k, paid) == WithdrawalsOf(ws, k, paid) + [x];
    TotalAppend(WithdrawalsOf(ws, k, paid), [x]);
    TotalOne(x);
  }

  /** Whatever is not an order logs what its table changes by. */
  lemma FundsStated(s: Exchange, ev: Event, kind: EntryKind, k: Key)
    requires !ev.PlaceLimit? && !ev.PlaceMarket? && !ev.CancelOrder? && Tabled(kind)
    ensures Unstated(Step(s, ev).0, kind, k) == Unstated(s, kind, k)
  {
    hide Unstated, Step;
    if ev.MakeDeposit? || ev.ConfirmDeposit? {
      DepositStated(s, ev, kind, k);
    } else if ev.RequestWithdrawal? {
      RequestStated(s, ev, kind, k);
    } else {
      WithdrawalStated(s, ev, kind, k);
    }
  }

  lemma DepositStated(s: Exchange, ev: Event, kind: EntryKind, k: Key)
    requires (ev.MakeDeposit? || ev.ConfirmDeposit?) && Tabled(kind)
    ensures Unstated(Step(s, ev).0, kind, k) == Unstated(s, kind, k)
  {
    hide KindTotal, Shares, Deposited, TakenOut, Vault.Log, Vault.Move;
    var s' := Step(s, ev).0;
    if s' != s {
      match ev
      case MakeDeposit(_, _, _, _) => DepositAdded(s.deposits, s'.deposits[|s.deposits|], k);
      case ConfirmDeposit(_, id, _) =>
        var d := s.deposits[id];
        DepositChanged(s.deposits, id, s'.deposits[id], k);
        MoveSilent(s.vault, d.key, d.amount, 0.0);
        LogStated(s.vault.Move(d.key, d.amount, 0.0), DepositCredit, d.key, 0.0, d.amount, kind, k);
    }
  }

  lemma RequestStated(s: Exchange, ev: Event, kind: EntryKind, k: Key)
    requires ev.RequestWithdrawal? && Tabled(kind)
    ensures Unstated(Step(s, ev).0, kind, k) == Unstated(s, kind, k)
  {
    hide KindTotal, Shares, Deposited, TakenOut, Vault.Log, Vault.Move, Vault.Available, Vault.Locked;
    var s', at := Step(s, ev).0, Key(ev.user, ev.asset);
    if s' != s {
      WithdrawalAdded(s.withdrawals, s'.withdrawals[|s.withdrawals|], k, false);
      WithdrawalAdded(s.withdrawals, s'.withdrawals[|s.withdrawals|], k, true);
      MoveSilent(s.vault, at, -ev.amount, ev.amount);
      LogStated(s.vault.Move(at, -ev.amount, ev.amount), WithdrawalReserve, at, ev.amount, 0.0, kind, k);
    }
  }

  lemma WithdrawalStated(s: Exchange, ev: Event, kind: EntryKind, k: Key)
    requires (ev.ApproveWithdrawal? || ev.BroadcastWithdrawal? || ev.CancelWithdrawal? || ev.CompleteWithdrawal?)
    requires Tabled(kind)
    ensures Unstated(Step(s, ev).0, kind, k) == Unstated(s, kind, k)
  {
    hide KindTotal, Shares, Deposited, TakenOut, Vault.Log, Vault.Move, Vault.Available, Vault.Locked;
    var s' := Step(s, ev).0;
    if s' != s {
      var w := s.withdrawals[ev.id];
      WithdrawalChanged(s.withdrawals, ev.id, s'.withdrawals[ev.id], k, false);
      WithdrawalChanged(s.withdrawals, ev.id, s'.withdrawals[ev.id], k, true);
      if ev.CancelWithdrawal? {
        var released := Min(s.vault.Locked(w.key), w.amount);
        MoveSilent(s.vault, w.key, released, -released);
        LogStated(s.vault.Move(w.key, released, -released), WithdrawalRelease, w.key, 0.0, released, kind, k);
      } else if ev.CompleteWithdrawal? {
        MoveSilent(s.vault, w.key, 0.0, -w.amount);
        LogStated(s.vault.Move(w.key, 0.0, -w.amount), WithdrawalComplete, w.key, w.amount, 0.0, kind, k);
      }
    }
  }
}
