/** Settlement without assuming solvency: what the tolerance of `_reserve_ok` lets through, one trade and any
    number of trades at a time. */
module Drift {
  import opened Orders
  import opened EngineModel
  import opened Wallets
  import opened LedgerProofs

  /** The most a clamped debit can fall short by. */
  function Slack(needed: real): real {
    needed * 0.000001 + 0.000000000001
  }

  /** What settling a trade brings into being: what users hold of an asset afterwards, with the trade's fees,
      beyond what they held before. */
  ghost function Created(v: Vault, v': Vault, pair: Pair, fees: real, asset: AssetId): real {
    Supply(v', asset) + (if pair.quote == asset then fees else 0.0) - Supply(v, asset)
  }

  ghost predicate NoneNegative(v: Vault) {
    forall k :: v.Locked(k) >= 0.0
  }

  predicate Sized(t: Trade) {
    t.quantity >= 0.0 && t.quote + BuyerFee(t) >= 0.0
  }

  lemma TransferLocked(v: Vault, pair: Pair, t: Trade, buyerDebit: real, baseDebit: real, k: Key)
    ensures Transfer(v, pair, t, buyerDebit, baseDebit).Locked(k) == v.Locked(k)
         - (if k == Key(Buyer(t), pair.quote) then buyerDebit else 0.0)
         - (if k == Key(Seller(t), pair.base) then baseDebit else 0.0)
  {
  }

  /** An accepted settlement leaves no wallet with less than nothing locked, and creates in each asset no more
      than the tolerance; nothing at all exactly when both reserves cover the trade. */
  lemma SettleDrifts(v: Vault, pair: Pair, t: Trade)
    requires pair.base != pair.quote && NoneNegative(v) && Sized(t) && Settle(v, pair, t).Ok?
    ensures var v' := Settle(v, pair, t).value; var fees := t.takerFee + t.makerFee;
      && NoneNegative(v')
      && 0.0 <= Created(v, v', pair, fees, pair.base) <= Slack(t.quantity)
      && 0.0 <= Created(v, v', pair, fees, pair.quote) <= Slack(t.quote + BuyerFee(t))
      && (Created(v, v', pair, fees, pair.base) == 0.0 <==> t.quantity <= v.Locked(Key(Seller(t), pair.base)))
      && (Created(v, v', pair, fees, pair.quote) == 0.0
          <==> t.quote + BuyerFee(t) <= v.Locked(Key(Buyer(t), pair.quote)))
  {
    hide Supply, Transfer, Vault.Locked;
    var needed := t.quote + BuyerFee(t);
    var buyerLocked, sellerLocked := v.Locked(Key(Buyer(t), pair.quote)), v.Locked(Key(Seller(t), pair.base));
    var buyerDebit, baseDebit := Min(needed, buyerLocked), Min(t.quantity, sellerLocked);
    var v' := Settle(v, pair, t).value;
    TransferSupply(v, pair, t, buyerDebit, baseDebit, pair.base);
    TransferSupply(v, pair, t, buyerDebit, baseDebit, pair.quote);
    forall k ensures v'.Locked(k) >= 0.0 {
      assert v.Locked(k) >= 0.0;
      TransferLocked(v, pair, t, buyerDebit, baseDebit, k);
    }
  }

  /** The ledger still rebuilds every wallet after an accepted settlement if and only if the seller's reserve
      covered the quantity: a clamped sale is logged at its full size. */
  lemma ClampUnlogged(v: Vault, pair: Pair, t: Trade)
    requires Settle(v, pair, t).Ok?
    ensures SameGaps(v, Settle(v, pair, t).value) <==> t.quantity <= v.Locked(Key(Seller(t), pair.base))
  {
    hide AvailableGap, LockedGap, Transfer;
    var needed := t.quote + BuyerFee(t);
    var sb, v' := Key(Seller(t), pair.base), Settle(v, pair, t).value;
    var buyerDebit, baseDebit := Min(needed, v.Locked(Key(Buyer(t), pair.quote))), Min(t.quantity, v.Locked(sb));
    forall k
      ensures AvailableGap(v', k) == AvailableGap(v, k)
      ensures LockedGap(v', k) == LockedGap(v, k) + (if k == sb then t.quantity - baseDebit else 0.0)
    {
      TransferGaps(v, pair, t, buyerDebit, baseDebit, k);
    }
    assert LockedGap(v', sb) == LockedGap(v, sb) + t.quantity - baseDebit;
  }

  // ----- any number of trades -----

  function SettleAll(v: Vault, pair: Pair, trades: seq<Trade>): Attempt<Vault>
    decreases |trades|
  {
    if trades == [] then Ok(v)
    else
      match Settle(v, pair, trades[0])
      case Fail(f) => Fail(f)
      case Ok(v1) => SettleAll(v1, pair, trades[1..])
  }

  function BaseMoved(trades: seq<Trade>): real {
    if trades == [] then 0.0 else trades[0].quantity + BaseMoved(trades[1..])
  }

  function QuoteNeeded(trades: seq<Trade>): real {
    if trades == [] then 0.0 else trades[0].quote + BuyerFee(trades[0]) + QuoteNeeded(trades[1..])
  }

  function FeesTaken(trades: seq<Trade>): real {
    if trades == [] then 0.0 else trades[0].takerFee + trades[0].makerFee + FeesTaken(trades[1..])
  }

  /** Any run of accepted settlements drifts by at most a millionth of all that moved, and a floor a trade. */
  lemma {:induction false} RunDrifts(v: Vault, pair: Pair, trades: seq<Trade>)
    requires pair.base != pair.quote && NoneNegative(v) && (forall i :: 0 <= i < |trades| ==> Sized(trades[i]))
    requires SettleAll(v, pair, trades).Ok?
    ensures var v' := SettleAll(v, pair, trades).value; var floor := |trades| as real * 0.000000000001;
      && NoneNegative(v')
      && 0.0 <= Created(v, v', pair, FeesTaken(trades), pair.base) <= 0.000001 * BaseMoved(trades) + floor
      && 0.0 <= Created(v, v', pair, FeesTaken(trades), pair.quote) <= 0.000001 * QuoteNeeded(trades) + floor
    decreases |trades|
  {
    hide Supply, Settle, NoneNegative, BuyerFee;
    if trades == [] {
    } else {
      var v1 := Settle(v, pair, trades[0]).value;
      SettleDrifts(v, pair, trades[0]);
      RunDrifts(v1, pair, trades[1..]);
      assert |trades| as real == |trades[1..]| as real + 1.0;
    }
  }
}
