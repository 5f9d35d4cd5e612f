/** What each call is answered with and what it does to the wallets, in terms of what the caller has and asks for
    (backend/app/api/v1/trading.py, backend/app/api/v1/wallets.py). */
module Calls {
  import opened Orders
  import opened Sums
  import opened Matching
  import opened EngineModel
  import opened Wallets
  import opened PairRules
  import opened ExchangeModel
  import opened Filing
  import opened Amounts
  import opened StoredOrders

  /** A call that is not done changes nothing. */
  lemma UndoneSame(s: Exchange, ev: Event)
    ensures !Step(s, ev).1.Done? ==> Step(s, ev).0 == s
  {
    hide Step;
    PlaceRefused(s, ev);
    ViolatedSame(s, ev);
  }

  // ----- orders -----

  /** A limit order is refused exactly when its pair is unknown, an amount is not positive, its size or price is not
      within the pair's rules, or the user has less available than the order can cost with the taker fee on top, or
      sell. */
  lemma LimitRefused(s: Exchange, ev: Event)
    requires ev.PlaceLimit?
    ensures Step(s, ev).1.Refused? <==>
      !(&& ev.pair < |s.pairs| && ev.pair < |s.books|
        && ev.price > 0.0 && ev.quantity > 0.0 && ev.peak >= 0.0
        && var pair := s.pairs[ev.pair];
        && pair.minQty <= ev.quantity <= pair.maxQty
        && (pair.stepSize > 0.0 ==> exists k: int :: Near(ev.quantity, k, pair.stepSize))
        && (pair.tickSize > 0.0 ==> exists k: int :: Near(ev.price, k, pair.tickSize))
        && ev.price * ev.quantity >= pair.minNotional
        && var need := if ev.side.Buy? then ev.price * ev.quantity * (1.0 + pair.takerFee) else ev.quantity;
        && 0.0 < need <= s.vault.Available(Key(ev.user, if ev.side.Buy? then pair.quote else pair.base)))
  {
    hide MatchLimitOrder, Copies, Finish, Near, QuantityRules, PriceRules, Vault.Available, Vault.Move, Vault.Log, Mul;
    if LimitAmounts(s, ev) {
      RulesMean(s.pairs[ev.pair], ev.quantity, ev.price);
      CostIs(ev.price, ev.quantity, s.pairs[ev.pair].takerFee);
    }
  }

  predicate LimitAmounts(s: Exchange, ev: Event)
    requires ev.PlaceLimit?
  {
    ev.pair < |s.pairs| && ev.pair < |s.books| && ev.price > 0.0 && ev.quantity > 0.0 && ev.peak >= 0.0
  }

  /** A market order is refused exactly when its pair is unknown, an amount is negative, a buy has no budget or a sell
      no size, a size given is not within the pair's rules, the other side of the book is empty, or the user has less
      available than the budget with the taker fee on top, or the size. */
  lemma MarketRefused(s: Exchange, ev: Event)
    requires ev.PlaceMarket?
    ensures Step(s, ev).1.Refused? <==>
      !(&& ev.pair < |s.pairs| && ev.pair < |s.books| && ev.quantity >= 0.0 && ev.quote >= 0.0
        && (if ev.side.Buy? then ev.quote > 0.0 else ev.quantity > 0.0)
        && var pair := s.pairs[ev.pair];
        && (ev.quantity > 0.0 ==>
              && pair.minQty <= ev.quantity <= pair.maxQty
              && (pair.stepSize > 0.0 ==> exists k: int :: Near(ev.quantity, k, pair.stepSize)))
        && var makers := if ev.side.Buy? then s.books[ev.pair].asks else s.books[ev.pair].bids;
        && makers != [] && makers[0].price != 0.0
        && var need := if ev.side.Buy? then ev.quote * (1.0 + pair.takerFee) else ev.quantity;
        && 0.0 < need <= s.vault.Available(Key(ev.user, if ev.side.Buy? then pair.quote else pair.base)))
  {
    hide MatchMarketOrder, Near, QuantityRules, PriceRules, Vault.Available, Vault.Move, Vault.Log;
    if ev.pair < |s.pairs| && ev.pair < |s.books| { RulesMean(s.pairs[ev.pair], ev.quantity, 0.0); }
    if MarketAccepted(s, ev) && MarketReserved(s, ev).Ok? {
      NotRefused(s.(vault := MarketReserved(s, ev).value), ev.pair, MarketOrder(s, ev),
                 BestPrice(s.books[ev.pair], ev.side.Opposite()));
    }
  }

  /** A cancel is refused exactly when the order is not one of the user's that is still open, pending or partly filled.
      Otherwise it is stored as cancelled, leaves its book, and gives back, of what its rest would cost or sells, no
      more than is locked; nothing else changes. */
  lemma CancelDoes(s: Exchange, ev: Event, k: Key)
    requires ev.CancelOrder?
    ensures var (s', reply) := Step(s, ev);
      && reply.Done? == (&& ev.id < |s.rows| && s.rows[ev.id].user == ev.user
                         && s.rows[ev.id].pair < |s.pairs| && s.rows[ev.id].pair < |s.books|
                         && s.rows[ev.id].status in {Open, Pending, PartiallyFilled})
      && reply.Refused? == !reply.Done?
      && (reply.Done? ==>
            var row := s.rows[ev.id]; var pair, rest := s.pairs[row.pair], row.quantity - row.filled;
            var back := if row.side.Buy? then row.price * rest * (1.0 + pair.takerFee) else rest;
            var given := if back <= 0.0 then 0.0
                         else if back <= s.vault.Locked(k) then back else s.vault.Locked(k);
            var own := k == Key(ev.user, if row.side.Buy? then pair.quote else pair.base);
            && s' == s.(vault := s'.vault, rows := s.rows[ev.id := row.(status := Cancelled)],
                        books := s.books[row.pair := Cancel(s.books[row.pair], ev.id)])
            && s'.vault.Available(k) == s.vault.Available(k) + (if own then given else 0.0)
            && s'.vault.Locked(k) == s.vault.Locked(k) - (if own then given else 0.0))
  {
    hide Cancel, Mul;
    if Cancellable(s, ev.user, ev.id) {
      var row := s.rows[ev.id];
      CostIs(row.price, row.quantity - row.filled, s.pairs[row.pair].takerFee);
    }
  }

  // ----- deposits -----

  /** A deposit is refused exactly when its asset is unknown or it is below the minimum; otherwise it is stored under
      the caller and its asset, to be confirmed as often as the asset says, and no wallet changes. */
  lemma DepositDoes(s: Exchange, ev: Event)
    requires ev.MakeDeposit?
    ensures var (s', reply) := Step(s, ev); var n := |s.deposits|;
      && reply.Done? == (ev.asset < |s.assets| && ev.amount > 0.0 && ev.amount >= s.assets[ev.asset].minDeposit)
      && reply.Refused? == !reply.Done?
      && s'.vault == s.vault
      && (reply.Done? ==>
            && |s'.deposits| == n + 1 && s'.deposits[..n] == s.deposits
            && s' == s.(deposits := s'.deposits)
            && var d := s'.deposits[n];
            && d.key.user == ev.user && d.key.asset == ev.asset && d.amount == ev.amount
            && d.confirmations == ev.confirmations && d.required == s.assets[ev.asset].confirmations && !d.completed)
  {
  }

  /** A confirmation is refused exactly when the deposit is not the caller's.  One that brings an open deposit to what
      its asset asks for completes it and pays its amount into the wallet it was made to; any other pays nothing into
      any wallet. */
  lemma ConfirmDoes(s: Exchange, ev: Event, k: Key)
    requires ev.ConfirmDeposit?
    ensures var (s', reply) := Step(s, ev);
      && reply.Done? == (ev.id < |s.deposits| && s.deposits[ev.id].key.user == ev.user)
      && reply.Refused? == !reply.Done?
      && s' == s.(vault := s'.vault, deposits := s'.deposits)
      && s'.vault.Locked(k) == s.vault.Locked(k)
      && if !reply.Done? then s' == s
         else
           var d := s.deposits[ev.id]; var total := d.confirmations + ev.confirmations;
           var completes := !d.completed && total >= d.required;
           && s'.deposits == s.deposits[ev.id :=
                if d.completed then d else d.(confirmations := total, completed := completes)]
           && s'.vault.Available(k)
                == s.vault.Available(k) + (if completes && k == d.key then d.amount else 0.0)
  {
  }

  // ----- withdrawals -----

  /** A withdrawal is refused exactly when its asset is unknown, it is outside the asset's limits, the user has less
      available, or the fee leaves nothing of it; otherwise it is stored under the caller and its asset, to be approved
      by an administrator from 1000 on, and its amount moves from available to locked in that wallet alone. */
  lemma WithdrawalDoes(s: Exchange, ev: Event, k: Key)
    requires ev.RequestWithdrawal?
    ensures var (s', reply) := Step(s, ev); var n := |s.withdrawals|;
      && reply.Done? ==
           (&& ev.asset < |s.assets| && ev.amount > 0.0 && var asset := s.assets[ev.asset];
            && asset.minWithdrawal <= ev.amount && (asset.maxWithdrawal > 0.0 ==> ev.amount <= asset.maxWithdrawal)
            && ev.amount <= s.vault.Available(Key(ev.user, ev.asset)) && ev.amount > asset.withdrawalFee)
      && reply.Refused? == !reply.Done?
      && if !reply.Done? then s' == s
         else
           var moved := if k == Key(ev.user, ev.asset) then ev.amount else 0.0;
           && s' == s.(vault := s'.vault, withdrawals := s'.withdrawals)
           && |s'.withdrawals| == n + 1 && s'.withdrawals[..n] == s.withdrawals
           && var w := s'.withdrawals[n];
           && w.key.user == ev.user && w.key.asset == ev.asset && w.amount == ev.amount
           && w.fee == s.assets[ev.asset].withdrawalFee && w.status.Requested? && w.needsAdmin == (ev.amount >= 1000.0)
           && s'.vault.Available(k) == s.vault.Available(k) - moved && s'.vault.Locked(k) == s.vault.Locked(k) + moved
  {
  }

  /** An approval is refused exactly when there is no such withdrawal waiting; sending one out, when it is not the
      caller's, is not waiting or approved, or needs an approval it has not got.  Neither moves any funds. */
  lemma ApprovalDoes(s: Exchange, ev: Event)
    requires ev.ApproveWithdrawal? || ev.BroadcastWithdrawal?
    ensures var (s', reply) := Step(s, ev);
      && reply.Done? ==
           (&& ev.id < |s.withdrawals| && var w := s.withdrawals[ev.id];
            if ev.ApproveWithdrawal? then w.status.Requested?
            else w.key.user == ev.user && (w.status.Approved? || (w.status.Requested? && !w.needsAdmin)))
      && reply.Refused? == !reply.Done?
      && if !reply.Done? then s' == s
         else
           var status := if ev.ApproveWithdrawal? then Approved else Broadcast;
           s' == s.(withdrawals := s.withdrawals[ev.id := s.withdrawals[ev.id].(status := status)])
  {
  }

  /** Calling a withdrawal off is refused exactly when it is not the caller's or not waiting or approved; otherwise what
      of its amount is locked goes back to available in its own wallet, and no other balance changes. */
  lemma CallOffDoes(s: Exchange, ev: Event, k: Key)
    requires ev.CancelWithdrawal?
    ensures var (s', reply) := Step(s, ev);
      && reply.Done? ==
           (&& ev.id < |s.withdrawals| && s.withdrawals[ev.id].key.user == ev.user
            && s.withdrawals[ev.id].status in {Requested, Approved})
      && reply.Refused? == !reply.Done?
      && if !reply.Done? then s' == s
         else
           var w := s.withdrawals[ev.id];
           var back := if k != w.key then 0.0
                       else if w.amount <= s.vault.Locked(k) then w.amount else s.vault.Locked(k);
           && s' == s.(vault := s'.vault, withdrawals := s.withdrawals[ev.id := w.(status := CalledOff)])
           && s'.vault.Available(k) == s.vault.Available(k) + back && s'.vault.Locked(k) == s.vault.Locked(k) - back
  {
  }

  /** Completing a withdrawal is refused exactly when it is not the caller's or not sent out, and answered with a
      violated invariant exactly when less than its amount is locked; otherwise the amount leaves its own wallet, and no
      other balance changes. */
  lemma CompleteDoes(s: Exchange, ev: Event, k: Key)
    requires ev.CompleteWithdrawal?
    ensures var (s', reply) := Step(s, ev);
      var owned := ev.id < |s.withdrawals| && s.withdrawals[ev.id].key.user == ev.user
                   && s.withdrawals[ev.id].status.Broadcast?;
      && reply.Refused? == !owned
      && reply.InvariantViolated?
           == (owned && s.vault.Locked(s.withdrawals[ev.id].key) < s.withdrawals[ev.id].amount)
      && if !reply.Done? then s' == s
         else
           var w := s.withdrawals[ev.id];
           && s' == s.(vault := s'.vault, withdrawals := s.withdrawals[ev.id := w.(status := Withdrawn)])
           && s'.vault.Available(k) == s.vault.Available(k)
           && s'.vault.Locked(k) == s.vault.Locked(k) - (if k == w.key then w.amount else 0.0)
  {
  }

  // ----- over runs -----

  /** A stored deposit is of a known asset, at least its minimum, to be confirmed as often as the asset says, and has
      been if it is completed. */
  predicate DepositFits(assets: seq<Asset>, d: Deposit) {
    && d.key.asset < |assets| && d.amount > 0.0 && d.amount >= assets[d.key.asset].minDeposit
    && d.required == assets[d.key.asset].confirmations && (d.completed ==> d.confirmations >= d.required)
  }

  /** A stored withdrawal is of a known asset, within its limits, carries its fee and is worth more than that, and needs
      an administrator from 1000 on. */
  predicate WithdrawalFits(assets: seq<Asset>, w: Withdrawal) {
    && w.key.asset < |assets| && w.amount > 0.0 && var asset := assets[w.key.asset];
    && w.amount >= asset.minWithdrawal && (asset.maxWithdrawal > 0.0 ==> w.amount <= asset.maxWithdrawal)
    && w.fee == asset.withdrawalFee && w.amount > w.fee && w.needsAdmin == (w.amount >= 1000.0)
  }

  ghost predicate FundsFit(s: Exchange) {
    && (forall i :: 0 <= i < |s.deposits| ==> DepositFits(s.assets, s.deposits[i]))
    && (forall i :: 0 <= i < |s.withdrawals| ==> WithdrawalFits(s.assets, s.withdrawals[i]))
  }

  lemma StepFundsFit(s: Exchange, ev: Event)
    requires FundsFit(s)
    ensures FundsFit(Step(s, ev).0) && Step(s, ev).0.assets == s.assets
  {
    hide PlaceLimitOrder, PlaceMarketOrder, CancelStored, Vault.Move, Vault.Log, Vault.Available, Vault.Locked;
    if ev.PlaceLimit? || ev.PlaceMarket? || ev.CancelOrder? {
      OrdersLeaveFunds(s, ev);
      OrdersLeaveAssets(s, ev);
    }
  }

  lemma OrdersLeaveAssets(s: Exchange, ev: Event)
    requires ev.PlaceLimit? || ev.PlaceMarket? || ev.CancelOrder?
    ensures Step(s, ev).0.assets == s.assets
  {
    hide Enter, Copies, Process, Persist, TradesOf, Reserve, QuantityRules, PriceRules, BestPrice, Release,
         ReleaseQuote, Cancel, FillTotal, FillWorth;
  }

  lemma {:induction false} RunFundsFit(s: Exchange, evs: seq<Event>)
    requires FundsFit(s)
    ensures FundsFit(Run(s, evs)) && Run(s, evs).assets == s.assets
    decreases |evs|
  {
    hide FundsFit, Step;
    if evs == [] {
    } else {
      StepFundsFit(s, evs[0]);
      RunFundsFit(Step(s, evs[0]).0, evs[1..]);
    }
  }

  /** In every run, admissible or not, every stored deposit is at least its asset's minimum and is completed only once
      confirmed as often as the asset says; every stored withdrawal is within its asset's limits, worth more than its
      fee, and marked for an administrator exactly from 1000 on. */
  lemma StoredFundsFit(s: Exchange, evs: seq<Event>, i: nat)
    requires Fresh(s)
    ensures var r := Run(s, evs);
      && (i < |r.deposits| ==>
            var d := r.deposits[i];
            && d.key.asset < |s.assets| && var asset := s.assets[d.key.asset];
            && d.amount > 0.0 && d.amount >= asset.minDeposit && d.required == asset.confirmations
            && (d.completed ==> d.confirmations >= asset.confirmations))
      && (i < |r.withdrawals| ==>
            var w := r.withdrawals[i];
            && w.key.asset < |s.assets| && var asset := s.assets[w.key.asset];
            && w.amount >= asset.minWithdrawal && (asset.maxWithdrawal > 0.0 ==> w.amount <= asset.maxWithdrawal)
            && w.fee == asset.withdrawalFee && w.amount > w.fee && w.needsAdmin == (w.amount >= 1000.0))
  {
    hide Run, PairsOk;
    RunFundsFit(s, evs);
  }
}
