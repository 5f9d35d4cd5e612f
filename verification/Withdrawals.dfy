/** The life of withdrawals and deposits over a run (backend/app/api/v1/wallets.py:114-484): which way each can
    go, that no large withdrawal leaves without an administrator's approval, and that a deposit is credited at
    most once. */
module Withdrawals {
  import opened Wallets
  import opened ExchangeModel
  import opened Filing

  /** The only ways a withdrawal's status moves. */
  predicate Moves(a: WithdrawalStatus, b: WithdrawalStatus, needsAdmin: bool) {
    || a == b
    || (a.Requested? && (b.Approved? || b.CalledOff? || (b.Broadcast? && !needsAdmin)))
    || (a.Approved? && (b.Broadcast? || b.CalledOff?))
    || (a.Broadcast? && b.Withdrawn?)
  }

  /** The call that makes a withdrawal move, and whose it has to be. */
  predicate MovedBy(ev: Event, i: nat, a: Withdrawal, b: Withdrawal) {
    match b.status
    case Approved => ev == ApproveWithdrawal(i)
    case Broadcast => ev == BroadcastWithdrawal(a.key.user, i)
    case CalledOff => ev == CancelWithdrawal(a.key.user, i)
    case Withdrawn => ev == CompleteWithdrawal(a.key.user, i)
    case Requested => false
  }

  /** A call changes at most the status of a withdrawal, along its life, and only the call meant to. */
  lemma WithdrawalLife(s: Exchange, ev: Event, i: nat)
    requires i < |s.withdrawals|
    ensures var s' := Step(s, ev).0;
      && i < |s'.withdrawals|
      && var a, b := s.withdrawals[i], s'.withdrawals[i];
      && b == a.(status := b.status)
      && Moves(a.status, b.status, a.needsAdmin)
      && (a != b ==> MovedBy(ev, i, a, b))
  {
    hide PlaceLimitOrder, PlaceMarketOrder, CancelStored, Vault.Move, Vault.Log;
    if ev.PlaceLimit? || ev.PlaceMarket? || ev.CancelOrder? { OrdersLeaveFunds(s, ev); }
  }

  /** Requested, called off, or too small to need anyone: nothing an administrator had to see has left. */
  predicate Unapproved(s: Exchange, i: nat) {
    i < |s.withdrawals| ==>
      s.withdrawals[i].status.Requested? || s.withdrawals[i].status.CalledOff? || !s.withdrawals[i].needsAdmin
  }

  lemma StepUnapproved(s: Exchange, ev: Event, i: nat)
    requires Unapproved(s, i) && ev != ApproveWithdrawal(i)
    ensures Unapproved(Step(s, ev).0, i)
  {
    hide PlaceLimitOrder, PlaceMarketOrder, CancelStored, Vault.Move, Vault.Log;
    if i < |s.withdrawals| { WithdrawalLife(s, ev, i); }
    if ev.PlaceLimit? || ev.PlaceMarket? || ev.CancelOrder? { OrdersLeaveFunds(s, ev); }
  }

  lemma {:induction false} NoneUnapproved(s: Exchange, evs: seq<Event>, i: nat)
    requires Unapproved(s, i) && ApproveWithdrawal(i) !in evs
    ensures Unapproved(Run(s, evs), i)
    decreases |evs|
  {
    hide Step, Unapproved;
    if evs == [] {
    } else {
      assert evs[0] in evs;
      StepUnapproved(s, evs[0], i);
      NoneUnapproved(Step(s, evs[0]).0, evs[1..], i);
    }
  }

  predicate Marked(s: Exchange) {
    forall i :: 0 <= i < |s.withdrawals| ==> s.withdrawals[i].needsAdmin == (s.withdrawals[i].amount >= 1000.0)
  }

  lemma StepMarked(s: Exchange, ev: Event)
    requires Marked(s)
    ensures Marked(Step(s, ev).0)
  {
    hide PlaceLimitOrder, PlaceMarketOrder, CancelStored, Vault.Move, Vault.Log;
    if ev.PlaceLimit? || ev.PlaceMarket? || ev.CancelOrder? { OrdersLeaveFunds(s, ev); }
  }

  lemma {:induction false} RunMarked(s: Exchange, evs: seq<Event>)
    requires Marked(s)
    ensures Marked(Run(s, evs))
    decreases |evs|
  {
    hide Step, Marked;
    if evs == [] {
    } else {
      StepMarked(s, evs[0]);
      RunMarked(Step(s, evs[0]).0, evs[1..]);
    }
  }

  /** In every run, whatever else happens, a withdrawal of a thousand or more is broadcast or paid out only if an
      administrator approved it on the way. */
  lemma LargeNeedApproval(s: Exchange, evs: seq<Event>, i: nat)
    requires s.withdrawals == [] && i < |Run(s, evs).withdrawals|
    requires Run(s, evs).withdrawals[i].amount >= 1000.0
    requires Run(s, evs).withdrawals[i].status.Broadcast? || Run(s, evs).withdrawals[i].status.Withdrawn?
    ensures ApproveWithdrawal(i) in evs
  {
    hide Run;
    RunMarked(s, evs);
    if ApproveWithdrawal(i) !in evs { NoneUnapproved(s, evs, i); }
  }

  /** A completed deposit stays completed, for the same amount; until then its confirmations only add up, and it
      completes exactly when they suffice. */
  lemma DepositLife(s: Exchange, ev: Event, i: nat)
    requires i < |s.deposits|
    ensures var s' := Step(s, ev).0;
      && i < |s'.deposits|
      && var a, b := s.deposits[i], s'.deposits[i];
      && b.key == a.key && b.amount == a.amount && b.required == a.required
      && (a.completed ==> b == a)
      && (a != b ==> ev.ConfirmDeposit? && ev.id == i && ev.user == a.key.user
                     && b.confirmations == a.confirmations + ev.confirmations
                     && b.completed == (b.confirmations >= b.required))
  {
    hide PlaceLimitOrder, PlaceMarketOrder, CancelStored, Vault.Move, Vault.Log;
    if ev.PlaceLimit? || ev.PlaceMarket? || ev.CancelOrder? { OrdersLeaveFunds(s, ev); }
  }
}
