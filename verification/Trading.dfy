/** One pair's trading desk: its engine, the stored orders and trades, and the wallets, as the endpoints update
    them (backend/app/api/v1/trading.py, backend/app/api/v1/wallets.py).  Each endpoint does to all of it
    together what `ExchangeModel` says, and keeps the account of `ExchangeProofs` exact. */
module Trading {
  import opened Orders
  import opened Sums
  import opened Matching
  import opened EngineModel
  import opened Engine
  import opened Wallets
  import opened WalletService
  import opened PairRules
  import opened CopySizing
  import opened ExchangeModel
  import opened Agreement
  import opened Filing
  import opened ExchangeProofs

  /** A refused call leaves everything as it was, but for empty wallets it may have made. */
  ghost predicate Undone(s: Exchange, s': Exchange) {
    s'.(vault := s.vault) == s && SameBalances(s.vault, s'.vault)
  }

  /** What an endpoint answers and leaves is what the model's step says; a refusal leaves everything as it was.
      After a violated invariant nothing is promised. */
  ghost predicate Follows(s: Exchange, ev: Event, reply: Reply, s': Exchange) {
    var (after, answer) := Step(s, ev);
    reply == answer && (reply.Done? ==> s' == after) && (reply.Refused? ==> Undone(s, s'))
  }

  /** Endpoints that follow the model keep the account exact and never meet a violated invariant. */
  lemma FollowsInv(s: Exchange, ev: Event, reply: Reply, s': Exchange)
    requires Inv(s) && Admissible(s, ev) && Follows(s, ev, reply, s')
    ensures reply != InvariantViolated && Inv(s')
  {
    hide Inv, Step, Admissible, SameBalances;
    StepInv(s, ev);
    if reply.Refused? { SameBalancesInv(s, s'); }
  }

  class TradingDesk {
    const pair: Pair
    const engine: MatchingEngine
    const db: Database
    const relations: seq<Relation>
    var assets: seq<Asset>
    var rows: seq<Row>
    var trades: seq<TradeRow>
    var deposits: seq<Deposit>
    var withdrawals: seq<Withdrawal>

    constructor (pair: Pair, assets: seq<Asset>, relations: seq<Relation>)
      requires pair.Valid()
      ensures Valid() && Fresh(View()) && Inv(View())
      ensures this.pair == pair && View().pairs == [pair] && View().assets == assets && View().relations == relations
    {
      hide MatchingEngine.Valid, MatchingEngine.View, Inv;
      this.pair, this.assets, this.relations := pair, assets, relations;
      engine := new MatchingEngine(pair.makerFee, pair.takerFee);
      db := new Database();
      rows, trades, deposits, withdrawals := [], [], [], [];
      new;
      engine.NotPart(this);
      engine.NotPart(engine);
      engine.NotPart(db);
      FreshInv(View());
    }

    ghost predicate Valid()
      reads this, engine, engine.book, engine.book.bids, engine.book.asks, engine.book.bids.levels.Values,
            engine.book.asks.levels.Values, engine.book.bids.resting, engine.book.asks.resting, db
    {
      && engine.Valid() && db.Valid() && engine.FeesNow() == pair.Fees()
      && this !in engine.book.Repr && engine !in engine.book.Repr && db !in engine.book.Repr
      && (forall w :: w in db.wallets.Values ==> w !in engine.book.Repr)
    }

    ghost function View(): Exchange
      requires Valid()
      reads this, engine, engine.book, engine.book.bids, engine.book.asks, engine.book.bids.levels.Values,
            engine.book.asks.levels.Values, engine.book.bids.resting, engine.book.asks.resting, engine.book.waiting,
            db, db.wallets.Values
    {
      Exchange([pair], assets, [engine.View()], rows, trades, db.View(), deposits, withdrawals, relations)
    }

    lemma Seen()
      requires Valid()
      ensures var s := View();
        && s.pairs == [pair] && |s.books| == 1 && s.rows == rows && s.assets == assets
        && s.deposits == deposits && s.withdrawals == withdrawals && s.relations == relations
    {
    }

    /** Whatever the desk has come to own is new. */
    twostate predicate Grown()
      reads this, engine, engine.book, engine.book.bids, engine.book.asks, db
    {
      && fresh(engine.book.Repr - old(engine.book.Repr))
      && fresh(engine.book.Resting() - old(engine.book.Resting()))
      && fresh(db.wallets.Values - old(db.wallets.Values))
    }

    /** Settle, store and book each trade of a match in turn. */
    method PersistResult(executed: seq<Trade>, ghost s: Exchange) returns (r: Attempt<bool>)
      requires db.Valid() && s.pairs == [pair]
      requires s.vault == db.View() && s.rows == rows && s.trades == trades
      modifies this`rows, this`trades, db, db.wallets.Values
      ensures db.Valid() && fresh(db.wallets.Values - old(db.wallets.Values))
      ensures match Persist(s, 0, executed)
        case Ok(s') => r == Ok(true) && s' == s.(vault := db.View(), rows := rows, trades := trades)
        case Fail(f) => r == Fail(f)
    {
      hide Settle, FillRow, Database.Valid, Database.View;
      var todo := executed;
      while todo != []
        invariant db.Valid() && fresh(db.wallets.Values - old(db.wallets.Values))
        invariant Persist(s, 0, executed) == Persist(s.(vault := db.View(), rows := rows, trades := trades), 0, todo)
      {
        var t := todo[0];
        var settled := db.SettleTrade(pair, t);
        if settled.Fail? {
          return Fail(settled.failure);
        }
        trades := trades + [TradeRow(0, t)];
        rows := FillRow(rows, t);
        todo := todo[1..];
      }
      r := Ok(true);
    }

    lemma FreshId(order: EngineOrder)
      requires Valid() && BooksFit(View()) && order.id == |rows|
      ensures order.id !in engine.book.ordersById && BookSound(engine.View())
    {
      hide MatchingEngine.Valid, MatchingEngine.View;
      var s := View();
      assert BookOk(s.rows, 0, s.books[0]);
      IdNotResting(s, 0);
      engine.IndexView();
    }

    /** Hand a new order to the engine. */
    method Submit(o: Order) returns (order: EngineOrder, result: MatchResult)
      requires Valid() && BooksFit(View()) && Incoming(o) && o.id == |rows|
      modifies engine`pending, engine.book, engine.book.Repr, engine.book.Resting()
      ensures Valid() && fresh(order) && fresh(engine.book.Repr - old(engine.book.Repr))
      ensures db.wallets == old(db.wallets)
      ensures fresh(engine.book.Resting() - old(engine.book.Resting()))
      ensures var (e, r) := Process(old(View()).books[0], o, false);
        && View() == old(View()).(books := old(View()).books[0 := e]) && order.Value() == r.taker
        && result.trades == TradesOf(r.fills, o, pair.Fees()) && result.remaining == r.remaining
      ensures o.kind.Market? ==> order !in engine.book.Resting() && order !in engine.book.waiting
    {
      hide MatchingEngine.Valid, MatchingEngine.View, Database.Valid, Database.View, Process, TradesOf, BookSound,
           UsedIds,
           BooksFit, Incoming;
      order := new EngineOrder(o);
      FreshId(order);
      engine.Apart(order);
      ghost var fills;
      result, fills := engine.ProcessOrder(order, false);
    }

    method Resize(order: EngineOrder, size: real)
      requires Valid() && order !in engine.book.Resting() && order !in engine.book.waiting
      modifies order`quantity, order`filled
      ensures Valid() && View() == old(View())
      ensures order.Value() == old(order.Value()).(filled := size, quantity := size)
    {
      hide MatchingEngine.Valid, MatchingEngine.View, Database.Valid, Database.View;
      engine.Resize(order, size);
    }

    /** Store a matched order and everything its match did. */
    method Record(row: Row, executed: seq<Trade>) returns (r: Attempt<bool>)
      requires Valid()
      modifies this`rows, this`trades, db, db.wallets.Values
      ensures Valid() && engine.book.Repr == old(engine.book.Repr)
      ensures fresh(db.wallets.Values - old(db.wallets.Values))
      ensures match Persist(old(View()).(rows := old(View()).rows + [row]), 0, executed)
        case Ok(s') => r.Ok? && View() == s'
        case Fail(f) => r.Fail?
    {
      hide MatchingEngine.Valid, MatchingEngine.View, Database.Valid, Database.View, Persist;
      rows := rows + [row];
      ghost var s := View();
      r := PersistResult(executed, s);
    }

    method GiveBack(user: UserId, side: Side, quantity: real, price: real, byQuote: bool, quote: real)
      requires Valid() && (byQuote ==> side.Buy?)
      modifies db, db.wallets.Values
      ensures Valid() && engine.book.Repr == old(engine.book.Repr)
      ensures fresh(db.wallets.Values - old(db.wallets.Values))
      ensures View() == old(View()).(vault :=
        if byQuote then ReleaseQuote(old(View()).vault, pair, user, quote, pair.takerFee)
        else Release(old(View()).vault, pair, user, side, quantity, price, pair.takerFee))
    {
      hide MatchingEngine.Valid, MatchingEngine.View, Database.Valid, Database.View, Release, ReleaseQuote;
      var _ := db.ReleaseOrderFunds(pair, user, side, quantity, price, byQuote, quote, pair.takerFee);
    }

    /** Lock what an order needs, or say why not. */
    method TakeReserve(user: UserId, side: Side, quantity: real, price: real, quote: real) returns (ok: bool)
      requires Valid()
      modifies db, db.wallets.Values
      ensures Valid() && engine.book.Repr == old(engine.book.Repr)
      ensures fresh(db.wallets.Values - old(db.wallets.Values))
      ensures match Reserve(old(View()).vault, pair, user, side, quantity, price, quote, pair.takerFee)
        case Ok(v) => ok && View() == old(View()).(vault := v)
        case Fail(_) => !ok && View() == old(View()).(vault :=
          Asked(old(View()).vault, pair, user, side, quantity, price, quote, pair.takerFee))
    {
      hide MatchingEngine.Valid, MatchingEngine.View, Database.Valid, Database.View, Reserve, SameBalances;
      var reserved := db.ReserveOrderFunds(pair, user, side, quantity, price, quote, pair.takerFee);
      ok := reserved.Ok?;
    }

    /** Match a reserved limit order and persist the result. */
    method MatchLimit(o: Order) returns (reply: Reply)
      requires Valid() && BooksFit(View()) && Incoming(o) && o.kind.Limit? && o.id == |rows|
      modifies this`rows, this`trades, engine`pending, engine.book, engine.book.Repr, engine.book.Resting(),
               db, db.wallets.Values
      ensures Valid() && Grown()
      ensures var (s', answer) := MatchLimitOrder(old(View()), 0, o);
        reply == answer != Refused && (reply.Done? ==> View() == s')
    {
      hide TradingDesk.Valid, TradingDesk.View, Process, Persist, TradesOf, BooksFit, HiddenPart;
      Seen();
      var order, result := Submit(o);
      var keptBack :=
        if order.status.Terminal() then order.quantity - order.filled else HiddenPart(o, result.remaining);
      var persisted := Record(RowOf(0, order.Value(), keptBack), result.trades);
      reply := if persisted.Ok? then Done else InvariantViolated;
    }

    /** Reserve, match and persist a new limit order. */
    method Enter(o: Order) returns (reply: Reply)
      requires Valid() && BooksFit(View()) && Incoming(o) && o.kind.Limit? && o.id == |rows|
      modifies this`rows, this`trades, engine`pending, engine.book, engine.book.Repr, engine.book.Resting(),
               db, db.wallets.Values
      ensures Valid() && Grown()
      ensures var (s', answer) := ExchangeModel.Enter(old(View()), 0, o);
        reply == answer && (reply.Done? ==> View() == s')
      ensures reply.Refused? ==> View() == old(View()).(vault :=
        Asked(old(View()).vault, pair, o.user, o.side, o.quantity, o.price, 0.0, pair.takerFee))
    {
      hide TradingDesk.Valid, TradingDesk.View, MatchLimitOrder, Reserve, Asked, Incoming, BooksFit;
      Seen();
      var reserved := TakeReserve(o.user, o.side, o.quantity, o.price, 0.0);
      if !reserved {
        return Refused;
      }
      Fits(old(View()), View());
      reply := MatchLimit(o);
    }

    /** Release what a limit order still holds if it has ended. */
    method Finish(id: OrderId)
      requires Valid() && id < |rows|
      modifies this`rows, db, db.wallets.Values
      ensures Valid() && Grown() && View() == ExchangeModel.Finish(old(View()), 0, id)
    {
      hide TradingDesk.Valid, TradingDesk.View, Release;
      Seen();
      var row := rows[id];
      if row.status.Terminal() {
        SetRow(id, row.(hidden := 0.0));
        GiveBack(row.user, row.side, row.quantity - row.filled, row.price, false, 0.0);
      }
    }

    /** Place one follower's copy of a stored limit order, or skip it. */
    method CopyOne(leader: Row, tif: TimeInForce, rel: Relation) returns (reply: Reply)
      requires Valid() && BooksFit(View()) && leader.price > 0.0
      modifies this`rows, this`trades, engine`pending, engine.book, engine.book.Repr, engine.book.Resting(),
               db, db.wallets.Values
      ensures Valid() && Grown()
      ensures var (s', answer) := ExchangeModel.CopyOne(old(View()), 0, leader, tif, rel);
        reply == answer && (reply.Done? ==> View() == s')
    {
      hide TradingDesk.Valid, TradingDesk.View, ExchangeModel.Enter, ExchangeModel.Finish, Cap, FloorToStep, Asked,
           BooksFit;
      Seen();
      if rel.leader != leader.user || !rel.active {
        return Done;
      }
      var size := CopyQuantity(leader.quantity, leader.price, rel.allocation, rel.maxPosition, pair.minQty, pair.maxQty,
                               pair.minNotional, pair.stepSize);
      if size.None? {
        return Done;
      }
      var id := |rows|;
      reply := Enter(Order(id, rel.follower, leader.side, Limit, leader.price, size.value, 0.0, 0.0, 0.0,
                           tif, 0.0, Pending));
      Seen();
      if reply.Done? {
        Finish(id);
      } else if reply.Refused? {
        reply := Done;
      }
    }

    /** Let every follower copy a stored limit order. */
    method CopyAll(leader: Row, tif: TimeInForce) returns (reply: Reply)
      requires Valid() && BooksFit(View()) && leader.price > 0.0
      modifies this`rows, this`trades, engine`pending, engine.book, engine.book.Repr, engine.book.Resting(),
               db, db.wallets.Values
      ensures Valid() && Grown()
      ensures var (s', answer) := Copies(old(View()), 0, leader, tif, relations);
        reply == answer && (reply.Done? ==> View() == s')
    {
      hide TradingDesk.Valid, TradingDesk.View, ExchangeModel.CopyOne, BooksFit, Onward;
      ghost var s := View();
      Seen();
      var todo := relations;
      while todo != []
        invariant Valid() && Grown() && BooksFit(View()) && View().pairs == [pair] && |View().books| == 1
        invariant Copies(s, 0, leader, tif, relations) == Copies(View(), 0, leader, tif, todo)
      {
        ghost var before := View();
        CopyOneOnward(before, 0, leader, tif, todo[0]);
        reply := CopyOne(leader, tif, todo[0]);
        if !reply.Done? {
          return;
        }
        Seen();
        OnwardFits(before, View());
        todo := todo[1..];
      }
      reply := Done;
    }

    method PlaceLimitOrder(user: UserId, side: Side, price: real, quantity: real, tif: TimeInForce, peak: real)
      returns (reply: Reply)
      requires Valid() && BooksFit(View())
      modifies this`rows, this`trades, engine`pending, engine.book, engine.book.Repr, engine.book.Resting(),
               db, db.wallets.Values
      ensures Valid() && Follows(old(View()), PlaceLimit(user, 0, side, price, quantity, tif, peak), reply, View())
    {
      hide TradingDesk.Valid, TradingDesk.View, ExchangeModel.Enter, ExchangeModel.Finish, Copies, QuantityRules,
           PriceRules,
           Undone, BooksFit;
      ghost var s := View();
      Seen();
      UndoneItself(s);
      if !(price > 0.0 && quantity > 0.0 && peak >= 0.0 && QuantityRules(pair, quantity)
           && PriceRules(pair, quantity, price)) {
        return Refused;
      }
      var id := |rows|;
      var o := Order(id, user, side, Limit, price, quantity, 0.0, 0.0, 0.0, tif, peak, Pending);
      reply := Enter(o);
      AskedUndone(s, pair, user, side, quantity, price, 0.0);
      if !reply.Done? {
        return;
      }
      Entered(s, o);
      Seen();
      reply := CopyAll(rows[id], tif);
      Seen();
      if reply.Done? {
        Finish(id);
      }
    }

    method ReferencePrice(side: Side) returns (price: real)
      requires Valid()
      ensures price == BestPrice(View().books[0], side)
    {
      price := engine.BestPrice(side);
    }

    method PlaceMarketOrder(user: UserId, side: Side, quantity: real, quote: real) returns (reply: Reply)
      requires Valid() && BooksFit(View())
      modifies this`rows, this`trades, engine`pending, engine.book, engine.book.Repr, engine.book.Resting(),
               db, db.wallets.Values
      ensures Valid() && Follows(old(View()), PlaceMarket(user, 0, side, quantity, quote), reply, View())
    {
      hide TradingDesk.Valid, TradingDesk.View, MatchMarketOrder, Reserve, QuantityRules, Undone, BooksFit, BestPrice;
      ghost var s := View();
      Seen();
      UndoneItself(s);
      if !(quantity >= 0.0 && quote >= 0.0 && (if side.Buy? then quote > 0.0 else quantity > 0.0)
           && (quantity > 0.0 ==> QuantityRules(pair, quantity))) {
        return Refused;
      }
      var reference := ReferencePrice(side.Opposite());
      if reference == 0.0 {
        return Refused;
      }
      var size := if quantity > 0.0 then quantity else quote / reference;
      var reserved := TakeReserve(user, side, size, reference, quote);
      AskedUndone(s, pair, user, side, size, reference, quote);
      if !reserved {
        return Refused;
      }
      Fits(s, View());
      var o := Order(|rows|, user, side, Market, 0.0, if side.Buy? then 0.0 else quantity, 0.0, quote, 0.0, Gtc, 0.0,
                     Pending);
      reply := MatchMarket(o, reference);
    }

    /** Match a market order; a buy is to be stored at the size it executed. */
    method SubmitMarket(o: Order) returns (row: Row, executed: seq<Trade>, unsold: real, spent: real)
      requires Valid() && BooksFit(View()) && Incoming(o) && o.kind.Market? && o.id == |rows|
      modifies engine`pending, engine.book, engine.book.Repr, engine.book.Resting()
      ensures Valid() && fresh(engine.book.Repr - old(engine.book.Repr)) && db.wallets == old(db.wallets)
      ensures var (e, r) := Process(old(View()).books[0], o, false);
        var taker :=
          if o.side.Buy? then r.taker.(filled := FillTotal(r.fills), quantity := FillTotal(r.fills)) else r.taker;
        && View() == old(View()).(books := old(View()).books[0 := e])
        && row == RowOf(0, taker, 0.0) && executed == TradesOf(r.fills, o, pair.Fees())
        && spent == FillWorth(r.fills) && unsold == taker.Remaining()
    {
      hide TradingDesk.Valid, TradingDesk.View, Process, TradesOf, BooksFit, FillTotal, FillWorth;
      Seen();
      ghost var fills := Process(View().books[0], o, false).1.fills;
      var order, result := Submit(o);
      executed := result.trades;
      var size;
      size, spent := Executed(executed, fills, o, pair.Fees());
      if o.side.Buy? {
        Resize(order, size);
      }
      row, unsold := RowOf(0, order.Value(), 0.0), order.quantity - order.filled;
    }

    /** Match, store and settle a reserved market order, and give back what it did not use. */
    method MatchMarket(o: Order, reference: real) returns (reply: Reply)
      requires Valid() && BooksFit(View()) && Incoming(o) && o.kind.Market? && o.id == |rows|
      modifies this`rows, this`trades, engine`pending, engine.book, engine.book.Repr, engine.book.Resting(),
               db, db.wallets.Values
      ensures Valid()
      ensures var (s', answer) := MatchMarketOrder(old(View()), 0, o, reference);
        reply == answer != Refused && (reply.Done? ==> View() == s')
    {
      hide TradingDesk.Valid, TradingDesk.View, Process, Persist, TradesOf, Release, ReleaseQuote, BooksFit,
           FillTotal, FillWorth,
           Incoming;
      Seen();
      var row, executed, unsold, spent := SubmitMarket(o);
      var persisted := Record(row, executed);
      if persisted.Fail? {
        return InvariantViolated;
      }
      GiveBackUnused(o, unsold, o.quote - spent, reference);
      reply := Done;
    }

    /** A market buy gets its unspent budget back, a market sell what it did not sell. */
    method GiveBackUnused(o: Order, unsold: real, unspent: real, reference: real)
      requires Valid()
      modifies db, db.wallets.Values
      ensures Valid()
      ensures View() == old(View()).(vault :=
        if o.side.Buy? then ReleaseQuote(old(View()).vault, pair, o.user,
                                               if unspent > 0.0 then unspent else 0.0, pair.takerFee)
        else Release(old(View()).vault, pair, o.user, o.side, unsold, reference, pair.takerFee))
    {
      hide TradingDesk.Valid, TradingDesk.View, Release, ReleaseQuote;
      if o.side.Buy? {
        GiveBack(o.user, o.side, 0.0, reference, true, if unspent > 0.0 then unspent else 0.0);
      } else {
        GiveBack(o.user, o.side, unsold, reference, false, 0.0);
      }
    }

    // ----- cancelling -----

    method TakeOff(id: OrderId)
      requires Valid()
      modifies engine.book.Repr, engine.book.Resting()
      ensures Valid() && engine.book.Repr == old(engine.book.Repr) && db.wallets == old(db.wallets)
      ensures View() == old(View()).(books := [Cancel(old(View()).books[0], id)])
    {
      hide MatchingEngine.Valid, MatchingEngine.View, Database.Valid, Database.View, Cancel;
      var _ := engine.CancelOrder(id);
    }

    method CancelOrder(user: UserId, id: OrderId) returns (reply: Reply)
      requires Valid()
      modifies this`rows, engine.book.Repr, engine.book.Resting(), db, db.wallets.Values
      ensures Valid() && Follows(old(View()), ExchangeModel.CancelOrder(user, id), reply, View())
    {
      hide TradingDesk.View, Undone, Cancel, Release, MatchingEngine.Valid, Database.Valid;
      ghost var s := View();
      Seen();
      UndoneItself(s);
      if !(id < |rows| && rows[id].user == user && rows[id].pair == 0
           && rows[id].status in {Open, Pending, PartiallyFilled}) {
        return Refused;
      }
      TakeOff(id);
      var row := rows[id];
      SetRow(id, row.(status := Cancelled));
      GiveBack(user, row.side, row.quantity - row.filled, row.price, false, 0.0);
      assert s.books[0 := Cancel(s.books[0], id)] == [Cancel(s.books[0], id)];
      reply := Done;
    }

    method SetRow(id: OrderId, row: Row)
      requires Valid() && id < |rows|
      modifies this`rows
      ensures Valid() && View() == old(View()).(rows := old(View()).rows[id := row])
    {
      hide MatchingEngine.Valid, MatchingEngine.View, Database.Valid, Database.View;
      rows := rows[id := row];
    }

    // ----- deposits and withdrawals -----

    method CreateMockDeposit(user: UserId, asset: AssetId, amount: real, confirmations: int) returns (reply: Reply)
      requires Valid()
      modifies this`deposits
      ensures Valid() && Follows(old(View()), MakeDeposit(user, asset, amount, confirmations), reply, View())
    {
      hide MatchingEngine.Valid, MatchingEngine.View, Database.Valid, Database.View, Undone;
      UndoneItself(View());
      if !(asset < |assets| && amount > 0.0 && amount >= assets[asset].minDeposit) {
        return Refused;
      }
      deposits := deposits + [Deposit(Key(user, asset), amount, confirmations, assets[asset].confirmations, false)];
      reply := Done;
    }

    /** Move funds in one wallet and log it. */
    method Book(k: Key, kind: EntryKind, available: real, locked: real, debit: real, credit: real)
      requires Valid()
      modifies db, db.wallets.Values
      ensures Valid() && engine.book.Repr == old(engine.book.Repr)
      ensures fresh(db.wallets.Values - old(db.wallets.Values))
      ensures View() == old(View()).(vault := old(View()).vault.Move(k, available, locked).Log(kind, k, debit, credit))
    {
      hide MatchingEngine.Valid, MatchingEngine.View, Database.Valid, Database.View, Vault.Move, Vault.Log;
      db.Book(k, kind, available, locked, debit, credit);
    }

    method Balance(k: Key) returns (wallet: Wallet)
      requires Valid()
      ensures wallet == View().vault.Get(k)
    {
      hide MatchingEngine.Valid, MatchingEngine.View;
      wallet := if k in db.wallets then db.wallets[k].Value() else Wallet(0.0, 0.0, 1);
    }

    method StoreDeposits(stored: seq<Deposit>)
      requires Valid()
      modifies this`deposits
      ensures Valid() && View() == old(View()).(deposits := stored)
    {
      hide MatchingEngine.Valid, MatchingEngine.View, Database.Valid, Database.View;
      deposits := stored;
    }

    method StoreWithdrawals(stored: seq<Withdrawal>)
      requires Valid()
      modifies this`withdrawals
      ensures Valid() && View() == old(View()).(withdrawals := stored)
    {
      hide MatchingEngine.Valid, MatchingEngine.View, Database.Valid, Database.View;
      withdrawals := stored;
    }

    method ConfirmDeposit(user: UserId, id: nat, confirmations: int) returns (reply: Reply)
      requires Valid()
      modifies this`deposits, db, db.wallets.Values
      ensures Valid() && Follows(old(View()), ExchangeModel.ConfirmDeposit(user, id, confirmations), reply, View())
    {
      hide TradingDesk.Valid, TradingDesk.View, Undone, Vault.Move, Vault.Log;
      Seen();
      UndoneItself(View());
      if !(id < |deposits| && deposits[id].key.user == user) {
        return Refused;
      }
      if deposits[id].completed {
        return Done;
      }
      var d := deposits[id];
      var n := d.confirmations + confirmations;
      StoreDeposits(deposits[id := d.(confirmations := n)]);
      Seen();
      if n >= d.required {
        Book(d.key, DepositCredit, d.amount, 0.0, 0.0, d.amount);
        StoreDeposits(deposits[id := d.(confirmations := n, completed := true)]);
      }
      reply := Done;
    }

    method CreateWithdrawal(user: UserId, asset: AssetId, amount: real) returns (reply: Reply)
      requires Valid()
      modifies this`withdrawals, db, db.wallets.Values
      ensures Valid() && Follows(old(View()), RequestWithdrawal(user, asset, amount), reply, View())
    {
      hide TradingDesk.Valid, TradingDesk.View, Undone, Vault.Move, Vault.Log;
      Seen();
      UndoneItself(View());
      if !(asset < |assets| && amount > 0.0 && amount >= assets[asset].minWithdrawal
           && !(assets[asset].maxWithdrawal > 0.0 && amount > assets[asset].maxWithdrawal)) {
        return Refused;
      }
      var k := Key(user, asset);
      var wallet := Balance(k);
      if wallet.available < amount || amount - assets[asset].withdrawalFee <= 0.0 {
        return Refused;
      }
      StoreWithdrawals(withdrawals + [Withdrawal(k, amount, assets[asset].withdrawalFee, Requested,
                                           amount >= ADMIN_THRESHOLD)]);
      Book(k, WithdrawalReserve, -amount, amount, amount, 0.0);
      reply := Done;
    }

    method ApproveWithdrawal(id: nat) returns (reply: Reply)
      requires Valid()
      modifies this`withdrawals
      ensures Valid() && Follows(old(View()), ExchangeModel.ApproveWithdrawal(id), reply, View())
    {
      hide TradingDesk.Valid, TradingDesk.View, Undone, Vault.Move, Vault.Log;
      Seen();
      UndoneItself(View());
      if !(id < |withdrawals| && withdrawals[id].status.Requested?) {
        return Refused;
      }
      StoreWithdrawals(withdrawals[id := withdrawals[id].(status := Approved)]);
      reply := Done;
    }

    method BroadcastWithdrawal(user: UserId, id: nat) returns (reply: Reply)
      requires Valid()
      modifies this`withdrawals
      ensures Valid() && Follows(old(View()), ExchangeModel.BroadcastWithdrawal(user, id), reply, View())
    {
      hide TradingDesk.Valid, TradingDesk.View, Undone, Vault.Move, Vault.Log;
      Seen();
      UndoneItself(View());
      if !(id < |withdrawals| && withdrawals[id].key.user == user) {
        return Refused;
      }
      var w := withdrawals[id];
      if (w.needsAdmin && !w.status.Approved?) || w.status !in {Requested, Approved} {
        return Refused;
      }
      StoreWithdrawals(withdrawals[id := w.(status := Broadcast)]);
      reply := Done;
    }

    method CancelWithdrawal(user: UserId, id: nat) returns (reply: Reply)
      requires Valid()
      modifies this`withdrawals, db, db.wallets.Values
      ensures Valid() && Follows(old(View()), ExchangeModel.CancelWithdrawal(user, id), reply, View())
    {
      hide TradingDesk.Valid, TradingDesk.View, Undone, Vault.Move, Vault.Log;
      Seen();
      UndoneItself(View());
      if !(id < |withdrawals| && withdrawals[id].key.user == user && withdrawals[id].status in {Requested, Approved}) {
        return Refused;
      }
      var w := withdrawals[id];
      var wallet := Balance(w.key);
      var release := Min(wallet.locked, w.amount);
      Book(w.key, WithdrawalRelease, release, -release, 0.0, release);
      StoreWithdrawals(withdrawals[id := w.(status := CalledOff)]);
      reply := Done;
    }

    /** The one withdrawal step that checks what is locked before it takes it. */
    method CompleteWithdrawal(user: UserId, id: nat) returns (reply: Reply)
      requires Valid()
      modifies this`withdrawals, db, db.wallets.Values
      ensures Valid() && Follows(old(View()), ExchangeModel.CompleteWithdrawal(user, id), reply, View())
    {
      hide TradingDesk.Valid, TradingDesk.View, Undone, Vault.Move, Vault.Log;
      Seen();
      UndoneItself(View());
      if !(id < |withdrawals| && withdrawals[id].key.user == user && withdrawals[id].status.Broadcast?) {
        return Refused;
      }
      var w := withdrawals[id];
      var wallet := Balance(w.key);
      if wallet.locked < w.amount {
        return InvariantViolated;
      }
      Book(w.key, WithdrawalComplete, 0.0, -w.amount, w.amount, 0.0);
      StoreWithdrawals(withdrawals[id := w.(status := Withdrawn)]);
      reply := Done;
    }
  }

  /** Add up what a match executed and what it cost. */
  method Executed(trades: seq<Trade>, ghost fills: seq<Fill>, ghost o: Order, ghost fees: EngineModel.Fees)
    returns (base: real, quote: real)
    requires trades == TradesOf(fills, o, fees)
    ensures base == FillTotal(fills) && quote == FillWorth(fills)
  {
    hide Mul, FillTotal, FillWorth;
    base, quote := 0.0, 0.0;
    NoFillTotals();
    for i := 0 to |trades|
      invariant base == FillTotal(fills[..i]) && quote == FillWorth(fills[..i])
    {
      base := base + trades[i].quantity;
      quote := quote + trades[i].quote;
      assert fills[..i + 1] == fills[..i] + [fills[i]];
      FillAppend(fills[..i], [fills[i]]);
      FillOne(fills[i]);
    }
    assert fills[..|trades|] == fills;
  }

  lemma UndoneItself(s: Exchange)
    ensures Undone(s, s)
  {
  }

  lemma AskedUndone(s: Exchange, pair: Pair, user: UserId, side: Side, quantity: real, price: real, quote: real)
    ensures Undone(s, s.(vault := Asked(s.vault, pair, user, side, quantity, price, quote, pair.takerFee)))
  {
    hide Asked, SameBalances;
    AskedSame(s.vault, pair, user, side, quantity, price, quote, pair.takerFee);
  }

  lemma Fits(s: Exchange, s': Exchange)
    requires BooksFit(s) && s' == s.(vault := s'.vault)
    ensures BooksFit(s')
  {
    hide BooksOk;
  }

  /** A limit order just entered is the last one stored, at its price, and the book agrees. */
  lemma Entered(s: Exchange, o: Order)
    requires BooksFit(s) && s.books != [] && Incoming(o) && o.kind.Limit? && o.id == |s.rows|
    requires ExchangeModel.Enter(s, 0, o).1.Done?
    ensures var s' := ExchangeModel.Enter(s, 0, o).0; BooksFit(s') && o.id < |s'.rows| && s'.rows[o.id].price > 0.0
  {
    hide ExchangeModel.Enter, Filing.Filed, BooksOk, Incoming, Onward;
    var row, e', r := EnterFiled(s, 0, o);
    var s' := ExchangeModel.Enter(s, 0, o).0;
    FiledOnward(s, s', 0, o, row, e', r, r.fills, []);
    OnwardFits(s, s');
    TakerPrice(s, s', 0, o, row, e', r);
    LimitPriced(o);
  }
}
