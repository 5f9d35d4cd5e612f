/** The exchange as one state: every pair's engine, the stored orders and trades, the wallets with their
    ledger, deposits and withdrawals (backend/app/api/v1/trading.py, backend/app/api/v1/wallets.py).

    Each API call is one step.  An order's id is its position among the stored orders, so a new order's id
    is fresh; deposits and withdrawals are numbered the same way. */
module ExchangeModel {
  import opened Orders
  import opened Matching
  import opened EngineModel
  import opened Wallets
  import opened PairRules
  import opened CopySizing

  /** A stored order.  `hidden` is bookkeeping of the model: what the order still has locked beyond its open rest,
      that is, the part of a resting iceberg the engine drops, and the rest of a finished order until it is
      released. */
  datatype Row = Row(
    user: UserId,
    pair: nat,
    side: Side,
    kind: OrderType,
    price: real,
    quantity: real,
    filled: real,
    status: Status,
    hidden: real)

  datatype TradeRow = TradeRow(pair: nat, trade: Trade)

  datatype Asset = Asset(
    minDeposit: real,
    minWithdrawal: real,
    maxWithdrawal: real,
    withdrawalFee: real,
    confirmations: int)

  datatype Deposit = Deposit(key: Key, amount: real, confirmations: int, required: int, completed: bool)

  datatype WithdrawalStatus = Requested | Approved | Broadcast | Withdrawn | CalledOff {
    predicate Live() {
      Requested? || Approved? || Broadcast?
    }
  }

  datatype Withdrawal = Withdrawal(key: Key, amount: real, fee: real, status: WithdrawalStatus, needsAdmin: bool)

  /** A follower who copies a leader's limit orders. */
  datatype Relation = Relation(
    leader: UserId,
    follower: UserId,
    allocation: real,
    maxPosition: Option<real>,
    active: bool)

  datatype Exchange = Exchange(
    pairs: seq<Pair>,
    assets: seq<Asset>,
    books: seq<State>,
    rows: seq<Row>,
    trades: seq<TradeRow>,
    vault: Vault,
    deposits: seq<Deposit>,
    withdrawals: seq<Withdrawal>,
    relations: seq<Relation>)

  datatype Event =
    | PlaceLimit(user: UserId, pair: nat, side: Side, price: real, quantity: real, tif: TimeInForce, peak: real)
    | PlaceMarket(user: UserId, pair: nat, side: Side, quantity: real, quote: real)
    | CancelOrder(user: UserId, id: OrderId)
    | MakeDeposit(user: UserId, asset: AssetId, amount: real, confirmations: int)
    | ConfirmDeposit(user: UserId, id: nat, confirmations: int)
    | RequestWithdrawal(user: UserId, asset: AssetId, amount: real)
    | ApproveWithdrawal(id: nat)
    | BroadcastWithdrawal(user: UserId, id: nat)
    | CancelWithdrawal(user: UserId, id: nat)
    | CompleteWithdrawal(user: UserId, id: nat)

  /** `InvariantViolated` is the 409 of a settlement or withdrawal that finds too little locked. */
  datatype Reply = Done | Refused | InvariantViolated

  // ----- persisting a match -----

  /** A match's effect on its maker's stored order. */
  function FillRow(rows: seq<Row>, t: Trade): seq<Row> {
    if t.makerOrder < |rows| then
      var m := rows[t.makerOrder];
      var f := m.filled + t.quantity;
      rows[t.makerOrder := m.(filled := f, status := if f >= m.quantity then Filled else PartiallyFilled)]
    else rows
  }

  /** Settle, store and book each trade in turn. */
  function Persist(s: Exchange, p: nat, trades: seq<Trade>): (r: Attempt<Exchange>)
    requires p < |s.pairs|
    ensures r.Ok? ==>
      var s' := r.value; s' == s.(vault := s'.vault, trades := s'.trades, rows := s'.rows) && |s'.rows| == |s.rows|
    decreases |trades|
  {
    if trades == [] then Ok(s)
    else
      match Settle(s.vault, s.pairs[p], trades[0])
      case Fail(f) => Fail(f)
      case Ok(v) =>
        Persist(s.(vault := v, trades := s.trades + [TradeRow(p, trades[0])], rows := FillRow(s.rows, trades[0])),
                p, trades[1..])
  }

  function RowOf(p: nat, taker: Order, hidden: real): Row {
    Row(taker.user, p, taker.side, taker.kind, taker.price, taker.quantity, taker.filled, taker.status, hidden)
  }

  // ----- limit orders -----

  /** A new limit order, under the next free id. */
  function LimitOrder(s: Exchange, user: UserId, side: Side, price: real, quantity: real, tif: TimeInForce, peak: real)
    : Order
  {
    Order(|s.rows|, user, side, Limit, price, quantity, 0.0, 0.0, 0.0, tif, peak, Pending)
  }

  /** The part of a limit order's rest that stays off the book. */
  function HiddenPart(o: Order, left: real): real {
    if left > 0.0 && o.tif in {Gtc, Gtd} then left - o.Visible(left) else 0.0
  }

  /** What a limit order just matched has locked beyond its open rest. */
  function KeptBack(o: Order, r: EngineModel.Result): real {
    if r.taker.status.Terminal() then r.taker.Remaining() else HiddenPart(o, r.remaining)
  }

  /** Nothing but the vault, the books, the rows and the trades. */
  ghost predicate OrdersOnly(s: Exchange, s': Exchange) {
    && s' == s.(vault := s'.vault, books := s'.books, rows := s'.rows, trades := s'.trades)
    && |s'.books| == |s.books| && |s'.rows| >= |s.rows|
  }

  /** Lock a limit order's funds, match it and persist the result. */
  ghost function Enter(s: Exchange, p: nat, o: Order): (r: (Exchange, Reply))
    requires p < |s.pairs| && p < |s.books|
    ensures OrdersOnly(s, r.0) && (r.1.Done? ==> |r.0.rows| == |s.rows| + 1) && (r.1.Refused? ==> r.0 == s)
  {
    var pair := s.pairs[p];
    match Reserve(s.vault, pair, o.user, o.side, o.quantity, o.price, 0.0, pair.takerFee)
    case Fail(_) => (s, Refused)
    case Ok(v) => MatchLimitOrder(s.(vault := v), p, o)
  }

  ghost function MatchLimitOrder(s: Exchange, p: nat, o: Order): (r: (Exchange, Reply))
    requires p < |s.pairs| && p < |s.books|
    ensures OrdersOnly(s, r.0) && (r.1.Done? ==> |r.0.rows| == |s.rows| + 1) && !r.1.Refused?
  {
    var (book, r) := Process(s.books[p], o, false);
    var s1 := s.(books := s.books[p := book], rows := s.rows + [RowOf(p, r.taker, KeptBack(o, r))]);
    match Persist(s1, p, TradesOf(r.fills, o, s.pairs[p].Fees()))
    case Fail(_) => (s, InvariantViolated)
    case Ok(s2) => (s2, Done)
  }

  /** Release what a limit order still holds if it has ended. */
  function Finish(s: Exchange, p: nat, id: OrderId): (s': Exchange)
    requires p < |s.pairs| && id < |s.rows|
    ensures s' == s.(vault := s'.vault, rows := s'.rows) && |s'.rows| == |s.rows|
  {
    var row, pair := s.rows[id], s.pairs[p];
    if row.status.Terminal() then
      s.(rows := s.rows[id := row.(hidden := 0.0)],
         vault := Release(s.vault, pair, row.user, row.side, row.quantity - row.filled, row.price, pair.takerFee))
    else s
  }

  /** One follower's copy of a stored limit order.  A follower who cannot fund it is skipped, and left with a wallet. */
  ghost function CopyOne(s: Exchange, p: nat, leader: Row, tif: TimeInForce, rel: Relation): (r: (Exchange, Reply))
    requires p < |s.pairs| && p < |s.books|
    ensures OrdersOnly(s, r.0) && !r.1.Refused?
  {
    var pair := s.pairs[p];
    if rel.leader != leader.user || !rel.active then (s, Done)
    else
      match CopyQuantity(leader.quantity, leader.price, rel.allocation, rel.maxPosition, pair.minQty, pair.maxQty,
                         pair.minNotional, pair.stepSize)
      case None => (s, Done)
      case Some(quantity) =>
        var (s1, reply) := Enter(s, p, LimitOrder(s, rel.follower, leader.side, leader.price, quantity, tif, 0.0));
        match reply
        case Done => (Finish(s1, p, |s.rows|), Done)
        case Refused =>
          (s.(vault := Asked(s.vault, pair, rel.follower, leader.side, quantity,
                                        leader.price, 0.0, pair.takerFee)), Done)
        case InvariantViolated => (s, InvariantViolated)
  }

  ghost function Copies(s: Exchange, p: nat, leader: Row, tif: TimeInForce, relations: seq<Relation>)
    : (r: (Exchange, Reply))
    requires p < |s.pairs| && p < |s.books|
    ensures OrdersOnly(s, r.0) && !r.1.Refused?
    decreases |relations|
  {
    if relations == [] then (s, Done)
    else
      var (s1, reply) := CopyOne(s, p, leader, tif, relations[0]);
      if reply.Done? then Copies(s1, p, leader, tif, relations[1..]) else (s, reply)
  }

  predicate LimitAccepted(s: Exchange, ev: Event)
    requires ev.PlaceLimit?
  {
    && ev.pair < |s.pairs| && ev.pair < |s.books|
    && ev.price > 0.0 && ev.quantity > 0.0 && ev.peak >= 0.0
    && QuantityRules(s.pairs[ev.pair], ev.quantity) && PriceRules(s.pairs[ev.pair], ev.quantity, ev.price)
  }

  /** Enter the order, let its followers copy it, and release what it still holds if it has ended. */
  ghost function PlaceLimitOrder(s: Exchange, ev: Event): (Exchange, Reply)
    requires ev.PlaceLimit?
  {
    if !LimitAccepted(s, ev) then (s, Refused)
    else
      var p, id := ev.pair, |s.rows|;
      var o := LimitOrder(s, ev.user, ev.side, ev.price, ev.quantity, ev.tif, ev.peak);
      var (s1, entered) := Enter(s, p, o);
      if !entered.Done? then (s, entered)
      else
        var (s2, copied) := Copies(s1, p, s1.rows[id], ev.tif, s.relations);
        if copied.Done? then (Finish(s2, p, id), Done) else (s, copied)
  }

  function BestPrice(book: State, side: Side): real {
    var makers := book.Makers(side);
    if makers == [] then 0.0 else makers[0].price
  }

  function MarketOrder(s: Exchange, ev: Event): Order
    requires ev.PlaceMarket?
  {
    Order(|s.rows|, ev.user, ev.side, Market, 0.0, if ev.side.Buy? then 0.0 else ev.quantity, 0.0, ev.quote, 0.0,
          Gtc, 0.0, Pending)
  }

  predicate MarketAccepted(s: Exchange, ev: Event)
    requires ev.PlaceMarket?
  {
    && ev.pair < |s.pairs| && ev.pair < |s.books| && ev.quantity >= 0.0 && ev.quote >= 0.0
    && (if ev.side.Buy? then ev.quote > 0.0 else ev.quantity > 0.0)
    && (ev.quantity > 0.0 ==> QuantityRules(s.pairs[ev.pair], ev.quantity))
    && BestPrice(s.books[ev.pair], ev.side.Opposite()) != 0.0
  }

  /** A market order's reserve, at the best price of the other side. */
  function MarketReserved(s: Exchange, ev: Event): Attempt<Vault>
    requires ev.PlaceMarket? && MarketAccepted(s, ev)
  {
    var reference := BestPrice(s.books[ev.pair], ev.side.Opposite());
    var quantity := if ev.quantity > 0.0 then ev.quantity else ev.quote / reference;
    Reserve(s.vault, s.pairs[ev.pair], ev.user, ev.side, quantity, reference, ev.quote, s.pairs[ev.pair].takerFee)
  }

  ghost function PlaceMarketOrder(s: Exchange, ev: Event): (Exchange, Reply)
    requires ev.PlaceMarket?
  {
    if !MarketAccepted(s, ev) then (s, Refused)
    else
      match MarketReserved(s, ev)
      case Fail(_) => (s, Refused)
      case Ok(v) =>
        var reference := BestPrice(s.books[ev.pair], ev.side.Opposite());
        var (s1, reply) := MatchMarketOrder(s.(vault := v), ev.pair, MarketOrder(s, ev), reference);
        (if reply.Done? then s1 else s, reply)
  }

  /** A quote-funded buy is stored at the size it executed and gets its unspent budget back; a sell gets back
      what it did not sell. */
  ghost function MatchMarketOrder(s: Exchange, p: nat, o: Order, reference: real): (Exchange, Reply)
    requires p < |s.pairs| && p < |s.books|
  {
    var pair := s.pairs[p];
    var (book, r) := Process(s.books[p], o, false);
    var taker :=
      if o.side.Buy? then r.taker.(filled := FillTotal(r.fills), quantity := FillTotal(r.fills)) else r.taker;
    var s1 := s.(books := s.books[p := book], rows := s.rows + [RowOf(p, taker, 0.0)]);
    match Persist(s1, p, TradesOf(r.fills, o, pair.Fees()))
    case Fail(_) => (s, InvariantViolated)
    case Ok(s2) =>
      if o.side.Buy? then
        var unspent := o.quote - FillWorth(r.fills);
        (s2.(vault :=
           ReleaseQuote(s2.vault, pair, o.user, if unspent > 0.0 then unspent else 0.0, pair.takerFee)), Done)
      else
        (s2.(vault := Release(s2.vault, pair, o.user, o.side, taker.Remaining(), reference, pair.takerFee)), Done)
  }

  predicate Cancellable(s: Exchange, user: UserId, id: OrderId) {
    && id < |s.rows| && s.rows[id].user == user && s.rows[id].pair < |s.pairs| && s.rows[id].pair < |s.books|
    && s.rows[id].status in {Open, Pending, PartiallyFilled}
  }

  function CancelStored(s: Exchange, user: UserId, id: OrderId): (Exchange, Reply) {
    if !Cancellable(s, user, id) then (s, Refused)
    else
      var row := s.rows[id];
      var pair := s.pairs[row.pair];
      (s.(books := s.books[row.pair := Cancel(s.books[row.pair], id)],
          rows := s.rows[id := row.(status := Cancelled)],
          vault := Release(s.vault, pair, user, row.side, row.quantity - row.filled, row.price, pair.takerFee)),
       Done)
  }

  // ----- deposits and withdrawals -----

  function AddDeposit(s: Exchange, ev: Event): (Exchange, Reply)
    requires ev.MakeDeposit?
  {
    if !(ev.asset < |s.assets| && ev.amount > 0.0 && ev.amount >= s.assets[ev.asset].minDeposit) then (s, Refused)
    else
      (s.(deposits := s.deposits + [Deposit(Key(ev.user, ev.asset), ev.amount, ev.confirmations,
                                            s.assets[ev.asset].confirmations, false)]), Done)
  }

  function Confirm(s: Exchange, ev: Event): (Exchange, Reply)
    requires ev.ConfirmDeposit?
  {
    if !(ev.id < |s.deposits| && s.deposits[ev.id].key.user == ev.user) then (s, Refused)
    else if s.deposits[ev.id].completed then (s, Done)
    else
      var d := s.deposits[ev.id];
      var n := d.confirmations + ev.confirmations;
      if n < d.required then (s.(deposits := s.deposits[ev.id := d.(confirmations := n)]), Done)
      else
        (s.(deposits := s.deposits[ev.id := d.(confirmations := n, completed := true)],
            vault := s.vault.Move(d.key, d.amount, 0.0).Log(DepositCredit, d.key, 0.0, d.amount)), Done)
  }

  const ADMIN_THRESHOLD := 1000.0

  function Request(s: Exchange, ev: Event): (Exchange, Reply)
    requires ev.RequestWithdrawal?
  {
    if !(ev.asset < |s.assets| && ev.amount > 0.0 && ev.amount >= s.assets[ev.asset].minWithdrawal
         && !(s.assets[ev.asset].maxWithdrawal > 0.0 && ev.amount > s.assets[ev.asset].maxWithdrawal)
         && s.vault.Available(Key(ev.user, ev.asset)) >= ev.amount
         && ev.amount - s.assets[ev.asset].withdrawalFee > 0.0) then
      (s, Refused)
    else
      var k := Key(ev.user, ev.asset);
      (s.(withdrawals := s.withdrawals + [Withdrawal(k, ev.amount, s.assets[ev.asset].withdrawalFee, Requested,
                                                     ev.amount >= ADMIN_THRESHOLD)],
          vault := s.vault.Move(k, -ev.amount, ev.amount).Log(WithdrawalReserve, k, ev.amount, 0.0)), Done)
  }

  predicate Owns(s: Exchange, user: UserId, id: nat) {
    id < |s.withdrawals| && s.withdrawals[id].key.user == user
  }

  function Approve(s: Exchange, id: nat): (Exchange, Reply) {
    if !(id < |s.withdrawals| && s.withdrawals[id].status.Requested?) then (s, Refused)
    else (s.(withdrawals := s.withdrawals[id := s.withdrawals[id].(status := Approved)]), Done)
  }

  function SendOut(s: Exchange, user: UserId, id: nat): (Exchange, Reply) {
    if !(Owns(s, user, id)
         && !(s.withdrawals[id].needsAdmin && !s.withdrawals[id].status.Approved?)
         && s.withdrawals[id].status in {Requested, Approved}) then
      (s, Refused)
    else (s.(withdrawals := s.withdrawals[id := s.withdrawals[id].(status := Broadcast)]), Done)
  }

  function CallOff(s: Exchange, user: UserId, id: nat): (Exchange, Reply) {
    if !(Owns(s, user, id) && s.withdrawals[id].status in {Requested, Approved}) then (s, Refused)
    else
      var w := s.withdrawals[id];
      var released := Min(s.vault.Locked(w.key), w.amount);
      (s.(withdrawals := s.withdrawals[id := w.(status := CalledOff)],
          vault := s.vault.Move(w.key, released, -released).Log(WithdrawalRelease, w.key, 0.0, released)), Done)
  }

  function Complete(s: Exchange, user: UserId, id: nat): (Exchange, Reply) {
    if !(Owns(s, user, id) && s.withdrawals[id].status.Broadcast?) then (s, Refused)
    else
      var w := s.withdrawals[id];
      if s.vault.Locked(w.key) < w.amount then (s, InvariantViolated)
      else
        (s.(withdrawals := s.withdrawals[id := w.(status := Withdrawn)],
            vault := s.vault.Move(w.key, 0.0, -w.amount).Log(WithdrawalComplete, w.key, w.amount, 0.0)), Done)
  }

  ghost function Step(s: Exchange, ev: Event): (Exchange, Reply) {
    match ev
    case PlaceLimit(_, _, _, _, _, _, _) => PlaceLimitOrder(s, ev)
    case PlaceMarket(_, _, _, _, _) => PlaceMarketOrder(s, ev)
    case CancelOrder(user, id) => CancelStored(s, user, id)
    case MakeDeposit(_, _, _, _) => AddDeposit(s, ev)
    case ConfirmDeposit(_, _, _) => Confirm(s, ev)
    case RequestWithdrawal(_, _, _) => Request(s, ev)
    case ApproveWithdrawal(id) => Approve(s, id)
    case BroadcastWithdrawal(user, id) => SendOut(s, user, id)
    case CancelWithdrawal(user, id) => CallOff(s, user, id)
    case CompleteWithdrawal(user, id) => Complete(s, user, id)
  }

  ghost function Run(s: Exchange, evs: seq<Event>): Exchange
    decreases |evs|
  {
    if evs == [] then s else Run(Step(s, evs[0]).0, evs[1..])
  }

  ghost predicate PairsOk(pairs: seq<Pair>) {
    forall p :: 0 <= p < |pairs| ==> pairs[p].Valid()
  }

  /** An exchange before its first order: nothing locked. */
  ghost predicate Fresh(s: Exchange) {
    && PairsOk(s.pairs) && |s.books| == |s.pairs|
    && (forall p :: 0 <= p < |s.books| ==> s.books[p] == EmptyState)
    && s.rows == [] && s.trades == [] && s.deposits == [] && s.withdrawals == [] && s.vault.ledger == []
    && (forall k :: k in s.vault.wallets ==> s.vault.wallets[k].locked == 0.0 && s.vault.wallets[k].available >= 0.0)
  }
}
