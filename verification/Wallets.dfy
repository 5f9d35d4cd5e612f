/** Wallets and the ledger (backend/app/services/wallet_service.py): reserving, releasing and settling as
    functions on values, in the order the service reads and writes them. */
module Wallets {
  import opened Orders
  import opened Sums
  import opened EngineModel

  type AssetId = nat

  datatype Key = Key(user: UserId, asset: AssetId)

  datatype Wallet = Wallet(available: real, locked: real, version: int)

  datatype EntryKind =
    | OrderReserve | OrderRelease
    | TradeBuyQuote | TradeBuyBase | TradeSellBase | TradeSellQuote
    | DepositCredit
    | WithdrawalReserve | WithdrawalRelease | WithdrawalComplete

  datatype Entry = Entry(kind: EntryKind, key: Key, debit: real, credit: real, balanceAfter: real)

  datatype Pair = Pair(
    base: AssetId,
    quote: AssetId,
    makerFee: real,
    takerFee: real,
    minQty: real,
    maxQty: real,
    minNotional: real,
    tickSize: real,
    stepSize: real)
  {
    function Fees(): Fees {
      EngineModel.Fees(makerFee, takerFee)
    }

    predicate Valid() {
      base != quote && 0.0 <= makerFee <= takerFee < 1.0
    }
  }

  datatype Failure = CannotCompute | Insufficient | BuyerReserve | SellerReserve

  datatype Attempt<T> = Ok(value: T) | Fail(failure: Failure)

  datatype Vault = Vault(wallets: map<Key, Wallet>, ledger: seq<Entry>) {
    /** A missing wallet is created empty. */
    function Get(k: Key): Wallet {
      if k in wallets then wallets[k] else Wallet(0.0, 0.0, 1)
    }

    function Available(k: Key): real {
      Get(k).available
    }

    function Locked(k: Key): real {
      Get(k).locked
    }

    function Move(k: Key, available: real, locked: real): Vault {
      var w := Get(k);
      this.(wallets := wallets[k := Wallet(w.available + available, w.locked + locked, w.version + 1)])
    }

    function Log(kind: EntryKind, k: Key, debit: real, credit: real): Vault {
      this.(ledger := ledger + [Entry(kind, k, debit, credit, Available(k) + Locked(k))])
    }
  }

  /** What a quantity at a price costs with the fee on top. */
  function Cost(price: real, quantity: real, fee: real): real {
    Mul(Mul(price, quantity), 1.0 + fee)
  }

  function LockAsset(pair: Pair, side: Side): AssetId {
    if side.Buy? then pair.quote else pair.base
  }

  /** What an order of this side, price and quantity keeps locked. */
  function Lockup(side: Side, price: real, quantity: real, fee: real): real {
    if side.Buy? then Cost(price, quantity, fee) else quantity
  }

  function ReserveAmount(side: Side, quantity: real, price: real, quote: real, fee: real): real {
    if side.Buy? && quote != 0.0 then Mul(quote, 1.0 + fee) else Lockup(side, price, quantity, fee)
  }

  function Reserve(v: Vault, pair: Pair, user: UserId, side: Side, quantity: real, price: real, quote: real, fee: real)
    : Attempt<Vault>
  {
    var amount := ReserveAmount(side, quantity, price, quote, fee);
    var k := Key(user, LockAsset(pair, side));
    if amount <= 0.0 then Fail(CannotCompute)
    else if v.Available(k) < amount then Fail(Insufficient)
    else Ok(v.Move(k, -amount, amount).Log(OrderReserve, k, amount, 0.0))
  }

  /** What a refused call leaves: every balance and the ledger as they were, whatever empty wallets were made. */
  ghost predicate SameBalances(v: Vault, v': Vault) {
    v'.ledger == v.ledger && forall k :: v'.Get(k) == v.Get(k)
  }

  /** The vault once a wallet that was missing has been made. */
  function Touch(v: Vault, k: Key): Vault {
    v.(wallets := v.wallets[k := v.Get(k)])
  }

  /** The vault after a reserve that was refused: where the amount could be computed, the wallet has been made. */
  function Asked(v: Vault, pair: Pair, user: UserId, side: Side, quantity: real, price: real, quote: real, fee: real)
    : Vault
  {
    if ReserveAmount(side, quantity, price, quote, fee) <= 0.0 then v else Touch(v, Key(user, LockAsset(pair, side)))
  }

  lemma AskedSame(v: Vault, pair: Pair, user: UserId, side: Side, quantity: real, price: real, quote: real, fee: real)
    ensures SameBalances(v, Asked(v, pair, user, side, quantity, price, quote, fee))
  {
    hide ReserveAmount;
  }

  /** Give locked funds back, never more than is locked. */
  function ReleaseAmount(v: Vault, pair: Pair, user: UserId, side: Side, amount: real): Vault {
    var k := Key(user, LockAsset(pair, side));
    if amount <= 0.0 then v
    else
      var released := Min(amount, v.Locked(k));
      v.Move(k, released, -released).Log(OrderRelease, k, 0.0, released)
  }

  function Release(v: Vault, pair: Pair, user: UserId, side: Side, quantity: real, price: real, fee: real): Vault {
    ReleaseAmount(v, pair, user, side, Lockup(side, price, quantity, fee))
  }

  function ReleaseQuote(v: Vault, pair: Pair, user: UserId, quote: real, fee: real): Vault {
    ReleaseAmount(v, pair, user, Buy, Mul(quote, 1.0 + fee))
  }

  const SETTLE_TOLERANCE := 0.000001
  const SETTLE_FLOOR := 0.000000000001

  function Abs(x: real): real {
    if x < 0.0 then -x else x
  }

  /** Settlement tolerates a shortfall of a millionth of what is needed. */
  predicate ReserveOk(locked: real, needed: real) {
    locked >= needed - (Abs(needed) * SETTLE_TOLERANCE + SETTLE_FLOOR)
  }

  function Buyer(t: Trade): UserId {
    if t.takerSide.Buy? then t.takerUser else t.makerUser
  }

  function Seller(t: Trade): UserId {
    if t.takerSide.Buy? then t.makerUser else t.takerUser
  }

  function BuyerFee(t: Trade): real {
    if t.takerSide.Buy? then t.takerFee else t.makerFee
  }

  function SellerFee(t: Trade): real {
    if t.takerSide.Buy? then t.makerFee else t.takerFee
  }

  /** Exchange base for quote between a trade's two users, who may be one, debiting the given amounts.  The
      ledger is told the whole quantity left the seller, whatever was debited. */
  function Transfer(v: Vault, pair: Pair, t: Trade, buyerDebit: real, baseDebit: real): Vault {
    var buyerQuote, buyerBase := Key(Buyer(t), pair.quote), Key(Buyer(t), pair.base);
    var sellerBase, sellerQuote := Key(Seller(t), pair.base), Key(Seller(t), pair.quote);
    v.Move(buyerQuote, 0.0, -buyerDebit)
     .Move(buyerBase, t.quantity, 0.0)
     .Move(sellerBase, 0.0, -baseDebit)
     .Move(sellerQuote, t.quote - SellerFee(t), 0.0)
     .Log(TradeBuyQuote, buyerQuote, buyerDebit, 0.0)
     .Log(TradeBuyBase, buyerBase, 0.0, t.quantity)
     .Log(TradeSellBase, sellerBase, t.quantity, 0.0)
     .Log(TradeSellQuote, sellerQuote, 0.0, t.quote - SellerFee(t))
  }

  /** Settle a trade, clamping both debits to what is locked. */
  function Settle(v: Vault, pair: Pair, t: Trade): Attempt<Vault> {
    var buyerLocked, sellerLocked := v.Locked(Key(Buyer(t), pair.quote)), v.Locked(Key(Seller(t), pair.base));
    var needed := t.quote + BuyerFee(t);
    if !ReserveOk(buyerLocked, needed) then Fail(BuyerReserve)
    else if !ReserveOk(sellerLocked, t.quantity) then Fail(SellerReserve)
    else Ok(Transfer(v, pair, t, Min(needed, buyerLocked), Min(t.quantity, sellerLocked)))
  }

  // ----- laws -----

  lemma CostAdd(price: real, a: real, b: real, fee: real)
    ensures Cost(price, a + b, fee) == Cost(price, a, fee) + Cost(price, b, fee)
  {
    hide Mul;
    MulSum(price, a, b);
    MulSum(1.0 + fee, Mul(price, a), Mul(price, b));
  }

  lemma CostSign(price: real, quantity: real, fee: real)
    requires price >= 0.0 && quantity >= 0.0 && fee >= 0.0
    ensures Cost(price, quantity, fee) >= 0.0
    ensures price > 0.0 && quantity > 0.0 ==> Cost(price, quantity, fee) > 0.0
  {
    hide Mul;
    MulSign(price, quantity);
    MulSign(Mul(price, quantity), 1.0 + fee);
  }

  lemma LockupAdd(side: Side, price: real, a: real, b: real, fee: real)
    ensures Lockup(side, price, a + b, fee) == Lockup(side, price, a, fee) + Lockup(side, price, b, fee)
  {
    hide Cost;
    CostAdd(price, a, b, fee);
  }

  lemma LockupSign(side: Side, price: real, quantity: real, fee: real)
    requires price >= 0.0 && quantity >= 0.0 && fee >= 0.0
    ensures Lockup(side, price, quantity, fee) >= 0.0
    ensures price > 0.0 && quantity > 0.0 ==> Lockup(side, price, quantity, fee) > 0.0
  {
    hide Cost;
    CostSign(price, quantity, fee);
  }

  /** Buying at or under a limit, at no more than the taker fee, costs at most what the limit locks up. */
  lemma CostCovers(limit: real, price: real, quantity: real, fee: real, takerFee: real)
    requires 0.0 < price <= limit && quantity > 0.0 && 0.0 <= fee <= takerFee
    ensures Mul(price, quantity) + Mul(fee, Mul(price, quantity)) <= Cost(limit, quantity, takerFee)
    ensures price == limit && fee == takerFee ==>
      Mul(price, quantity) + Mul(fee, Mul(price, quantity)) == Cost(limit, quantity, takerFee)
  {
    hide Mul;
    var q := Mul(price, quantity);
    MulMono(quantity, price, limit);
    MulSwap(quantity, price);
    MulSwap(quantity, limit);
    MulSign(price, quantity);
    MulMono(q, fee, takerFee);
    MulMono(1.0 + takerFee, q, Mul(limit, quantity));
    MulSum(q, 1.0, takerFee);
    MulOne(q);
    MulSwap(q, takerFee);
  }

  lemma MulOne(x: real)
    ensures Mul(x, 1.0) == x
  {
  }

  // ----- totals -----

  ghost function Balances(v: Vault, asset: AssetId): map<Key, real> {
    map k | k in v.wallets && k.asset == asset :: v.wallets[k].available + v.wallets[k].locked
  }

  /** Everything users hold of an asset. */
  ghost function Supply(v: Vault, asset: AssetId): real {
    MapTotal(Balances(v, asset))
  }

  lemma MoveSupply(v: Vault, k: Key, available: real, locked: real, asset: AssetId)
    ensures Supply(v.Move(k, available, locked), asset)
         == Supply(v, asset) + (if k.asset == asset then available + locked else 0.0)
  {
    var v' := v.Move(k, available, locked);
    if k.asset == asset {
      var x := v'.wallets[k].available + v'.wallets[k].locked;
      assert Balances(v', asset) == Balances(v, asset)[k := x];
      MapTotalUpdate(Balances(v, asset), k, x);
    } else {
      assert Balances(v', asset) == Balances(v, asset);
    }
  }

  lemma TouchSupply(v: Vault, k: Key, asset: AssetId)
    ensures Supply(Touch(v, k), asset) == Supply(v, asset)
  {
    var v' := Touch(v, k);
    if k.asset == asset {
      var x := v'.wallets[k].available + v'.wallets[k].locked;
      assert Balances(v', asset) == Balances(v, asset)[k := x];
      MapTotalUpdate(Balances(v, asset), k, x);
    } else {
      assert Balances(v', asset) == Balances(v, asset);
    }
  }

  /** What an entry says happened to `available`. */
  function AvailableDelta(e: Entry): real {
    match e.kind
    case OrderReserve | WithdrawalReserve => -e.debit
    case OrderRelease | WithdrawalRelease | TradeBuyBase | TradeSellQuote | DepositCredit => e.credit
    case TradeBuyQuote | TradeSellBase | WithdrawalComplete => 0.0
  }

  /** What an entry says happened to `locked`. */
  function LockedDelta(e: Entry): real {
    match e.kind
    case OrderReserve | WithdrawalReserve => e.debit
    case OrderRelease | WithdrawalRelease => -e.credit
    case TradeBuyQuote | TradeSellBase | WithdrawalComplete => -e.debit
    case TradeBuyBase | TradeSellQuote | DepositCredit => 0.0
  }

  ghost function FoldAvailable(ledger: seq<Entry>, k: Key): real {
    Total(seq(|ledger|, i requires 0 <= i < |ledger| => if ledger[i].key == k then AvailableDelta(ledger[i]) else 0.0))
  }

  ghost function FoldLocked(ledger: seq<Entry>, k: Key): real {
    Total(seq(|ledger|, i requires 0 <= i < |ledger| => if ledger[i].key == k then LockedDelta(ledger[i]) else 0.0))
  }

  lemma FoldAppend(ledger: seq<Entry>, e: Entry, k: Key)
    ensures FoldAvailable(ledger + [e], k) == FoldAvailable(ledger, k) + (if e.key == k then AvailableDelta(e) else 0.0)
    ensures FoldLocked(ledger + [e], k) == FoldLocked(ledger, k) + (if e.key == k then LockedDelta(e) else 0.0)
  {
    var a := seq(|ledger|,
                 i requires 0 <= i < |ledger| => if ledger[i].key == k then AvailableDelta(ledger[i]) else 0.0);
    var l := seq(|ledger|, i requires 0 <= i < |ledger| => if ledger[i].key == k then LockedDelta(ledger[i]) else 0.0);
    var long := ledger + [e];
    var a1, l1 := if e.key == k then AvailableDelta(e) else 0.0, if e.key == k then LockedDelta(e) else 0.0;
    assert seq(|long|, i requires 0 <= i < |long| => if long[i].key == k then AvailableDelta(long[i]) else 0.0)
       == a + [a1];
    assert seq(|long|, i requires 0 <= i < |long| => if long[i].key == k then LockedDelta(long[i]) else 0.0)
       == l + [l1];
    TotalAppend(a, [a1]);
    TotalAppend(l, [l1]);
    TotalOne(a1);
    TotalOne(l1);
  }

  /** Exactly one side of an entry is nonzero, and neither is negative. */
  predicate SingleSided(e: Entry) {
    e.debit >= 0.0 && e.credit >= 0.0 && (e.debit == 0.0) != (e.credit == 0.0)
  }
}
