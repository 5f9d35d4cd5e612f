/** The wallet rows and ledger as the service updates them (backend/app/services/wallet_service.py): wallets
    are shared objects, and a trade between a user and himself updates the same object under two names. */
module WalletService {
  import opened Orders
  import opened Sums
  import opened EngineModel
  import opened Wallets

  class UserWallet {
    const user: UserId
    const asset: AssetId
    var available: real
    var locked: real
    var version: int

    constructor (user: UserId, asset: AssetId)
      ensures this.user == user && this.asset == asset && Value() == Wallet(0.0, 0.0, 1)
    {
      this.user, this.asset := user, asset;
      available, locked, version := 0.0, 0.0, 1;
    }

    function Value(): Wallet
      reads this
    {
      Wallet(available, locked, version)
    }
  }

  lemma TouchMoves(v: Vault, k: Key, available: real, locked: real)
    ensures Touch(v, k).Move(k, available, locked) == v.Move(k, available, locked)
    ensures SameBalances(v, Touch(v, k))
  {
  }

  lemma MovesOnTouched(v: Vault, k: Key, at: Key, available: real, locked: real)
    ensures Touch(v, k).Move(at, available, locked) == Touch(v.Move(at, available, locked), k)
  {
  }

  lemma TouchTwice(v: Vault, k: Key)
    ensures k in v.wallets ==> Touch(v, k) == v
  {
  }

  class Database {
    var wallets: map<Key, UserWallet>
    var ledger: seq<Entry>

    constructor ()
      ensures Valid() && View() == Vault(map[], []) && wallets == map[]
    {
      wallets, ledger := map[], [];
    }

    /** Wallets are filed under their own user and asset, so no wallet is filed twice. */
    ghost predicate Valid()
      reads this
    {
      forall k :: k in wallets ==> Key(wallets[k].user, wallets[k].asset) == k
    }

    ghost function View(): Vault
      reads this, wallets.Values
    {
      Vault(map k | k in wallets :: wallets[k].Value(), ledger)
    }

    ghost predicate Filed(wallet: UserWallet)
      reads this
    {
      var k := Key(wallet.user, wallet.asset);
      k in wallets && wallets[k] == wallet
    }

    lemma Reads(wallet: UserWallet)
      requires Valid() && Filed(wallet)
      ensures View().Get(Key(wallet.user, wallet.asset)) == wallet.Value()
    {
    }

    method GetWalletForUpdate(k: Key) returns (wallet: UserWallet)
      requires Valid()
      modifies this`wallets
      ensures Valid() && Filed(wallet) && Key(wallet.user, wallet.asset) == k
      ensures forall w :: w in old(wallets.Values) && old(Filed(w)) ==> Filed(w)
      ensures old(wallets.Values) <= wallets.Values && fresh(wallets.Values - old(wallets.Values))
      ensures wallet in wallets.Values && View() == Touch(old(View()), k)
    {
      if k in wallets {
        wallet := wallets[k];
      } else {
        wallet := new UserWallet(k.user, k.asset);
        wallets := wallets[k := wallet];
        assert k in wallets;
        forall w | w in old(wallets.Values) ensures w in wallets.Values {
          var j :| j in old(wallets) && old(wallets)[j] == w;
          assert j in wallets && wallets[j] == w;
        }
      }
    }

    /** Change a wallet's two columns and step its version. */
    method Update(wallet: UserWallet, available: real, locked: real)
      requires Valid() && Filed(wallet)
      modifies wallet
      ensures Valid()
      ensures View() == old(View()).Move(Key(wallet.user, wallet.asset), available, locked)
    {
      wallet.available := wallet.available + available;
      wallet.locked := wallet.locked + locked;
      wallet.version := wallet.version + 1;
    }

    method AddLedger(wallet: UserWallet, kind: EntryKind, debit: real, credit: real)
      requires Valid() && Filed(wallet)
      modifies this`ledger
      ensures Valid() && View() == old(View()).Log(kind, Key(wallet.user, wallet.asset), debit, credit)
    {
      ledger := ledger + [Entry(kind, Key(wallet.user, wallet.asset), debit, credit, wallet.available + wallet.locked)];
    }

    /** Move funds in one wallet and log it. */
    method Book(k: Key, kind: EntryKind, available: real, locked: real, debit: real, credit: real)
      requires Valid()
      modifies this, wallets.Values
      ensures Valid() && fresh(wallets.Values - old(wallets.Values))
      ensures View() == old(View()).Move(k, available, locked).Log(kind, k, debit, credit)
    {
      hide Vault.Log, Vault.Move, Touch, Database.View, SameBalances;
      TouchMoves(View(), k, available, locked);
      var wallet := GetWalletForUpdate(k);
      Update(wallet, available, locked);
      AddLedger(wallet, kind, debit, credit);
    }

    method ReserveOrderFunds(pair: Pair, user: UserId, side: Side, quantity: real, price: real, quote: real, fee: real)
      returns (r: Attempt<real>)
      requires Valid()
      modifies this, wallets.Values
      ensures Valid() && fresh(wallets.Values - old(wallets.Values))
      ensures var spec := Reserve(old(View()), pair, user, side, quantity, price, quote, fee);
        match r
        case Ok(amount) => spec == Ok(View()) && amount == ReserveAmount(side, quantity, price, quote, fee)
        case Fail(f) => spec == Fail(f) && View() == Asked(old(View()), pair, user, side, quantity, price, quote, fee)
    {
      hide Mul, Vault.Move, Vault.Log, Touch, Database.View;
      ghost var v := View();
      var amount;
      if side.Buy? {
        amount := Mul(if quote != 0.0 then quote else Mul(price, quantity), 1.0 + fee);
      } else {
        amount := quantity;
      }
      if amount <= 0.0 {
        Unchanged(v);
        return Fail(CannotCompute);
      }
      var k := Key(user, LockAsset(pair, side));
      var wallet := GetWalletForUpdate(k);
      TouchMoves(v, k, -amount, amount);
      Reads(wallet);
      LockedBy(v, View(), k);
      if wallet.available < amount {
        return Fail(Insufficient);
      }
      Update(wallet, -amount, amount);
      AddLedger(wallet, OrderReserve, amount, 0.0);
      r := Ok(amount);
    }

    /** Release a quantity at a price, or a quote amount if one is given. */
    method ReleaseOrderFunds(pair: Pair, user: UserId, side: Side, quantity: real, price: real, byQuote: bool,
                             quote: real,
                             fee: real)
      returns (released: real)
      requires Valid() && (byQuote ==> side.Buy?)
      modifies this, wallets.Values
      ensures Valid() && fresh(wallets.Values - old(wallets.Values))
      ensures View() == if byQuote then ReleaseQuote(old(View()), pair, user, quote, fee)
                        else Release(old(View()), pair, user, side, quantity, price, fee)
    {
      hide Mul, Vault.Log, Vault.Move, Touch, Database.View, SameBalances;
      ghost var v := View();
      var release;
      if side.Buy? {
        release := Mul(if byQuote then quote else Mul(price, quantity), 1.0 + fee);
      } else {
        release := quantity;
      }
      if release <= 0.0 {
        return 0.0;
      }
      var k := Key(user, LockAsset(pair, side));
      var wallet := GetWalletForUpdate(k);
      released := Min(release, wallet.locked);
      TouchMoves(v, k, released, -released);
      Reads(wallet);
      LockedBy(v, View(), k);
      Update(wallet, released, -released);
      AddLedger(wallet, OrderRelease, 0.0, released);
    }

    /** The four wallets of a trade, two of them twice when buyer and seller are one user. */
    method TradeWallets(pair: Pair, t: Trade)
      returns (buyerQuote: UserWallet, buyerBase: UserWallet, sellerBase: UserWallet, sellerQuote: UserWallet)
      requires Valid()
      modifies this`wallets
      ensures Valid() && fresh(wallets.Values - old(wallets.Values))
      ensures Filed(buyerQuote) && Filed(buyerBase) && Filed(sellerBase) && Filed(sellerQuote)
      ensures Key(buyerQuote.user, buyerQuote.asset) == Key(Buyer(t), pair.quote)
      ensures Key(buyerBase.user, buyerBase.asset) == Key(Buyer(t), pair.base)
      ensures Key(sellerBase.user, sellerBase.asset) == Key(Seller(t), pair.base)
      ensures Key(sellerQuote.user, sellerQuote.asset) == Key(Seller(t), pair.quote)
      ensures View() == Touched(old(View()), Key(Buyer(t), pair.quote), Key(Buyer(t), pair.base),
                                Key(Seller(t), pair.base), Key(Seller(t), pair.quote))
      ensures {buyerQuote, buyerBase, sellerBase, sellerQuote} <= wallets.Values
    {
      hide Touch, Database.View, Database.Valid, Database.Filed;
      buyerQuote := GetWalletForUpdate(Key(Buyer(t), pair.quote));
      buyerBase := GetWalletForUpdate(Key(Buyer(t), pair.base));
      sellerBase := GetWalletForUpdate(Key(Seller(t), pair.base));
      sellerQuote := GetWalletForUpdate(Key(Seller(t), pair.quote));
    }

    method SettleTrade(pair: Pair, t: Trade) returns (r: Attempt<Trade>)
      requires Valid()
      modifies this, wallets.Values
      ensures Valid() && fresh(wallets.Values - old(wallets.Values))
      ensures match r
        case Ok(done) => done == t && Settle(old(View()), pair, t) == Ok(View())
        case Fail(f) => Settle(old(View()), pair, t) == Fail(f) && SameBalances(old(View()), View())
    {
      hide Mul, Vault.Log, Vault.Move, ReserveOk, Transfer, Touched, Database.View, SameBalances, Database.Valid,
           Database.Filed;
      ghost var v := View();
      var bq, bb := Key(Buyer(t), pair.quote), Key(Buyer(t), pair.base);
      var sb, sq := Key(Seller(t), pair.base), Key(Seller(t), pair.quote);
      var buyerQuote, buyerBase, sellerBase, sellerQuote := TradeWallets(pair, t);
      TouchFour(v, bq, bb, sb, sq);
      Reads(buyerQuote);
      Reads(sellerBase);
      LockedBy(v, View(), bq);
      LockedBy(v, View(), sb);
      var buyerDebit := t.quote + BuyerFee(t);
      if !ReserveOk(buyerQuote.locked, buyerDebit) {
        return Fail(BuyerReserve);
      }
      if !ReserveOk(sellerBase.locked, t.quantity) {
        return Fail(SellerReserve);
      }
      var baseDebit := Min(t.quantity, sellerBase.locked);
      buyerDebit := Min(buyerDebit, buyerQuote.locked);
      TransferTouched(v, pair, t, buyerDebit, baseDebit);
      Swap(pair, t, buyerQuote, buyerBase, sellerBase, sellerQuote, buyerDebit, baseDebit);
      r := Ok(t);
    }

    /** Debit, credit and log the four wallets of a trade, some of which may be one and the same. */
    method Swap(pair: Pair, t: Trade, buyerQuote: UserWallet, buyerBase: UserWallet, sellerBase: UserWallet,
                    sellerQuote: UserWallet, buyerDebit: real, baseDebit: real)
      requires Valid() && Filed(buyerQuote) && Filed(buyerBase) && Filed(sellerBase) && Filed(sellerQuote)
      requires Key(buyerQuote.user, buyerQuote.asset) == Key(Buyer(t), pair.quote)
      requires Key(buyerBase.user, buyerBase.asset) == Key(Buyer(t), pair.base)
      requires Key(sellerBase.user, sellerBase.asset) == Key(Seller(t), pair.base)
      requires Key(sellerQuote.user, sellerQuote.asset) == Key(Seller(t), pair.quote)
      modifies this`ledger, buyerQuote, buyerBase, sellerBase, sellerQuote
      ensures Valid() && View() == Transfer(old(View()), pair, t, buyerDebit, baseDebit)
    {
      hide Mul, Vault.Log, Vault.Move, Database.View;
      Update(buyerQuote, 0.0, -buyerDebit);
      Update(buyerBase, t.quantity, 0.0);
      Update(sellerBase, 0.0, -baseDebit);
      Update(sellerQuote, t.quote - SellerFee(t), 0.0);
      AddLedger(buyerQuote, TradeBuyQuote, buyerDebit, 0.0);
      AddLedger(buyerBase, TradeBuyBase, 0.0, t.quantity);
      AddLedger(sellerBase, TradeSellBase, t.quantity, 0.0);
      AddLedger(sellerQuote, TradeSellQuote, 0.0, t.quote - SellerFee(t));
    }
  }

  lemma Unchanged(v: Vault)
    ensures SameBalances(v, v)
  {
  }

  lemma LockedBy(v: Vault, v': Vault, k: Key)
    requires SameBalances(v, v')
    ensures v'.Locked(k) == v.Locked(k) && v'.Available(k) == v.Available(k)
    ensures v'.Get(k) == v.Get(k)
  {
  }

  ghost function Touched(v: Vault, a: Key, b: Key, c: Key, d: Key): Vault {
    Touch(Touch(Touch(Touch(v, a), b), c), d)
  }

  lemma TouchFour(v: Vault, a: Key, b: Key, c: Key, d: Key)
    ensures SameBalances(v, Touched(v, a, b, c, d))
  {
    hide Touch, Vault.Move;
    var t1 := Touch(v, a);
    var t2 := Touch(t1, b);
    TouchMoves(v, a, 0.0, 0.0);
    TouchMoves(t1, b, 0.0, 0.0);
    TouchMoves(t2, c, 0.0, 0.0);
    TouchMoves(Touch(t2, c), d, 0.0, 0.0);
  }

  /** Four balances moved, as a settlement moves them. */
  function Moves(v: Vault, bq: Key, bb: Key, sb: Key, sq: Key, w: real, x: real, y: real, z: real): Vault {
    v.Move(bq, 0.0, w).Move(bb, x, 0.0).Move(sb, 0.0, y).Move(sq, z, 0.0)
  }

  /** Making a wallet first changes nothing about moving it among others. */
  lemma MovesTouched(v: Vault, k: Key, bq: Key, bb: Key, sb: Key, sq: Key, w: real, x: real, y: real, z: real)
    requires k in {bq, bb, sb, sq}
    ensures Moves(Touch(v, k), bq, bb, sb, sq, w, x, y, z) == Moves(v, bq, bb, sb, sq, w, x, y, z)
  {
    hide Touch, Vault.Get;
    var v1 := v.Move(bq, 0.0, w);
    var v2 := v1.Move(bb, x, 0.0);
    var v3 := v2.Move(sb, 0.0, y);
    MovesOnTouched(v, k, bq, 0.0, w);
    MovesOnTouched(v1, k, bb, x, 0.0);
    MovesOnTouched(v2, k, sb, 0.0, y);
    MovesOnTouched(v3, k, sq, z, 0.0);
    TouchTwice(v3.Move(sq, z, 0.0), k);
  }

  lemma TransferTouched(v: Vault, pair: Pair, t: Trade, buyerDebit: real, baseDebit: real)
    ensures Transfer(Touched(v, Key(Buyer(t), pair.quote), Key(Buyer(t), pair.base), Key(Seller(t), pair.base),
                             Key(Seller(t), pair.quote)),
                     pair, t, buyerDebit, baseDebit)
         == Transfer(v, pair, t, buyerDebit, baseDebit)
  {
    hide Touch, Vault.Move, Vault.Log;
    var bq, bb := Key(Buyer(t), pair.quote), Key(Buyer(t), pair.base);
    var sb, sq := Key(Seller(t), pair.base), Key(Seller(t), pair.quote);
    var z, t1 := t.quote - SellerFee(t), Touch(v, bq);
    var t2 := Touch(t1, bb);
    var t3 := Touch(t2, sb);
    MovesTouched(v, bq, bq, bb, sb, sq, -buyerDebit, t.quantity, -baseDebit, z);
    MovesTouched(t1, bb, bq, bb, sb, sq, -buyerDebit, t.quantity, -baseDebit, z);
    MovesTouched(t2, sb, bq, bb, sb, sq, -buyerDebit, t.quantity, -baseDebit, z);
    MovesTouched(t3, sq, bq, bb, sb, sq, -buyerDebit, t.quantity, -baseDebit, z);
  }
}
