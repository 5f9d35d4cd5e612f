/** Solvency in every run of the exchange: every wallet's locked funds are exactly accounted for, so no
    settlement and no withdrawal is ever refused for lack of them. */
module ExchangeProofs {
  import opened Orders
  import opened Sums
  import opened Priority
  import opened Matching
  import opened EngineModel
  import opened EngineProofs
  import opened Wallets
  import opened PairRules
  import opened CopySizing
  import opened ExchangeModel
  import opened Accounting
  import opened Agreement
  import opened Matches
  import opened Filing

  const ANYONE := Key(0, 0)

  ghost predicate Inv(s: Exchange) {
    && BooksFit(s) && PairsOk(s.pairs)
    && StoreOk(s)
    && Accounted(s, [], 0.0, ANYONE)
  }

  lemma AccountedAnywhere(s: Exchange, a: Key, b: Key)
    requires Accounted(s, [], 0.0, a)
    ensures Accounted(s, [], 0.0, b)
  {
    hide Owed, Claims;
  }

  lemma NoClaims(pairs: seq<Pair>, rows: seq<Row>, k: Key)
    ensures Total(Claims(pairs, rows, [], k)) == 0.0
  {
  }

  // ----- reserving and releasing -----

  lemma ReserveEffect(v: Vault, pair: Pair, user: UserId, side: Side, quantity: real, price: real, quote: real,
                      fee: real,
                      k: Key)
    requires Reserve(v, pair, user, side, quantity, price, quote, fee).Ok?
    ensures var v' := Reserve(v, pair, user, side, quantity, price, quote, fee).value;
      var amount := ReserveAmount(side, quantity, price, quote, fee);
      && amount > 0.0
      && v'.Locked(k) == v.Locked(k) + (if k == Key(user, LockAsset(pair, side)) then amount else 0.0)
  {
    hide Wallets.Cost, Mul;
  }

  /** Releasing exactly the extra an account carries in a wallet settles the account. */
  lemma ReleaseSettles(s: Exchange, pair: Pair, user: UserId, side: Side, amount: real)
    requires StoreOk(s) && amount >= 0.0 && Accounted(s, [], amount, Key(user, LockAsset(pair, side)))
    ensures var s' := s.(vault := ReleaseAmount(s.vault, pair, user, side, amount));
      StoreOk(s') && Accounted(s', [], 0.0, ANYONE)
    ensures amount <= s.vault.Locked(Key(user, LockAsset(pair, side)))
  {
    hide Total, Fair, RowsOk, AllFair, Claims, Holds, Dues, Residues;
    var k0 := Key(user, LockAsset(pair, side));
    var s' := s.(vault := ReleaseAmount(s.vault, pair, user, side, amount));
    OwedSign(s, k0);
    NoClaims(s.pairs, s.rows, k0);
    assert s.vault.Locked(k0) >= amount;
    forall k ensures s'.vault.Locked(k) == Owed(s', k) + Total(Claims(s'.pairs, s'.rows, [], k))
                                           + (if k == ANYONE then 0.0 else 0.0)
    {
      assert s.vault.Locked(k) == Owed(s, k) + Total(Claims(s.pairs, s.rows, [], k))
        + (if k == k0 then amount else 0.0);
    }
  }

  // ----- matching an order whose reserve is locked -----

  /** A new stored order for a match about to be persisted. */
  ghost predicate RowFits(s: Exchange, p: nat, o: Order, row: Row) {
    && o.id == |s.rows|
    && row.user == o.user && row.pair == p && row.side == o.side && row.kind == o.kind && row.price == o.price
    && RowOk(s.pairs, row)
  }

  /** With a reserve of `reserve` in the taker's wallet, an account that was exact stays exact once the taker's
      row, its fills' claims and the rest still to release are counted. */
  lemma ReservedAccounted(s: Exchange, p: nat, o: Order, row: Row, fills: seq<Fill>, reserve: real, extra: real)
    requires p < |s.pairs| && StoreOk(s) && RowFits(s, p, o, row)
    requires var k := Key(o.user, LockAsset(s.pairs[p], o.side));
      && Accounted(s, [], reserve, k)
      && reserve == Hold(s.pairs, row, k) + ClaimOf(o, fills, s.pairs[p].takerFee) + extra
    ensures var s1 := s.(rows := s.rows + [row]);
      && StoreOk(s1)
      && Accounted(s1, TradesOf(fills, o, s.pairs[p].Fees()), extra, Key(o.user, LockAsset(s.pairs[p], o.side)))
  {
    hide Total, Fair, Claims, Holds, Dues, Residues, TradesOf, ClaimOf, Hold, RowOk;
    var s1, k0 := s.(rows := s.rows + [row]), Key(o.user, LockAsset(s.pairs[p], o.side));
    var t := TradesOf(fills, o, s.pairs[p].Fees());
    assert Extends(s.rows, s1.rows);
    ExtendsKeeps(s.pairs, s.rows, s1.rows, s.trades, k0);
    forall k ensures s1.vault.Locked(k) == Owed(s1, k) + Total(Claims(s1.pairs, s1.rows, t, k))
                                           + (if k == k0 then extra else 0.0)
    {
      ExtendsKeeps(s.pairs, s.rows, s1.rows, s.trades, k);
      HoldsAppend(s.pairs, s.rows, row, k);
      ClaimsTotal(s.pairs, s1.rows, p, o, fills, k);
      NoClaims(s.pairs, s.rows, k);
      HoldElsewhere(s.pairs, row, k);
      assert s.vault.Locked(k) == Owed(s, k) + Total(Claims(s.pairs, s.rows, [], k))
        + (if k == k0 then reserve else 0.0);
    }
  }

  lemma HoldElsewhere(pairs: seq<Pair>, r: Row, k: Key)
    ensures !HeldAt(pairs, r, k) ==> Hold(pairs, r, k) == 0.0
  {
  }

  /** An order matched in one go on a sound exchange is settled in full: nothing is refused and nothing clamped,
      and what remains is the extra to be released. */
  lemma MatchPersists(s: Exchange, p: nat, o: Order, row: Row, e': State, r: EngineModel.Result, reserve: real,
                      extra: real)
    requires p < |s.pairs| && PairsOk(s.pairs) && StoreOk(s) && BooksFit(s)
    requires RowFits(s, p, o, row) && Matched(s.books[p], e', o, r, r.fills, []) && extra >= 0.0
    requires o.kind.Limit? ==> o.price > 0.0
    requires var k := Key(o.user, LockAsset(s.pairs[p], o.side));
      && Accounted(s, [], reserve, k)
      && reserve == Hold(s.pairs, row, k) + ClaimOf(o, r.fills, s.pairs[p].takerFee) + extra
    ensures var s1 := Recorded(s, p, row, e'); var t := TradesOf(r.fills, o, s.pairs[p].Fees());
      var s2 := PersistExactly(s1, p, t);
      && Persist(s1, p, t) == Ok(s2)
      && s2 == s1.(vault := s2.vault, trades := s2.trades, rows := FillRows(s1.rows, t))
      && StoreOk(s2) && Accounted(s2, [], extra, Key(o.user, LockAsset(s.pairs[p], o.side)))
      && AllUnsettled(s1.pairs, s1.rows, p, t) && RowsOk(s1.pairs, s1.rows)
  {
    hide FillRows, TradesOf, Leftover, Greedy, Backs, BookSound, Persist, PersistExactly, AllUnsettled, ClaimOf, Hold,
         RowOk, Accounted, StoreOk, AfterLegs;
    var s1, t := Recorded(s, p, row, e'), TradesOf(r.fills, o, s.pairs[p].Fees());
    var at := Key(o.user, LockAsset(s.pairs[p], o.side));
    ReservedAccounted(s, p, o, row, r.fills, reserve, extra);
    SameAccount(s.(rows := s1.rows), s1, t, extra, at);
    StoreRows(s1);
    assert BookOk(s.rows, p, s.books[p]);
    SideOf(s.books[p], o.side.Opposite());
    FillsUnsettled(s.pairs, s.rows, p, o, row, s.books[p].Makers(o.side.Opposite()), r.fills);
    PersistAccounted(s1, p, t, extra, at);
  }

  lemma SameAccount(a: Exchange, b: Exchange, t: seq<Trade>, extra: real, at: Key)
    requires a.(books := b.books) == b && Accounted(a, t, extra, at) && StoreOk(a)
    ensures Accounted(b, t, extra, at) && StoreOk(b)
  {
    hide Claims, Holds, Dues, Residues, RowsOk, AllFair;
  }

  /** An exchange with an order's row stored and its pair's engine moved on, its trades not settled yet. */
  function Recorded(s: Exchange, p: nat, row: Row, e': State): Exchange
    requires p < |s.books|
  {
    s.(books := s.books[p := e'], rows := s.rows + [row])
  }

  /** How a call that matched an order came about.  From `s`, whose vault already holds the reserve, the trades of
      `r` settle without a clamp; and `extra` is released, all of it still locked. */
  ghost predicate Placed(s: Exchange, s': Exchange, p: nat, o: Order, row: Row, e': State, r: EngineModel.Result,
                         extra: real)
  {
    && p < |s.pairs| == |s.books|
    && var s1 := Recorded(s, p, row, e');
    var t := TradesOf(r.fills, o, s.pairs[p].Fees());
    var s2 := PersistExactly(s1, p, t);
    && AllUnsettled(s1.pairs, s1.rows, p, t) && RowsOk(s1.pairs, s1.rows)
    && s2 == s1.(vault := s2.vault, trades := s2.trades, rows := FillRows(s1.rows, t))
    && 0.0 <= extra <= s2.vault.Locked(Key(o.user, LockAsset(s.pairs[p], o.side)))
    && s' == s2.(vault := ReleaseAmount(s2.vault, s.pairs[p], o.user, o.side, extra))
  }

  lemma NothingReleased(v: Vault, pair: Pair, user: UserId, side: Side)
    ensures ReleaseAmount(v, pair, user, side, 0.0) == v
  {
  }

  lemma ReservedExtra(s: Exchange, v: Vault, amount: real, at: Key)
    requires Accounted(s, [], 0.0, ANYONE)
    requires forall k :: v.Locked(k) == s.vault.Locked(k) + (if k == at then amount else 0.0)
    ensures Accounted(s.(vault := v), [], amount, at)
    ensures StoreOk(s) ==> StoreOk(s.(vault := v))
  {
    hide Claims, Holds, Dues, Residues, RowsOk, AllFair, Total;
  }

  // ----- entering a limit order -----

  /** What a limit order reserves is what its row holds and its fills claim. */
  lemma LimitReserve(pairs: seq<Pair>, p: nat, o: Order, r: EngineModel.Result)
    requires p < |pairs| && Incoming(o) && o.kind.Limit? && LimitShape(o, r)
    requires r.taker.user == o.user && r.taker.side == o.side && r.taker.kind == o.kind && r.taker.price == o.price
    ensures var row := RowOf(p, r.taker, KeptBack(o, r)); var fee := pairs[p].takerFee;
      var k := Key(o.user, LockAsset(pairs[p], o.side));
      Lockup(o.side, o.price, o.quantity, fee) == Hold(pairs, row, k) + ClaimOf(o, r.fills, fee)
  {
    hide Lockup, FillTotal, KeptBack;
    LockupAdd(o.side, o.price, o.quantity - FillTotal(r.fills), FillTotal(r.fills), pairs[p].takerFee);
  }

  lemma LimitRowFits(s: Exchange, p: nat, o: Order, r: EngineModel.Result)
    requires p < |s.pairs| && PairsOk(s.pairs) && o.id == |s.rows| && Incoming(o) && o.kind.Limit? && LimitShape(o, r)
    requires r.taker.user == o.user && r.taker.side == o.side && r.taker.kind == o.kind && r.taker.price == o.price
    ensures RowFits(s, p, o, RowOf(p, r.taker, KeptBack(o, r)))
  {
    hide FillTotal, KeptBack;
  }

  function Reserved(s: Exchange, p: nat, o: Order): Attempt<Vault>
    requires p < |s.pairs|
  {
    Reserve(s.vault, s.pairs[p], o.user, o.side, o.quantity, o.price, 0.0, s.pairs[p].takerFee)
  }

  /** Entering a limit order keeps the account exact, and no settlement is refused. */
  lemma EnterInv(s: Exchange, p: nat, o: Order) returns (row: Row, e': State, r: EngineModel.Result)
    requires Inv(s) && p < |s.books| && Incoming(o) && o.kind.Limit? && o.id == |s.rows|
    ensures var (s', reply) := Enter(s, p, o);
      && reply != InvariantViolated
      && (reply.Done? ==> Inv(s') && Reserved(s, p, o).Ok?
                          && Filed(s, s', p, o, row, e', r, r.fills, []) && row == RowOf(p, r.taker, KeptBack(o, r))
                          && Placed(s.(vault := Reserved(s, p, o).value), s', p, o, row, e', r, 0.0))
  {
    hide TradesOf, Leftover, Greedy, BookSound, Persist, PersistExactly, AllUnsettled, ClaimOf, Hold, Lockup,
         Accounted, StoreOk, Process, KeptBack, LimitShape, BooksOk, ReleaseAmount, FillRows, Matched, Reserve, Filed,
         RowsOk, RowFits, Incoming;
    var e, pair := s.books[p], s.pairs[p];
    BookAt(s, p);
    IdNotResting(s, p);
    LimitMatches(e, o) by { BookHeld(s.rows, p, e); }
    var made := Process(e, o, false);
    e', r := made.0, made.1;
    row := RowOf(p, r.taker, KeptBack(o, r));
    if Reserved(s, p, o).Ok? {
      var s0 := s.(vault := Reserved(s, p, o).value);
      LimitFunded(s, p, o);
      TakerTerms(e, e', o, r, r.fills, []);
      LimitReserve(s.pairs, p, o, r);
      LimitRowFits(s0, p, o, r);
      LimitPriced(o);
      MatchPersists(s0, p, o, row, e', r, Lockup(o.side, o.price, o.quantity, pair.takerFee), 0.0);
      var s2 := PersistExactly(Recorded(s0, p, row, e'), p, TradesOf(r.fills, o, pair.Fees()));
      assert Enter(s, p, o) == (s2, Done);
      var again, e1, r1 := EnterFiled(s, p, o);
      FiledFits(s, s2, p, o, row, e', r, r.fills, []);
      AccountedAnywhere(s2, Key(o.user, LockAsset(pair, o.side)), ANYONE);
      NothingReleased(s2.vault, pair, o.user, o.side);
      LockedSome(s2, Key(o.user, LockAsset(pair, o.side)));
    }
  }

  lemma BookHeld(rows: seq<Row>, p: nat, e: State)
    requires BookOk(rows, p, e)
    ensures BookSound(e) && NoStopsHeld(e)
  {
  }

  lemma LimitPriced(o: Order)
    requires Incoming(o) && o.kind.Limit?
    ensures o.price > 0.0 && o.quantity > 0.0
  {
  }

  lemma LockedSome(s: Exchange, k: Key)
    requires StoreOk(s) && Accounted(s, [], 0.0, ANYONE)
    ensures s.vault.Locked(k) == Owed(s, k) >= 0.0
  {
    hide Total, Holds, Residues, Dues, RowsOk, AllFair, Claims;
    OwedSign(s, k);
    NoClaims(s.pairs, s.rows, k);
    assert s.vault.Locked(k) == Owed(s, k) + Total(Claims(s.pairs, s.rows, [], k)) + (if k == ANYONE then 0.0 else 0.0);
  }

  /** With its reserve locked, a limit order is all the account has extra. */
  lemma LimitFunded(s: Exchange, p: nat, o: Order)
    requires Inv(s) && p < |s.pairs| && Reserved(s, p, o).Ok?
    ensures var s0 := s.(vault := Reserved(s, p, o).value);
      && StoreOk(s0) && BooksFit(s0)
      && Accounted(s0, [], Lockup(o.side, o.price, o.quantity, s.pairs[p].takerFee),
                    Key(o.user, LockAsset(s.pairs[p], o.side)))
  {
    hide Accounted, StoreOk, BooksOk, Reserve, Lockup;
    var pair := s.pairs[p];
    forall k
      ensures Reserved(s, p, o).value.Locked(k) == s.vault.Locked(k)
        + (if k == Key(o.user, LockAsset(pair, o.side))
          then Lockup(o.side, o.price, o.quantity, pair.takerFee) else 0.0)
    {
      ReserveEffect(s.vault, pair, o.user, o.side, o.quantity, o.price, 0.0, pair.takerFee, k);
    }
    ReservedExtra(s, Reserved(s, p, o).value, Lockup(o.side, o.price, o.quantity, pair.takerFee),
                  Key(o.user, LockAsset(pair, o.side)));
  }

  // ----- rows that let go -----

  ghost predicate Frees(pairs: seq<Pair>, row: Row, row': Row, amount: real)
    requires row.pair < |pairs|
  {
    forall k ::
      Hold(pairs, row, k) == Hold(pairs, row', k)
        + (if k == Key(row.user, LockAsset(pairs[row.pair], row.side)) then amount else 0.0)
  }

  /** A row that holds `amount` less in its own wallet, and the same elsewhere, leaves `amount` to release. */
  lemma RowFreed(s: Exchange, id: OrderId, row: Row, amount: real)
    requires StoreOk(s) && Accounted(s, [], 0.0, ANYONE) && id < |s.rows| && RowOk(s.pairs, row)
    requires SameTerms(s.rows[id], row) && row.pair < |s.pairs|
    requires Frees(s.pairs, s.rows[id], row, amount)
    ensures var s1 := s.(rows := s.rows[id := row]);
      StoreOk(s1) && Accounted(s1, [], amount, Key(row.user, LockAsset(s.pairs[row.pair], row.side)))
  {
    hide Total, Holds, Residues, Claims, Dues, Fair, Lockup, AllFair, RowOk, Hold;
    var s1, k0 := s.(rows := s.rows[id := row]), Key(row.user, LockAsset(s.pairs[row.pair], row.side));
    assert Extends(s.rows, s1.rows);
    ExtendsKeeps(s.pairs, s.rows, s1.rows, s.trades, k0);
    forall k ensures s1.vault.Locked(k) == Owed(s1, k) + Total(Claims(s1.pairs, s1.rows, [], k))
                                           + (if k == k0 then amount else 0.0)
    {
      ExtendsKeeps(s.pairs, s.rows, s1.rows, s.trades, k);
      HoldsUpdate(s.pairs, s.rows, id, row, k);
      NoClaims(s.pairs, s.rows, k);
      NoClaims(s1.pairs, s1.rows, k);
      assert s.vault.Locked(k) == Owed(s, k) + Total(Claims(s.pairs, s.rows, [], k))
        + (if k == ANYONE then 0.0 else 0.0);
    }
  }

  /** A finished limit order that keeps back exactly its rest. */
  predicate KeepsRest(s: Exchange, p: nat, id: OrderId) {
    && id < |s.rows| && s.rows[id].pair == p && s.rows[id].kind.Limit?
    && (s.rows[id].status.Terminal() ==> s.rows[id].hidden == s.rows[id].quantity - s.rows[id].filled)
  }

  function FinishAmount(s: Exchange, p: nat, id: OrderId): real
    requires p < |s.pairs| && id < |s.rows|
  {
    var row := s.rows[id];
    Lockup(row.side, row.price, row.quantity - row.filled, s.pairs[p].takerFee)
  }

  /** Finishing a limit order releases exactly what its row kept back, all of it still locked. */
  lemma FinishInv(s: Exchange, p: nat, id: OrderId)
    requires Inv(s) && p < |s.pairs| && KeepsRest(s, p, id)
    ensures Inv(Finish(s, p, id))
    ensures s.rows[id].status.Terminal() ==>
      0.0 <= FinishAmount(s, p, id) <= s.vault.Locked(Key(s.rows[id].user, LockAsset(s.pairs[p], s.rows[id].side)))
  {
    hide Accounted, StoreOk, BooksOk, ReleaseAmount, Lockup, RowOk;
    var row, pair := s.rows[id], s.pairs[p];
    if row.status.Terminal() {
      var row' := row.(hidden := 0.0);
      RowAt(s, id);
      RowKept(s.pairs, row, row', FinishAmount(s, p, id));
      RowFreed(s, id, row', FinishAmount(s, p, id));
      HiddenFits(s, id, 0.0);
      var s1 := s.(rows := s.rows[id := row']);
      ReleaseSettles(s1, pair, row.user, row.side, FinishAmount(s, p, id));
    }
  }

  lemma RowKept(pairs: seq<Pair>, row: Row, row': Row, amount: real)
    requires RowOk(pairs, row) && row.kind.Limit? && row.status.Terminal() && row' == row.(hidden := 0.0)
    requires row.hidden == row.quantity - row.filled
    requires amount == Lockup(row.side, row.price, row.quantity - row.filled, pairs[row.pair].takerFee)
    ensures RowOk(pairs, row') && amount >= 0.0
    ensures Frees(pairs, row, row', amount)
  {
    hide Lockup;
    LockupSign(row.side, row.price, row.quantity - row.filled, pairs[row.pair].takerFee);
    LockupAdd(row.side, row.price, 0.0, 0.0, pairs[row.pair].takerFee);
  }

  // ----- placing a limit order -----

  lemma KeptBackAt(s: Exchange, p: nat, id: OrderId, o: Order, r: EngineModel.Result)
    requires id < |s.rows| && s.rows[id] == RowOf(p, r.taker, KeptBack(o, r)) && r.taker.kind.Limit?
    ensures KeepsRest(s, p, id)
  {
  }

  /** The account says nothing of empty wallets. */
  lemma SameBalancesInv(s: Exchange, s': Exchange)
    requires Inv(s) && s' == s.(vault := s'.vault) && SameBalances(s.vault, s'.vault)
    ensures Inv(s')
  {
    hide BooksOk, Claims, Holds, Dues, Residues, Total, RowsOk, AllFair;
    forall k ensures s'.vault.Locked(k) == s.vault.Locked(k) && Owed(s', k) == Owed(s, k) {
      assert s'.vault.Get(k) == s.vault.Get(k);
    }
  }

  lemma CopyOneInv(s: Exchange, p: nat, leader: Row, tif: TimeInForce, rel: Relation)
    requires Inv(s) && p < |s.books| && leader.price > 0.0
    ensures var (s', reply) := CopyOne(s, p, leader, tif, rel); reply.Done? && Inv(s')
  {
    hide Enter, Finish, Inv, Cap, FloorToStep, Filed, Placed, KeptBack, Asked, SameBalances;
    InvParts(s);
    var pair := s.pairs[p];
    var size := CopyQuantity(leader.quantity, leader.price, rel.allocation, rel.maxPosition, pair.minQty, pair.maxQty,
                             pair.minNotional, pair.stepSize);
    if size.Some? {
      var o := LimitOrder(s, rel.follower, leader.side, leader.price, size.value, tif, 0.0);
      var row, e', r := EnterInv(s, p, o);
      if Enter(s, p, o).1.Done? {
        var s1 := Enter(s, p, o).0;
        FiledOnward(s, s1, p, o, row, e', r, r.fills, []);
        FiledTaker(s, s1, p, o, row, e', r);
        KeptBackAt(s1, p, |s.rows|, o, r);
        FinishInv(s1, p, |s.rows|);
      } else if rel.leader == leader.user && rel.active {
        AskedSame(s.vault, pair, rel.follower, leader.side, size.value, leader.price, 0.0, pair.takerFee);
        SameBalancesInv(s, CopyOne(s, p, leader, tif, rel).0);
      }
    }
  }

  lemma InvParts(s: Exchange)
    requires Inv(s)
    ensures BooksFit(s) && |s.books| == |s.pairs| && WithdrawalsOk(s.withdrawals) && RowsOk(s.pairs, s.rows)
  {
  }

  lemma FiledTaker(s: Exchange, s': Exchange, p: nat, o: Order, row: Row, e': State, r: EngineModel.Result)
    requires Filed(s, s', p, o, row, e', r, r.fills, [])
    ensures r.taker.kind == o.kind && o.id == |s.rows|
  {
  }

  lemma {:induction false} CopiesInv(s: Exchange, p: nat, leader: Row, tif: TimeInForce, relations: seq<Relation>)
    requires Inv(s) && p < |s.books| && leader.price > 0.0
    ensures var (s', reply) := Copies(s, p, leader, tif, relations); reply.Done? && Inv(s')
    decreases |relations|
  {
    hide CopyOne, Inv;
    InvParts(s);
    if relations == [] {
    } else {
      CopyOneInv(s, p, leader, tif, relations[0]);
      CopiesInv(CopyOne(s, p, leader, tif, relations[0]).0, p, leader, tif, relations[1..]);
    }
  }

  /** Placing a limit order, with all its followers' copies, keeps the account exact, and neither the order nor a
      copy is refused in settlement. */
  lemma PlaceLimitInv(s: Exchange, ev: Event)
    requires Inv(s) && ev.PlaceLimit?
    ensures var (s', reply) := PlaceLimitOrder(s, ev); reply != InvariantViolated && Inv(s')
  {
    hide Enter, Copies, Finish, Inv, QuantityRules, PriceRules, Filed, Placed, KeptBack;
    if LimitAccepted(s, ev) {
      InvParts(s);
      var p, o := ev.pair, Entering(s, ev);
      var row, e', r := EnterInv(s, p, o);
      if Enter(s, p, o).1.Done? {
        var s1 := Enter(s, p, o).0;
        FiledOnward(s, s1, p, o, row, e', r, r.fills, []);
        TakerPrice(s, s1, p, o, row, e', r);
        CopiesInv(s1, p, row, ev.tif, s.relations);
        var s2 := Copies(s1, p, row, ev.tif, s.relations).0;
        CopiesOwnSide(s1, p, row, ev.tif, s.relations, |s.rows|);
        FiledTaker(s, s1, p, o, row, e', r);
        KeptBackAt(s2, p, |s.rows|, o, r);
        FinishInv(s2, p, |s.rows|);
      }
    }
  }

  // ----- market orders -----

  /** The part of a market order's reserve that comes back. */
  ghost function MarketExtra(pair: Pair, o: Order, fills: seq<Fill>): real {
    if o.side.Buy? then Mul(o.quote - FillWorth(fills), 1.0 + pair.takerFee) else o.quantity - FillTotal(fills)
  }

  lemma MarketReserve(s: Exchange, p: nat, o: Order, fills: seq<Fill>, row: Row)
    requires p < |s.pairs| && PairsOk(s.pairs) && o.kind.Market? && o.price == 0.0 && o.id == |s.rows|
    requires if o.side.Buy? then o.quantity == 0.0 && 0.0 <= FillWorth(fills) <= o.quote
             else 0.0 <= FillTotal(fills) <= o.quantity
    requires row.user == o.user && row.pair == p && row.side == o.side && row.kind == o.kind && row.price == o.price
    requires row.hidden == 0.0 && 0.0 <= row.filled <= row.quantity
    ensures RowFits(s, p, o, row) && MarketExtra(s.pairs[p], o, fills) >= 0.0
    ensures var k := Key(o.user, LockAsset(s.pairs[p], o.side));
      (if o.side.Buy? then Mul(o.quote, 1.0 + s.pairs[p].takerFee) else o.quantity)
        == Hold(s.pairs, row, k) + ClaimOf(o, fills, s.pairs[p].takerFee) + MarketExtra(s.pairs[p], o, fills)
  {
    hide FillTotal, FillWorth, Mul;
    var fee := s.pairs[p].takerFee;
    MulSum(1.0 + fee, o.quote, FillWorth(fills));
    MulSign(o.quote - FillWorth(fills), 1.0 + fee);
    MulZero(0.0);
    MulZero(1.0 + fee);
  }

  lemma MarketInv(s0: Exchange, p: nat, o: Order, reference: real)
    returns (row: Row, e': State, r: EngineModel.Result, extra: real)
    requires p < |s0.pairs| && PairsOk(s0.pairs) && StoreOk(s0) && BooksFit(s0) && o.id == |s0.rows|
    requires Incoming(o) && o.kind.Market? && o.price == 0.0 && o.tif != Fok
    requires if o.side.Buy? then o.quantity == 0.0 && o.quote > 0.0 else o.quantity > 0.0
    requires Single(s0.books[p].Makers(o.side.Opposite()), o)
    requires Accounted(s0, [], if o.side.Buy? then Mul(o.quote, 1.0 + s0.pairs[p].takerFee) else o.quantity,
                       Key(o.user, LockAsset(s0.pairs[p], o.side)))
    ensures var (s', reply) := MatchMarketOrder(s0, p, o, reference);
      && reply.Done? && StoreOk(s') && Accounted(s', [], 0.0, ANYONE) && Placed(s0, s', p, o, row, e', r, extra)
      && s'.pairs == s0.pairs && (e', r) == Process(s0.books[p], o, false)
  {
    hide TradesOf, Leftover, Greedy, Persist, PersistExactly, AllUnsettled, ClaimOf, Hold, Mul, FillTotal, FillWorth,
         Accounted, StoreOk, Process, BooksOk, ReleaseAmount, MarketExtra, FillRows, Matched, Single, RowsOk, SpendsOn;
    var e, pair := s0.books[p], s0.pairs[p];
    BookAt(s0, p);
    IdNotResting(s0, p);
    var a, b := MarketMatches(e, o);
    var made := Process(e, o, false);
    e', r := made.0, made.1;
    TakerTerms(e, e', o, r, a, b);
    SingleIs(e, o, e', r, a, b);
    var taker :=
      if o.side.Buy? then r.taker.(filled := FillTotal(r.fills), quantity := FillTotal(r.fills)) else r.taker;
    row := RowOf(p, taker, 0.0);
    MarketAmounts(e.Makers(o.side.Opposite()), o, r);
    MarketReserve(s0, p, o, r.fills, row);
    extra := MarketExtra(pair, o, r.fills);
    MatchPersists(s0, p, o, row, e', r, if o.side.Buy? then Mul(o.quote, 1.0 + pair.takerFee) else o.quantity, extra);
    var s2 := PersistExactly(Recorded(s0, p, row, e'), p, TradesOf(r.fills, o, pair.Fees()));
    ReleaseSettles(s2, pair, o.user, o.side, extra);
    MarketRelease(s2.vault, pair, o, taker, reference, r.fills);
  }

  lemma SingleIs(e: State, o: Order, e': State, r: EngineModel.Result, a: seq<Fill>, b: seq<Fill>)
    requires Matched(e, e', o, r, a, b) && b == []
    ensures Matched(e, e', o, r, r.fills, [])
  {
    assert a + [] == a;
  }

  lemma MarketAmounts(makers: seq<Order>, o: Order, r: EngineModel.Result)
    requires Single(makers, o) && (o.quantity > 0.0 ==> (FillTotal(r.fills) <= o.quantity <==> !SpendsOn(makers, o)))
    requires r.taker == MarketTaker(o, FillTotal(r.fills)) && 0.0 <= FillTotal(r.fills) && o.quantity >= 0.0
    requires o.filled == 0.0
    ensures o.quantity > 0.0 ==> FillTotal(r.fills) <= o.quantity && r.taker.filled == FillTotal(r.fills)
    ensures r.taker.quantity == o.quantity
  {
    hide SpendsOn, FillTotal;
  }

  /** What the market endpoint releases is exactly the extra. */
  lemma MarketRelease(v: Vault, pair: Pair, o: Order, taker: Order, reference: real, fills: seq<Fill>)
    requires o.side.Buy? ==> FillWorth(fills) <= o.quote
    requires o.side.Sell? ==> taker.Remaining() == o.quantity - FillTotal(fills)
    ensures var unspent := o.quote - FillWorth(fills);
      ReleaseAmount(v, pair, o.user, o.side, MarketExtra(pair, o, fills))
        == if o.side.Buy? then ReleaseQuote(v, pair, o.user, if unspent > 0.0 then unspent else 0.0, pair.takerFee)
           else Release(v, pair, o.user, o.side, taker.Remaining(), reference, pair.takerFee)
  {
    hide Mul, FillTotal, FillWorth, ReleaseAmount;
  }

  /** With its reserve locked, a market order is all the account has extra. */
  lemma MarketFunded(s: Exchange, ev: Event)
    requires Inv(s) && ev.PlaceMarket? && MarketAccepted(s, ev) && MarketReserved(s, ev).Ok?
    ensures var s0 := s.(vault := MarketReserved(s, ev).value); var fee := s.pairs[ev.pair].takerFee;
      && StoreOk(s0) && BooksFit(s0)
      && Accounted(s0, [], if ev.side.Buy? then Mul(ev.quote, 1.0 + fee) else ev.quantity,
                   Key(ev.user, LockAsset(s.pairs[ev.pair], ev.side)))
  {
    hide Accounted, StoreOk, BooksOk, Reserve, Lockup, Mul, BestPrice, QuantityRules;
    var pair, reference := s.pairs[ev.pair], BestPrice(s.books[ev.pair], ev.side.Opposite());
    var quantity := if ev.quantity > 0.0 then ev.quantity else ev.quote / reference;
    var amount := ReserveAmount(ev.side, quantity, reference, ev.quote, pair.takerFee);
    var v := MarketReserved(s, ev).value;
    forall k
      ensures v.Locked(k) == s.vault.Locked(k) + (if k == Key(ev.user, LockAsset(pair, ev.side)) then amount else 0.0)
    {
      ReserveEffect(s.vault, pair, ev.user, ev.side, quantity, reference, ev.quote, pair.takerFee, k);
    }
    SellLockup(reference, quantity, pair.takerFee);
    ReservedExtra(s, v, amount, Key(ev.user, LockAsset(pair, ev.side)));
  }

  lemma SellLockup(price: real, quantity: real, fee: real)
    ensures Lockup(Sell, price, quantity, fee) == quantity
  {
  }

  /** A market sell that goes on to spend a budget beyond the quantity it reserved. */
  ghost predicate Oversells(s: Exchange, ev: Event) {
    && ev.PlaceMarket? && ev.side.Sell? && MarketAccepted(s, ev) && MarketReserved(s, ev).Ok?
    && Depth(s.books[ev.pair].bids) > ev.quantity && ev.quote > FirstWorth(s.books[ev.pair].bids, ev.quantity)
  }

  lemma MarketSingle(s: Exchange, ev: Event)
    requires ev.PlaceMarket? && MarketAccepted(s, ev) && MarketReserved(s, ev).Ok? && !Oversells(s, ev)
    ensures Single(s.books[ev.pair].Makers(ev.side.Opposite()), MarketOrder(s, ev))
  {
    hide Depth, FirstWorth, Reserve, BestPrice, QuantityRules;
  }

  /** Placing a market order that does not oversell keeps the account exact, and no settlement is refused. */
  lemma PlaceMarketInv(s: Exchange, ev: Event)
    returns (o: Order, row: Row, e': State, r: EngineModel.Result, extra: real)
    requires Inv(s) && ev.PlaceMarket? && !Oversells(s, ev)
    ensures var (s', reply) := PlaceMarketOrder(s, ev);
      && reply != InvariantViolated && Inv(s')
      && (reply.Done? ==> MarketAccepted(s, ev) && MarketReserved(s, ev).Ok? && o == MarketOrder(s, ev)
                          && (e', r) == Process(s.books[ev.pair], o, false)
                          && Placed(s.(vault := MarketReserved(s, ev).value), s', ev.pair, o, row, e', r, extra))
  {
    hide Accounted, StoreOk, BooksOk, MatchMarketOrder, Reserve, QuantityRules, Lockup, Mul, BestPrice, Placed, Single,
         Depth, FirstWorth, Filed, Process, MarketTaker, FillTotal;
    o := MarketOrder(s, ev);
    row, e', r, extra := RowOf(0, o, 0.0), EmptyState, EngineModel.Result(o, [], 0.0), 0.0;
    if MarketAccepted(s, ev) && MarketReserved(s, ev).Ok? {
      var reference := BestPrice(s.books[ev.pair], ev.side.Opposite());
      MarketFunded(s, ev);
      MarketSingle(s, ev);
      row, e', r, extra := MarketInv(s.(vault := MarketReserved(s, ev).value), ev.pair, o, reference);
      PlaceMarketOnward(s, ev);
      OnwardFits(s, PlaceMarketOrder(s, ev).0);
    }
  }

  // ----- cancelling -----

  /** What a cancel asks to have released. */
  function CancelAsks(s: Exchange, id: OrderId): real
    requires id < |s.rows| && s.rows[id].pair < |s.pairs|
  {
    var row := s.rows[id];
    Lockup(row.side, row.price, row.quantity - row.filled, s.pairs[row.pair].takerFee)
  }

  /** A cancel of an order that had its rest released when it was placed. */
  predicate ReleasesTwice(s: Exchange, ev: Event) {
    && ev.CancelOrder? && Cancellable(s, ev.user, ev.id)
    && !s.rows[ev.id].kind.Limit? && CancelAsks(s, ev.id) > 0.0
  }

  /** The row of an order being cancelled holds less by what the cancel asks for, if it is a limit order, and no
      less otherwise. */
  lemma CancelRow(s: Exchange, user: UserId, id: OrderId)
    requires StoreOk(s) && Cancellable(s, user, id)
    ensures var row := s.rows[id]; var amount := if row.kind.Limit? then CancelAsks(s, id) else 0.0;
      && RowOk(s.pairs, row.(status := Cancelled)) && amount >= 0.0
      && Frees(s.pairs, row, row.(status := Cancelled), amount)
  {
    hide Lockup, AllFair, RowsOk;
    var row := s.rows[id];
    RowAt(s, id);
    LockupSign(row.side, row.price, row.quantity - row.filled, s.pairs[row.pair].takerFee);
    LockupAdd(row.side, row.price, row.quantity - row.filled, row.hidden, s.pairs[row.pair].takerFee);
  }

  /** Cancelling a limit order, or an order with nothing to ask for, releases exactly what its row held, all of it
      still locked. */
  lemma CancelInv(s: Exchange, user: UserId, id: OrderId)
    requires Inv(s) && !ReleasesTwice(s, CancelOrder(user, id))
    ensures Inv(CancelStored(s, user, id).0) && CancelStored(s, user, id).1 != InvariantViolated
    ensures Cancellable(s, user, id) && CancelAsks(s, id) > 0.0 ==>
      CancelAsks(s, id) <= s.vault.Locked(Key(s.rows[id].user, LockAsset(s.pairs[s.rows[id].pair], s.rows[id].side)))
  {
    hide Accounted, StoreOk, BooksOk, ReleaseAmount, Lockup, RowOk, Hold, Cancel;
    if Cancellable(s, user, id) {
      var row, pair := s.rows[id], s.pairs[s.rows[id].pair];
      var row' := row.(status := Cancelled);
      CancelFits(s, user, id);
      CancelRow(s, user, id);
      var amount := if row.kind.Limit? then CancelAsks(s, id) else 0.0;
      RowFreed(s, id, row', amount);
      var s1 := s.(books := s.books[row.pair := Cancel(s.books[row.pair], id)], rows := s.rows[id := row']);
      SameAccount(s.(rows := s1.rows), s1, [], amount, Key(row.user, LockAsset(pair, row.side)));
      ReleaseSettles(s1, pair, user, row.side, amount);
      NothingAsked(s.vault, pair, user, row.side, CancelAsks(s, id));
      NothingReleased(s.vault, pair, user, row.side);
    }
  }

  lemma NothingAsked(v: Vault, pair: Pair, user: UserId, side: Side, amount: real)
    ensures amount <= 0.0 ==> ReleaseAmount(v, pair, user, side, amount) == v
  {
  }

  // ----- deposits and withdrawals -----

  lemma VaultMoved(s: Exchange, s': Exchange, k0: Key, delta: real)
    requires Inv(s) && s' == s.(vault := s'.vault, withdrawals := s'.withdrawals, deposits := s'.deposits)
    requires WithdrawalsOk(s'.withdrawals)
    requires forall k :: s'.vault.Locked(k) == s.vault.Locked(k) + (if k == k0 then delta else 0.0)
    requires forall k :: Total(Dues(s'.withdrawals, k))
                      == Total(Dues(s.withdrawals, k)) + (if k == k0 then delta else 0.0)
    ensures Inv(s')
  {
    hide Total, Holds, Residues, Claims, Dues, BooksOk, RowsOk, AllFair;
    forall k ensures s'.vault.Locked(k) == Owed(s', k) + Total(Claims(s'.pairs, s'.rows, [], k))
                                           + (if k == ANYONE then 0.0 else 0.0)
    {
      assert s.vault.Locked(k) == Owed(s, k) + Total(Claims(s.pairs, s.rows, [], k))
        + (if k == ANYONE then 0.0 else 0.0);
    }
  }

  lemma DepositInv(s: Exchange, ev: Event)
    requires Inv(s) && (ev.MakeDeposit? || ev.ConfirmDeposit?)
    ensures Inv(Step(s, ev).0) && Step(s, ev).1 != InvariantViolated
  {
    hide Inv, Total, Dues;
    InvWithdrawals(s);
    var s' := Step(s, ev).0;
    VaultMoved(s, s', ANYONE, 0.0);
  }

  lemma InvWithdrawals(s: Exchange)
    requires Inv(s)
    ensures WithdrawalsOk(s.withdrawals) && |s.books| == |s.pairs|
  {
  }

  /** A live withdrawal's amount is still locked, so completing it is never refused and calling it off
      returns all of it. */
  lemma WithdrawalLocked(s: Exchange, id: nat)
    requires Inv(s) && id < |s.withdrawals| && s.withdrawals[id].status.Live()
    ensures s.vault.Locked(s.withdrawals[id].key) >= s.withdrawals[id].amount > 0.0
  {
    hide Total, Holds, Residues, Claims, Dues, BooksOk, RowsOk, AllFair;
    var k := s.withdrawals[id].key;
    OwedSign(s, k);
    NoClaims(s.pairs, s.rows, k);
    assert s.vault.Locked(k) == Owed(s, k) + Total(Claims(s.pairs, s.rows, [], k)) + (if k == ANYONE then 0.0 else 0.0);
    assert Due(s.withdrawals[id], k) == s.withdrawals[id].amount;
  }

  lemma RequestInv(s: Exchange, ev: Event)
    requires Inv(s) && ev.RequestWithdrawal?
    ensures Inv(Request(s, ev).0)
  {
    hide Inv, Total, Dues;
    InvWithdrawals(s);
    var s' := Request(s, ev).0;
    if s' != s {
      var w := s'.withdrawals[|s.withdrawals|];
      forall k { DuesAppend(s.withdrawals, w, k); }
      VaultMoved(s, s', w.key, ev.amount);
    }
  }

  /** A withdrawal that moves on, and what its wallet has locked less if it is over. */
  lemma WithdrawalMoved(s: Exchange, s': Exchange, id: nat, w': Withdrawal)
    requires Inv(s) && id < |s.withdrawals| && s'.withdrawals == s.withdrawals[id := w']
    requires w' == s.withdrawals[id].(status := w'.status) && s.withdrawals[id].status.Live()
    requires s' == s.(vault := s'.vault, withdrawals := s'.withdrawals)
    requires forall k ::
      s'.vault.Locked(k) == s.vault.Locked(k) - (if k == w'.key && !w'.status.Live() then w'.amount else 0.0)
    ensures Inv(s')
  {
    hide Inv, Total, Dues, Vault.Locked;
    InvWithdrawals(s);
    forall k { DuesUpdate(s.withdrawals, id, w', k); }
    VaultMoved(s, s', w'.key, if w'.status.Live() then 0.0 else -w'.amount);
  }

  lemma WithdrawalInv(s: Exchange, ev: Event)
    requires Inv(s)
    requires ev.RequestWithdrawal? || ev.ApproveWithdrawal? || ev.BroadcastWithdrawal?
          || ev.CancelWithdrawal? || ev.CompleteWithdrawal?
    ensures Inv(Step(s, ev).0) && Step(s, ev).1 != InvariantViolated
  {
    hide Inv;
    if ev.RequestWithdrawal? {
      RequestInv(s, ev);
    } else if ev.id < |s.withdrawals| && s.withdrawals[ev.id].status.Live() {
      WithdrawalLocked(s, ev.id);
      var s' := Step(s, ev).0;
      if s' != s { WithdrawalMoved(s, s', ev.id, s'.withdrawals[ev.id]); }
    }
  }

  // ----- every run -----

  /** The calls the account survives. */
  ghost predicate Admissible(s: Exchange, ev: Event) {
    !Oversells(s, ev) && !ReleasesTwice(s, ev)
  }

  /** Solvency, one call: the account stays exact, and no settlement or withdrawal is refused for lack of
      locked funds. */
  lemma StepInv(s: Exchange, ev: Event)
    requires Inv(s) && Admissible(s, ev)
    ensures Inv(Step(s, ev).0) && Step(s, ev).1 != InvariantViolated
  {
    hide Inv, PlaceLimitOrder, PlaceMarketOrder, CancelStored, Oversells, ReleasesTwice;
    InvWithdrawals(s);
    match ev
    case PlaceLimit(_, _, _, _, _, _, _) => PlaceLimitInv(s, ev);
    case PlaceMarket(_, _, _, _, _) => var _, _, _, _, _ := PlaceMarketInv(s, ev);
    case CancelOrder(user, id) => CancelInv(s, user, id);
    case MakeDeposit(_, _, _, _) => DepositInv(s, ev);
    case ConfirmDeposit(_, _, _) => DepositInv(s, ev);
    case _ => WithdrawalInv(s, ev);
  }

  /** Runs of admissible calls. */
  ghost predicate Allowed(s: Exchange, evs: seq<Event>)
    decreases |evs|
  {
    evs != [] ==> Admissible(s, evs[0]) && Allowed(Step(s, evs[0]).0, evs[1..])
  }

  lemma FreshInv(s: Exchange)
    requires Fresh(s)
    ensures Inv(s)
  {
    forall k ensures s.vault.Locked(k) == Owed(s, k) + Total(Claims(s.pairs, s.rows, [], k))
                                          + (if k == ANYONE then 0.0 else 0.0)
    {
      assert Holds(s.pairs, s.rows, k) == [] && Dues(s.withdrawals, k) == []
          && Residues(s.pairs, s.rows, s.trades, k) == [] && Claims(s.pairs, s.rows, [], k) == [];
    }
  }

  /** An admissible run keeps the account and is calm. */
  lemma {:induction false} RunInv(s: Exchange, evs: seq<Event>)
    requires Inv(s) && Allowed(s, evs)
    ensures Inv(Run(s, evs)) && Calm(s, evs)
    decreases |evs|
  {
    hide Inv, Step, Admissible;
    if evs == [] {
    } else {
      StepInv(s, evs[0]);
      RunInv(Step(s, evs[0]).0, evs[1..]);
    }
  }

  /** Solvency, every run: from a fresh exchange, after any admissible calls, each wallet's locked funds are
      exactly what its orders hold, its withdrawals are due and its buys left behind; and the next call
      finds every reserve it needs. */
  lemma Solvent(s: Exchange, evs: seq<Event>, next: Event, k: Key)
    requires Fresh(s) && Allowed(s, evs) && Admissible(Run(s, evs), next)
    ensures var r := Run(s, evs);
      && r.vault.Locked(k) == Owed(r, k)
      && Step(r, next).1 != InvariantViolated
  {
    hide Run, Allowed, Step, Owed, Admissible, StoreOk, BooksOk, PairsOk;
    FreshInv(s);
    RunInv(s, evs);
    StepInv(Run(s, evs), next);
    LockedSome(Run(s, evs), k);
  }
}
