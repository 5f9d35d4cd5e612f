/** Inputs at which properties the exchange is meant to have fail: runs from a fresh exchange, call by call. */
module Examples {
  import opened Orders
  import opened Sums
  import opened Priority
  import opened Matching
  import opened EngineModel
  import opened EngineProofs
  import opened Wallets
  import opened PairRules
  import opened ExchangeModel
  import opened Accounting
  import opened Agreement
  import opened Matches
  import opened Filing
  import opened ExchangeProofs
  import opened Folding
  import opened BuyResidues
  import opened OrderFates

  // ----- a small exchange -----

  /** Two users, whoever they are: nothing depends on their ids. */
  ghost const BUYER: UserId := var u: UserId :| u > 0; u
  ghost const SELLER: UserId := var u: UserId :| u > BUYER; u
  ghost const COINS: Key := Key(SELLER, 0)
  ghost const CASH: Key := Key(BUYER, 1)

  /** One pair, no fees, no minimum. */
  const PAIR := Pair(0, 1, 0.0, 0.0, 0.0, 1000.0, 0.0, 0.0, 0.0)

  /** The buyer has a hundred in cash, the seller ten coins. */
  ghost const OPENING := Exchange([PAIR], [], [EmptyState], [], [],
                                  Vault(map[CASH := Wallet(100.0, 0.0, 1), COINS := Wallet(10.0, 0.0, 1)], []),
                                  [], [], [])

  lemma OpeningFresh()
    ensures Fresh(OPENING)
  {
  }

  /** What stands on the exchange at one moment. */
  ghost predicate Stands(s: Exchange, book: State, rows: seq<Row>) {
    s.pairs == [PAIR] && s.relations == [] && s.books == [book] && s.rows == rows
  }

  /** What the buyer has in cash and the seller in coins, free and locked. */
  ghost predicate Funds(v: Vault, cash: real, cashLocked: real, coins: real, coinsLocked: real) {
    && v.Available(CASH) == cash && v.Locked(CASH) == cashLocked
    && v.Available(COINS) == coins && v.Locked(COINS) == coinsLocked
  }

  lemma OpeningFunds()
    ensures Funds(OPENING.vault, 100.0, 0.0, 10.0, 0.0)
  {
  }

  // ----- single steps of the engine -----

  /** A limit order that crosses nothing rests, alone on its side. */
  lemma RestsAlone(e: State, o: Order)
    requires e.Makers(o.side) == [] && NoStopsHeld(e) && Incoming(o) && o.kind.Limit? && o.tif.Gtc? && o.peak == 0.0
    requires var m := e.Makers(o.side.Opposite()); m == [] || !Crosses(o.side, At(o.price), m[0].price)
    ensures var t := o.(status := Open);
      Process(e, o, false)
        == (e.(sequence := e.sequence + 1).WithMakers(o.side, [t]), EngineModel.Result(t, [], o.quantity))
  {
    hide CheckStops;
    var t := o.(status := Open);
    assert LimitTaker(o, o.quantity) == t;
    assert [t] + [] == [t];
    var e' := e.(sequence := e.sequence + 1).WithMakers(o.side, [t]);
    NoStopsChecked(e');
  }

  /** A limit order about to take the only order of the other side, whole. */
  ghost predicate Takes(e: State, o: Order, m: Order) {
    && e.Makers(o.side.Opposite()) == [m] && NoStopsHeld(e) && Incoming(o) && o.kind.Limit? && o.tif.Gtc?
    && Crosses(o.side, At(o.price), m.price) && o.quantity == m.Remaining()
  }

  lemma TakesAll(e: State, o: Order, m: Order)
    requires Takes(e, o, m)
    ensures Process(e, o, false).1
         == EngineModel.Result(o.(filled := o.quantity, status := Filled), [Fill(m, o.quantity)], 0.0)
  {
    hide CheckStops;
    assert [m][1..] == [];
    assert MatchQuantity([], o.side, At(o.price), 0.0) == Outcome([], [], 0.0);
  }

  /** A market sell about to take the only bid, for `q`, and be left with a rest. */
  ghost predicate Outsells(e: State, o: Order, m: Order, q: real) {
    && e.bids == [m] && NoStopsHeld(e) && Incoming(o) && o.kind.Market? && o.side.Sell? && o.quote == 0.0
    && o.quantity > q == m.Remaining() > 0.0 && o.tif.Gtc?
  }

  lemma SellsSome(e: State, o: Order, m: Order, q: real)
    requires Outsells(e, o, m, q)
    ensures Process(e, o, false).0 == e.(bids := [], lastPrice := m.price, sequence := e.sequence + 1)
    ensures Process(e, o, false).1
         == EngineModel.Result(o.(filled := q, status := PartiallyFilled), [Fill(m, q)], 0.0)
  {
    hide CheckStops, FillTotal, FillWorth;
    assert [m][1..] == [];
    var left := o.quantity - q;
    assert MatchQuantity([], Sell, AnyPrice, left) == Outcome([], [], left);
    var f := [Fill(m, q)];
    assert f + [] == f;
    FillOne(f[0]);
    forall x: State | NoStopsHeld(x) ensures CheckStops(x) == x { NoStopsChecked(x); }
  }

  /** A limit order nobody copies. */
  lemma Unfollowed(s: Exchange, ev: Event)
    requires ev.PlaceLimit? && LimitAccepted(s, ev) && s.relations == []
    ensures var entered := Enter(s, ev.pair, Entering(s, ev));
      && PlaceLimitOrder(s, ev).1 == entered.1
      && (entered.1.Done? && !entered.0.rows[|s.rows|].status.Terminal() ==> PlaceLimitOrder(s, ev).0 == entered.0)
  {
    hide Enter, QuantityRules, PriceRules;
  }

  // ----- a cancelled market sell takes another order's coins -----

  ghost const BID := Order(0, BUYER, Buy, Limit, 1.0, 1.0, 0.0, 0.0, 0.0, Gtc, 0.0, Open)
  ghost const NEW_BID := Order(0, BUYER, Buy, Limit, 1.0, 1.0, 0.0, 0.0, 0.0, Gtc, 0.0, Pending)
  ghost const ASK := Order(2, SELLER, Sell, Limit, 1.0, 1.0, 0.0, 0.0, 0.0, Gtc, 0.0, Open)

  ghost const BID_ROW := Row(BUYER, 0, Buy, Limit, 1.0, 1.0, 0.0, Open, 0.0)
  ghost const ASK_ROW := Row(SELLER, 0, Sell, Limit, 1.0, 1.0, 0.0, Open, 0.0)

  // The market sell is of `x` coins more than the bid takes.

  ghost function SellMore(x: real): Event {
    PlaceMarket(SELLER, 0, Sell, 1.0 + x, 0.0)
  }

  ghost function NewSell(x: real): Order {
    Order(1, SELLER, Sell, Market, 0.0, 1.0 + x, 0.0, 0.0, 0.0, Gtc, 0.0, Pending)
  }

  ghost function SoldSome(x: real): Order {
    NewSell(x).(filled := 1.0, status := PartiallyFilled)
  }

  ghost function SoldRow(x: real): Row {
    Row(SELLER, 0, Sell, Market, 0.0, 1.0 + x, 1.0, PartiallyFilled, 0.0)
  }

  /** A trade settled in full between the two. */
  lemma SettledInFull(v: Vault, t: Trade, cash: real, cashLocked: real, coins: real, coinsLocked: real)
    requires Buyer(t) == BUYER && Seller(t) == SELLER && t.takerFee == t.makerFee == 0.0
    requires Funds(v, cash, cashLocked, coins, coinsLocked) && 0.0 < t.quote <= cashLocked
    requires 0.0 < t.quantity <= coinsLocked
    ensures Settle(v, PAIR, t).Ok?
    ensures Funds(Settle(v, PAIR, t).value, cash, cashLocked - t.quote, coins, coinsLocked - t.quantity)
  {
  }

  lemma PersistOne(s: Exchange, t: Trade)
    requires s.pairs == [PAIR]
    ensures Persist(s, 0, [t]) == match Settle(s.vault, PAIR, t)
                                  case Fail(f) => Fail(f)
                                  case Ok(v) => Ok(s.(vault := v, trades := s.trades + [TradeRow(0, t)],
                                                      rows := FillRow(s.rows, t)))
  {
    hide Settle, FillRow;
    assert [t][1..] == [];
  }

  /** Reserving coins for a sell. */
  lemma CoinsReserved(v: Vault, quantity: real, price: real, cash: real, cashLocked: real, coins: real,
                      coinsLocked: real)
    requires Funds(v, cash, cashLocked, coins, coinsLocked) && 0.0 < quantity <= coins
    ensures var r := Reserve(v, PAIR, SELLER, Sell, quantity, price, 0.0, 0.0);
      r.Ok? && Funds(r.value, cash, cashLocked, coins - quantity, coinsLocked + quantity)
  {
  }

  /** Releasing coins of a sell. */
  lemma CoinsReleased(v: Vault, quantity: real, price: real, cash: real, cashLocked: real, coins: real,
                      coinsLocked: real)
    requires Funds(v, cash, cashLocked, coins, coinsLocked) && 0.0 < quantity
    ensures var released := Min(quantity, coinsLocked);
      Funds(Release(v, PAIR, SELLER, Sell, quantity, price, 0.0),
            cash, cashLocked, coins + released, coinsLocked - released)
  {
  }

  ghost const SOLD := Trade(1.0, 1.0, 1.0, 1, 0, SELLER, BUYER, Sell, 0.0, 0.0)

  /** A market sell, stage by stage. */
  lemma SellStages(s: Exchange, ev: Event, v: Vault, book: State, r: EngineModel.Result, s2: Exchange)
    requires s.pairs == [PAIR] && |s.books| == 1 && ev.PlaceMarket? && ev.pair == 0 && ev.side.Sell?
    requires MarketAccepted(s, ev) && MarketReserved(s, ev) == Ok(v)
    requires Process(s.books[0], MarketOrder(s, ev), false) == (book, r)
    requires Persist(s.(vault := v, books := [book], rows := s.rows + [RowOf(0, r.taker, 0.0)]), 0,
                     TradesOf(r.fills, MarketOrder(s, ev), PAIR.Fees())) == Ok(s2)
    ensures Step(s, ev) == (s2.(vault := Release(s2.vault, PAIR, ev.user, Sell, r.taker.Remaining(),
                                                 BestPrice(s.books[0], Buy), 0.0)), Done)
  {
    hide Process, Reserve, Release, Persist, TradesOf, BestPrice, QuantityRules;
    assert s.books[0 := book] == [book];
  }

  ghost const BOUGHT := BID_ROW.(filled := 1.0, status := Filled)

  lemma SellAccepted(s: Exchange, x: real)
    requires Stands(s, ONE_BID, [BID_ROW]) && 0.0 < x <= 1.0
    ensures MarketAccepted(s, SellMore(x)) && BestPrice(s.books[0], Buy) == 1.0
    ensures MarketReserved(s, SellMore(x)) == Reserve(s.vault, PAIR, SELLER, Sell, 1.0 + x, 1.0, 0.0, 0.0)
  {
    hide Reserve;
  }

  ghost const ONE_BID := State([BID], [], [], [], [], 0.0, 1)

  lemma SellReady(x: real)
    requires 0.0 < x
    ensures Outsells(ONE_BID, NewSell(x), BID, 1.0)
  {
  }

  lemma SellMatched(x: real)
    requires 0.0 < x
    ensures Process(ONE_BID, NewSell(x), false)
         == (State([], [], [], [], [], 1.0, 2), EngineModel.Result(SoldSome(x), [Fill(BID, 1.0)], 0.0))
    ensures RowOf(0, SoldSome(x), 0.0) == SoldRow(x) && SoldSome(x).Remaining() == x
    ensures TradesOf([Fill(BID, 1.0)], NewSell(x), PAIR.Fees()) == [SOLD]
  {
    hide Process, TradesOf, Outsells;
    SellReady(x);
    SellsSome(ONE_BID, NewSell(x), BID, 1.0);
    SoldIs(NewSell(x));
  }

  lemma SoldIs(o: Order)
    requires o.id == 1 && o.user == SELLER && o.side.Sell?
    ensures TradesOf([Fill(BID, 1.0)], o, PAIR.Fees()) == [SOLD]
  {
    assert TradeOf(Fill(BID, 1.0), o, PAIR.Fees()) == SOLD;
  }

  lemma ThenMarketSell(s: Exchange, x: real) returns (s': Exchange)
    requires Stands(s, ONE_BID, [BID_ROW]) && Funds(s.vault, 99.0, 1.0, 10.0, 0.0) && 0.0 < x <= 1.0
    ensures Step(s, SellMore(x)) == (s', Done)
    ensures Stands(s', AFTER_SALE, [BOUGHT, SoldRow(x)]) && Funds(s'.vault, 99.0, 0.0, 9.0, 0.0)
  {
    hide Process, Settle, Reserve, Release, Funds, Persist, TradesOf, FillTotal, Step, MarketAccepted, BestPrice, RowOf,
         Mul, MarketReserved;
    var ev := SellMore(x);
    SellAccepted(s, x);
    assert MarketOrder(s, ev) == NewSell(x);
    SellMatched(x);
    CoinsReserved(s.vault, 1.0 + x, 1.0, 99.0, 1.0, 10.0, 0.0);
    var v := MarketReserved(s, ev).value;
    var (book, r) := Process(s.books[0], MarketOrder(s, ev), false);
    var s1 := s.(vault := v, books := [book], rows := s.rows + [RowOf(0, r.taker, 0.0)]);
    SettledInFull(v, SOLD, 99.0, 1.0, 9.0 - x, 1.0 + x);
    PersistOne(s1, SOLD);
    var s2 := Persist(s1, 0, [SOLD]).value;
    SellStages(s, ev, v, book, r, s2);
    CoinsReleased(s2.vault, x, 1.0, 99.0, 0.0, 9.0 - x, x);
    s' := Step(s, ev).0;
  }

  const AFTER_SALE := State([], [], [], [], [], 1.0, 2)
  ghost const ONE_ASK := State([], [ASK], [], [], [], 1.0, 3)

  lemma ThenAsk(s: Exchange, x: real) returns (s': Exchange)
    requires Stands(s, AFTER_SALE, [BOUGHT, SoldRow(x)]) && Funds(s.vault, 99.0, 0.0, 9.0, 0.0)
    ensures Step(s, ASK_ONE) == (s', Done)
    ensures Stands(s', ONE_ASK, [BOUGHT, SoldRow(x), ASK_ROW]) && Funds(s'.vault, 99.0, 0.0, 8.0, 1.0)
  {
    hide Process, PlaceLimitOrder, Funds, Reserve, SoldRow;
    var ev, o := ASK_ONE, ASK.(status := Pending);
    RestsAlone(AFTER_SALE, o);
    CoinsReserved(s.vault, 1.0, 1.0, 99.0, 0.0, 9.0, 0.0);
    Unfollowed(s, ev);
    s' := Enter(s, 0, o).0;
  }

  lemma ThenCancel(s: Exchange, x: real) returns (s': Exchange)
    requires Stands(s, ONE_ASK, [BOUGHT, SoldRow(x), ASK_ROW]) && Funds(s.vault, 99.0, 0.0, 8.0, 1.0)
    requires 0.0 < x <= 1.0
    ensures Step(s, CancelOrder(SELLER, 1)) == (s', Done) && ReleasesTwice(s, CancelOrder(SELLER, 1))
    ensures Stands(s', ONE_ASK, [BOUGHT, SoldRow(x).(status := Cancelled), ASK_ROW])
    ensures Funds(s'.vault, 99.0, 0.0, 8.0 + x, 1.0 - x)
  {
    hide Funds, Release;
    assert Without([ASK], 1) == [ASK];
    CoinsReleased(s.vault, x, 0.0, 99.0, 0.0, 8.0, 1.0);
    s' := CancelStored(s, SELLER, 1).0;
  }

  ghost const LAST_BID := Order(3, BUYER, Buy, Limit, 1.0, 1.0, 0.0, 0.0, 0.0, Gtc, 0.0, Pending)
  ghost const UNSETTLED := Trade(1.0, 1.0, 1.0, 3, 2, BUYER, SELLER, Buy, 0.0, 0.0)

  /** Reserving cash for a buy. */
  lemma CashReserved(v: Vault, quantity: real, price: real, cash: real, cashLocked: real, coins: real,
                     coinsLocked: real)
    requires Funds(v, cash, cashLocked, coins, coinsLocked) && 0.0 < price * quantity <= cash
    ensures var r := Reserve(v, PAIR, BUYER, Buy, quantity, price, 0.0, 0.0);
      r.Ok? && Funds(r.value, cash - price * quantity, cashLocked + price * quantity, coins, coinsLocked)
  {
    assert Lockup(Buy, price, quantity, 0.0) == price * quantity;
  }

  lemma FirstBid() returns (s: Exchange)
    ensures Step(OPENING, BUY_ONE) == (s, Done)
    ensures Stands(s, ONE_BID, [BID_ROW]) && Funds(s.vault, 99.0, 1.0, 10.0, 0.0)
  {
    hide Process, PlaceLimitOrder, Reserve, Funds;
    RestsAlone(EmptyState, NEW_BID);
    OpeningFunds();
    CashReserved(OPENING.vault, 1.0, 1.0, 100.0, 0.0, 10.0, 0.0);
    Unfollowed(OPENING, BUY_ONE);
    s := Enter(OPENING, 0, NEW_BID).0;
  }

  lemma BidReady()
    ensures Takes(ONE_ASK, LAST_BID, ASK)
  {
  }

  lemma BidMatched()
    ensures Process(ONE_ASK, LAST_BID, false).1
         == EngineModel.Result(LAST_BID.(filled := 1.0, status := Filled), [Fill(ASK, 1.0)], 0.0)
    ensures TradesOf([Fill(ASK, 1.0)], LAST_BID, PAIR.Fees()) == [UNSETTLED]
  {
    hide Process, Takes;
    BidReady();
    TakesAll(ONE_ASK, LAST_BID, ASK);
    assert TradeOf(Fill(ASK, 1.0), LAST_BID, PAIR.Fees()) == UNSETTLED;
  }

  /** Some of the seller's coins are gone: a fill of one is refused, or clamped, by how many are missing. */
  lemma ShortSettled(v: Vault, t: Trade, cash: real, cashLocked: real, coins: real, missing: real)
    requires Buyer(t) == BUYER && Seller(t) == SELLER && t.takerFee == t.makerFee == 0.0 && t.quantity == 1.0
    requires Funds(v, cash, cashLocked, coins, 1.0 - missing) && cashLocked >= t.quote > 0.0 && 0.0 < missing <= 1.0
    ensures Settle(v, PAIR, t).Ok? <==> missing <= 0.000001 + 0.000000000001
    ensures Settle(v, PAIR, t).Ok? || Settle(v, PAIR, t) == Fail(SellerReserve)
    ensures !Covers(v, PAIR, t, Ledger) && !Covers(v, PAIR, t, Totals)
  {
  }

  lemma LastBidShort(s: Exchange, x: real)
    requires Stands(s, ONE_ASK, [BOUGHT, SoldRow(x).(status := Cancelled), ASK_ROW])
    requires Funds(s.vault, 99.0, 0.0, 8.0 + x, 1.0 - x) && 0.0 < x <= 1.0
    ensures Step(s, BUY_ONE).1 == (if x <= 0.000001 + 0.000000000001 then Done else InvariantViolated)
    ensures Step(s, BUY_ONE).1.Done? ==> !Covered(s, BUY_ONE, Ledger) && !Covered(s, BUY_ONE, Totals)
  {
    hide Process, PlaceLimitOrder, Funds, Reserve, Settle, TradesOf, Persist, KeptBack, SoldRow, Covers;
    var ev := BUY_ONE;
    CashReserved(s.vault, 1.0, 1.0, 99.0, 0.0, 8.0 + x, 1.0 - x);
    var v := Reserve(s.vault, PAIR, BUYER, Buy, 1.0, 1.0, 0.0, 0.0).value;
    BidMatched();
    ShortSettled(v, UNSETTLED, 98.0, 1.0, 8.0 + x, x);
    var (book, r) := Process(ONE_ASK, LAST_BID, false);
    PersistOne(s.(vault := v, books := s.books[0 := book], rows := s.rows + [RowOf(0, r.taker, KeptBack(LAST_BID, r))]),
               UNSETTLED);
    Unfollowed(s, ev);
  }

  lemma RunNext(s: Exchange, ev: Event, evs: seq<Event>)
    ensures Run(s, [ev] + evs) == Run(Step(s, ev).0, evs)
    ensures Allowed(s, [ev] + evs) <==> Admissible(s, ev) && Allowed(Step(s, ev).0, evs)
  {
    hide Step, Admissible;
    assert ([ev] + evs)[1..] == evs;
  }

  lemma RunTwo(s: Exchange, a: Event, b: Event)
    ensures Run(s, [a, b]) == Step(Step(s, a).0, b).0
    ensures Allowed(s, [a, b]) <==> Admissible(s, a) && Admissible(Step(s, a).0, b)
  {
    hide Step, Admissible;
    assert [a, b] == [a] + ([b] + []);
    RunNext(s, a, [b] + []);
    RunNext(Step(s, a).0, b, []);
  }

  lemma RunThree(s: Exchange, a: Event, b: Event, c: Event)
    ensures Run(s, [a, b, c]) == Step(Step(Step(s, a).0, b).0, c).0
    ensures Allowed(s, [a, b, c])
       <==> Admissible(s, a) && Admissible(Step(s, a).0, b) && Admissible(Step(Step(s, a).0, b).0, c)
  {
    hide Step, Admissible;
    assert [a, b, c] == [a] + [b, c];
    RunNext(s, a, [b, c]);
    RunTwo(Step(s, a).0, b, c);
  }

  ghost const BUY_ONE := PlaceLimit(BUYER, 0, Buy, 1.0, 1.0, Gtc, 0.0)
  ghost const ASK_ONE := PlaceLimit(SELLER, 0, Sell, 1.0, 1.0, Gtc, 0.0)

  lemma BidWorth(want: real)
    requires want >= 1.0
    ensures FirstWorth([BID], want) == 1.0
  {
    assert Worth(BID) == 1.0;
    WorthOfAll(BID, want);
  }

  lemma WorthOfAll(m: Order, want: real)
    requires want >= m.Remaining() > 0.0
    ensures FirstWorth([m], want) == Worth(m)
  {
    hide Worth;
    assert [m][1..] == [];
    assert FirstWorth([], want - m.Remaining()) == 0.0;
  }

  lemma UnbudgetedSell(s: Exchange, x: real)
    requires Stands(s, ONE_BID, [BID_ROW]) && x > 0.0
    ensures Admissible(s, SellMore(x))
  {
    hide Depth, MarketAccepted, MarketReserved, FirstWorth;
    BidWorth(1.0 + x);
  }

  /** Cancelling a partly filled market order breaks the account: three admissible calls from a fresh exchange, the
      cancel, which takes the market order's rest out of an ask's coins, and the next fill of the ask is answered with a
      violated invariant unless the rest is within the tolerance. */
  lemma CancelTakesOthers(x: real)
    requires 0.0 < x <= 1.0
    ensures Fresh(OPENING) && Allowed(OPENING, [BUY_ONE, SellMore(x), ASK_ONE])
    ensures var (s, reply) := Step(Run(OPENING, [BUY_ONE, SellMore(x), ASK_ONE]), CancelOrder(SELLER, 1));
      && reply.Done?
      && Step(s, BUY_ONE).1 == (if x <= 0.000001 + 0.000000000001 then Done else InvariantViolated)
      && (x <= 0.000001 + 0.000000000001 ==> !Covered(s, BUY_ONE, Ledger) && !Covered(s, BUY_ONE, Totals))
  {
    hide Step, Funds, Run, Allowed, Oversells, SellMore, SoldRow, Covered;
    OpeningFresh();
    var s1 := FirstBid();
    UnbudgetedSell(s1, x);
    var s2 := ThenMarketSell(s1, x);
    var s3 := ThenAsk(s2, x);
    RunThree(OPENING, BUY_ONE, SellMore(x), ASK_ONE);
    assert Admissible(OPENING, BUY_ONE) && Admissible(s2, ASK_ONE) by { LimitAdmissible(OPENING, BUY_ONE);
      LimitAdmissible(s2, ASK_ONE); }
    var s4 := ThenCancel(s3, x);
    LastBidShort(s4, x);
  }

  /** The five calls. */
  ghost function ClampedRun(x: real): seq<Event> {
    [BUY_ONE, SellMore(x), ASK_ONE, CancelOrder(SELLER, 1), BUY_ONE]
  }

  /** A rest within the tolerance is clamped: the last fill is done, and then the ledger no longer rebuilds every wallet
      and something has been created. */
  lemma ClampLosesLedger(x: real)
    requires 0.0 < x <= 0.000001 + 0.000000000001
    ensures Fresh(OPENING)
    ensures var r := Run(OPENING, ClampedRun(x)); var v := r.vault;
      && !(forall k :: v.Available(k) == OPENING.vault.Available(k) + FoldAvailable(v.ledger, k)
                       && v.Locked(k) == FoldLocked(v.ledger, k))
      && !(forall asset :: Created(OPENING, r, asset) == 0.0)
  {
    hide Run, Created, FoldAvailable, FoldLocked, CoveredRun, Vault.Available, Vault.Locked;
    OpeningFresh();
    LedgerRebuildsExactly(OPENING, ClampedRun(x));
    TotalsKeptExactly(OPENING, ClampedRun(x));
    ClampUncovered(x, Ledger);
    ClampUncovered(x, Totals);
  }

  lemma ClampUncovered(x: real, what: Promise)
    requires 0.0 < x <= 0.000001 + 0.000000000001
    ensures !CoveredRun(OPENING, ClampedRun(x), what)
  {
    hide Step, Run, Covered, SellMore, CoveredRun, Allowed;
    CancelTakesOthers(x);
    var three, cancel := [BUY_ONE, SellMore(x), ASK_ONE], CancelOrder(SELLER, 1);
    assert ClampedRun(x) == three + [cancel, BUY_ONE];
    CoveredSplit(OPENING, three, [cancel, BUY_ONE], what);
    assert [cancel, BUY_ONE] == [cancel] + [BUY_ONE];
    CoveredSplit(Run(OPENING, three), [cancel], [BUY_ONE], what);
    CoveredOne(Run(OPENING, three), cancel, what);
    CoveredOne(Step(Run(OPENING, three), cancel).0, BUY_ONE, what);
  }

  lemma CoveredOne(s: Exchange, ev: Event, what: Promise)
    ensures CoveredRun(s, [ev], what) <==> Covered(s, ev, what)
    ensures Run(s, [ev]) == Step(s, ev).0
  {
    hide Step, Covered;
    assert [ev][1..] == [];
  }

  lemma {:induction false} CoveredSplit(s: Exchange, a: seq<Event>, b: seq<Event>, what: Promise)
    ensures CoveredRun(s, a + b, what) <==> CoveredRun(s, a, what) && CoveredRun(Run(s, a), b, what)
    decreases |a|
  {
    hide Step, Covered;
    if a == [] {
      assert a + b == b;
    } else {
      assert (a + b)[1..] == a[1..] + b;
      CoveredSplit(Step(s, a[0]).0, a[1..], b, what);
    }
  }

  lemma LimitAdmissible(s: Exchange, ev: Event)
    requires ev.PlaceLimit?
    ensures Admissible(s, ev)
  {
  }

  // ----- a market sell with a budget takes another order's coins -----

  ghost const HIGH_ASK := Order(0, SELLER, Sell, Limit, 2.0, 1.0, 0.0, 0.0, 0.0, Gtc, 0.0, Open)
  ghost const DEEP_BID := Order(1, BUYER, Buy, Limit, 1.0, 2.0, 0.0, 0.0, 0.0, Gtc, 0.0, Open)
  ghost const HALF_BID := DEEP_BID.(filled := 1.0, status := PartiallyFilled)
  ghost const FUNDED_SELL := Order(2, SELLER, Sell, Market, 0.0, 1.0, 0.0, 2.0, 0.0, Gtc, 0.0, Pending)

  ghost const BUY_HIGH_ORDER := Order(3, BUYER, Buy, Limit, 2.0, 1.0, 0.0, 0.0, 0.0, Gtc, 0.0, Pending)

  ghost const HIGH_ASK_ROW := Row(SELLER, 0, Sell, Limit, 2.0, 1.0, 0.0, Open, 0.0)
  ghost const DEEP_BID_ROW := Row(BUYER, 0, Buy, Limit, 1.0, 2.0, 0.0, Open, 0.0)
  ghost const FUNDED_ROW := Row(SELLER, 0, Sell, Market, 0.0, 1.0, 1.0, Filled, 0.0)

  ghost const ASK_HIGH := PlaceLimit(SELLER, 0, Sell, 2.0, 1.0, Gtc, 0.0)
  ghost const BUY_DEEP := PlaceLimit(BUYER, 0, Buy, 1.0, 2.0, Gtc, 0.0)
  ghost const SELL_FUNDED := PlaceMarket(SELLER, 0, Sell, 1.0, 2.0)
  ghost const BUY_HIGH := PlaceLimit(BUYER, 0, Buy, 2.0, 1.0, Gtc, 0.0)

  ghost const HIGH_BOOK := State([], [HIGH_ASK], [], [], [], 0.0, 1)
  ghost const DEEP_BOOK := State([DEEP_BID], [HIGH_ASK], [], [], [], 0.0, 2)
  ghost const EMPTIED := State([], [HIGH_ASK], [], [], [], 1.0, 3)

  lemma HighAsk() returns (s: Exchange)
    ensures Step(OPENING, ASK_HIGH) == (s, Done)
    ensures Stands(s, HIGH_BOOK, [HIGH_ASK_ROW]) && Funds(s.vault, 100.0, 0.0, 9.0, 1.0)
  {
    hide Process, PlaceLimitOrder, Reserve;
    RestsAlone(EmptyState, HIGH_ASK.(status := Pending));
    CoinsReserved(OPENING.vault, 1.0, 2.0, 100.0, 0.0, 10.0, 0.0);
    Unfollowed(OPENING, ASK_HIGH);
    s := Enter(OPENING, 0, HIGH_ASK.(status := Pending)).0;
  }

  lemma ThenDeepBid(s: Exchange) returns (s': Exchange)
    requires Stands(s, HIGH_BOOK, [HIGH_ASK_ROW]) && Funds(s.vault, 100.0, 0.0, 9.0, 1.0)
    ensures Step(s, BUY_DEEP) == (s', Done)
    ensures Stands(s', DEEP_BOOK, [HIGH_ASK_ROW, DEEP_BID_ROW]) && Funds(s'.vault, 98.0, 2.0, 9.0, 1.0)
  {
    hide Process, PlaceLimitOrder, Funds, Reserve;
    RestsAlone(HIGH_BOOK, DEEP_BID.(status := Pending));
    CashReserved(s.vault, 2.0, 1.0, 100.0, 0.0, 9.0, 1.0);
    Unfollowed(s, BUY_DEEP);
    s' := Enter(s, 0, DEEP_BID.(status := Pending)).0;
  }

  lemma HalfFilled()
    ensures DEEP_BID.Filling(1.0) == HALF_BID && !HALF_BID.IsFilled()
  {
  }

  lemma AloneTaken(m: Order, amount: real)
    requires !m.Filling(amount).IsFilled()
    ensures TakeHead(Buy, [m], amount) == [m.Filling(amount)]
  {
    hide Order.Filling, Order.IsFilled;
    assert [m][1..] == [] && [m.Filling(amount)] + [] == [m.Filling(amount)];
  }

  lemma HalfTaken()
    ensures TakeHead(Buy, [DEEP_BID], 1.0) == [HALF_BID]
  {
    hide TakeHead, Order.Filling, Order.IsFilled;
    HalfFilled();
    AloneTaken(DEEP_BID, 1.0);
  }

  lemma FundedQuantity()
    ensures MatchQuantity([DEEP_BID], Sell, AnyPrice, 1.0) == Outcome([Fill(DEEP_BID, 1.0)], [HALF_BID], 0.0)
  {
    hide TakeHead;
    HalfTaken();
  }

  lemma FundedBudget()
    ensures MatchBudget([HALF_BID], Sell, 1.0) == Outcome([Fill(HALF_BID, 1.0)], [], 0.0)
  {
    assert [HALF_BID][1..] == [];
    assert MatchBudget([], Sell, 0.0) == Outcome([], [], 0.0);
  }

  lemma FundedWorth()
    ensures FillWorth([Fill(DEEP_BID, 1.0)]) == 1.0 && FillTotal([Fill(DEEP_BID, 1.0), Fill(HALF_BID, 1.0)]) == 2.0
  {
    hide FillTotal, FillWorth;
    FillOne(Fill(DEEP_BID, 1.0));
    FillOne(Fill(HALF_BID, 1.0));
    FillAppend([Fill(DEEP_BID, 1.0)], [Fill(HALF_BID, 1.0)]);
    assert [Fill(DEEP_BID, 1.0)] + [Fill(HALF_BID, 1.0)] == [Fill(DEEP_BID, 1.0), Fill(HALF_BID, 1.0)];
  }

  /** The engine fills the quantity, then spends what is left of the budget. */
  lemma FundedMatch()
    ensures MatchMarket([DEEP_BID], FUNDED_SELL) == ([Fill(DEEP_BID, 1.0), Fill(HALF_BID, 1.0)], [])
  {
    hide MatchQuantity, MatchBudget, FillWorth, FillTotal;
    FundedQuantity();
    FundedBudget();
    FundedWorth();
    assert [Fill(DEEP_BID, 1.0)] + [Fill(HALF_BID, 1.0)] == [Fill(DEEP_BID, 1.0), Fill(HALF_BID, 1.0)];
  }

  lemma FundedMatched()
    ensures Process(DEEP_BOOK, FUNDED_SELL, false)
         == (EMPTIED, EngineModel.Result(FUNDED_SELL.(filled := 1.0, status := Filled),
                                         [Fill(DEEP_BID, 1.0), Fill(HALF_BID, 1.0)], 0.0))
  {
    hide MatchMarket, FillTotal, CheckStops;
    FundedMatch();
    FundedWorth();
    NoStopsChecked(EMPTIED);
  }

  ghost const HALF_SOLD := Trade(1.0, 1.0, 1.0, 2, 1, SELLER, BUYER, Sell, 0.0, 0.0)
  ghost const UNSETTLED_HIGH := Trade(2.0, 1.0, 2.0, 3, 0, BUYER, SELLER, Buy, 0.0, 0.0)

  lemma FundedTrades()
    ensures TradesOf([Fill(DEEP_BID, 1.0), Fill(HALF_BID, 1.0)], FUNDED_SELL, PAIR.Fees()) == [HALF_SOLD, HALF_SOLD]
  {
    hide TradesOf;
    assert TradeOf(Fill(DEEP_BID, 1.0), FUNDED_SELL, PAIR.Fees()) == HALF_SOLD;
    assert TradeOf(Fill(HALF_BID, 1.0), FUNDED_SELL, PAIR.Fees()) == HALF_SOLD;
  }

  lemma PersistTwo(s: Exchange, t: Trade, u: Trade)
    requires s.pairs == [PAIR] && Settle(s.vault, PAIR, t).Ok? && Settle(Settle(s.vault, PAIR, t).value, PAIR, u).Ok?
    ensures Persist(s, 0, [t, u])
         == Ok(s.(vault := Settle(Settle(s.vault, PAIR, t).value, PAIR, u).value,
                  trades := s.trades + [TradeRow(0, t)] + [TradeRow(0, u)],
                  rows := FillRow(FillRow(s.rows, t), u)))
  {
    hide Settle, FillRow;
    var s1 := s.(vault := Settle(s.vault, PAIR, t).value, trades := s.trades + [TradeRow(0, t)],
                 rows := FillRow(s.rows, t));
    assert [t, u][1..] == [u];
    PersistOne(s1, u);
  }

  lemma FundedAccepted(s: Exchange)
    requires Stands(s, DEEP_BOOK, [HIGH_ASK_ROW, DEEP_BID_ROW])
    ensures MarketAccepted(s, SELL_FUNDED) && BestPrice(s.books[0], Buy) == 1.0
    ensures MarketOrder(s, SELL_FUNDED) == FUNDED_SELL
    ensures MarketReserved(s, SELL_FUNDED) == Reserve(s.vault, PAIR, SELLER, Sell, 1.0, 1.0, 2.0, 0.0)
  {
    hide Reserve;
  }

  lemma QuoteIgnored(v: Vault)
    ensures Reserve(v, PAIR, SELLER, Sell, 1.0, 1.0, 2.0, 0.0) == Reserve(v, PAIR, SELLER, Sell, 1.0, 1.0, 0.0, 0.0)
  {
  }

  lemma FundedRows(rows: seq<Row>)
    requires rows == [HIGH_ASK_ROW, DEEP_BID_ROW] + [FUNDED_ROW]
    ensures FillRow(FillRow(rows, HALF_SOLD), HALF_SOLD)
         == [HIGH_ASK_ROW, DEEP_BID_ROW.(filled := 2.0, status := Filled), FUNDED_ROW]
  {
    assert FillRow(rows, HALF_SOLD)
        == [HIGH_ASK_ROW, DEEP_BID_ROW.(filled := 1.0, status := PartiallyFilled), FUNDED_ROW];
  }

  lemma NothingUnsold(v: Vault)
    ensures Release(v, PAIR, SELLER, Sell, 0.0, 1.0, 0.0) == v
  {
  }

  lemma FundedTaker()
    ensures var t := FUNDED_SELL.(filled := 1.0, status := Filled);
      RowOf(0, t, 0.0) == FUNDED_ROW && t.Remaining() == 0.0
  {
  }

  lemma ThenFundedSell(s: Exchange) returns (s': Exchange)
    requires Stands(s, DEEP_BOOK, [HIGH_ASK_ROW, DEEP_BID_ROW]) && Funds(s.vault, 98.0, 2.0, 9.0, 1.0)
    ensures Step(s, SELL_FUNDED) == (s', Done)
    ensures Stands(s', EMPTIED, [HIGH_ASK_ROW, DEEP_BID_ROW.(filled := 2.0, status := Filled), FUNDED_ROW])
    ensures Funds(s'.vault, 98.0, 0.0, 8.0, 0.0)
  {
    hide Process, Settle, Reserve, Release, Funds, Persist, TradesOf, FillTotal, Step, MarketAccepted, BestPrice, RowOf,
         Mul, MarketReserved, FillRow, MarketOrder, Order.Remaining;
    FundedAccepted(s);
    FundedMatched();
    FundedTrades();
    FundedTaker();
    QuoteIgnored(s.vault);
    CoinsReserved(s.vault, 1.0, 1.0, 98.0, 2.0, 9.0, 1.0);
    var v := MarketReserved(s, SELL_FUNDED).value;
    SettledInFull(v, HALF_SOLD, 98.0, 2.0, 8.0, 2.0);
    var v1 := Settle(v, PAIR, HALF_SOLD).value;
    SettledInFull(v1, HALF_SOLD, 98.0, 1.0, 8.0, 1.0);
    var (book, r) := Process(DEEP_BOOK, FUNDED_SELL, false);
    var s1 := s.(vault := v, books := [book], rows := s.rows + [RowOf(0, r.taker, 0.0)]);
    PersistTwo(s1, HALF_SOLD, HALF_SOLD);
    FundedRows(s1.rows);
    var s2 := Persist(s1, 0, [HALF_SOLD, HALF_SOLD]).value;
    SellStages(s, SELL_FUNDED, v, book, r, s2);
    NothingUnsold(s2.vault);
    s' := Step(s, SELL_FUNDED).0;
  }

  lemma HighReady()
    ensures Takes(EMPTIED, BUY_HIGH_ORDER, HIGH_ASK)
  {
  }

  lemma HighMatched()
    ensures Process(EMPTIED, BUY_HIGH_ORDER, false).1
         == EngineModel.Result(BUY_HIGH_ORDER.(filled := 1.0, status := Filled), [Fill(HIGH_ASK, 1.0)], 0.0)
    ensures TradesOf([Fill(HIGH_ASK, 1.0)], BUY_HIGH_ORDER, PAIR.Fees()) == [UNSETTLED_HIGH]
  {
    hide Process, Takes;
    HighReady();
    TakesAll(EMPTIED, BUY_HIGH_ORDER, HIGH_ASK);
    assert TradeOf(Fill(HIGH_ASK, 1.0), BUY_HIGH_ORDER, PAIR.Fees()) == UNSETTLED_HIGH;
  }

  lemma BuyHighViolates(s: Exchange)
    requires Stands(s, EMPTIED, [HIGH_ASK_ROW, DEEP_BID_ROW.(filled := 2.0, status := Filled), FUNDED_ROW])
    requires Funds(s.vault, 98.0, 0.0, 8.0, 0.0)
    ensures Step(s, BUY_HIGH).1 == InvariantViolated
  {
    hide Process, PlaceLimitOrder, Funds, Reserve, Settle, TradesOf, Persist, KeptBack;
    var o := BUY_HIGH_ORDER;
    CashReserved(s.vault, 1.0, 2.0, 98.0, 0.0, 8.0, 0.0);
    var v := Reserve(s.vault, PAIR, BUYER, Buy, 1.0, 2.0, 0.0, 0.0).value;
    HighMatched();
    ShortSettled(v, UNSETTLED_HIGH, 96.0, 2.0, 8.0, 1.0);
    var (book, r) := Process(EMPTIED, o, false);
    PersistOne(s.(vault := v, books := s.books[0 := book], rows := s.rows + [RowOf(0, r.taker, KeptBack(o, r))]),
               UNSETTLED_HIGH);
    Unfollowed(s, BUY_HIGH);
  }

  lemma FundedOversells(s: Exchange)
    requires Stands(s, DEEP_BOOK, [HIGH_ASK_ROW, DEEP_BID_ROW]) && Funds(s.vault, 98.0, 2.0, 9.0, 1.0)
    ensures Oversells(s, SELL_FUNDED)
  {
    hide MarketAccepted, MarketReserved, Reserve, Depth, FirstWorth, Funds;
    FundedAccepted(s);
    QuoteIgnored(s.vault);
    CoinsReserved(s.vault, 1.0, 1.0, 98.0, 2.0, 9.0, 1.0);
    DeepWorth();
  }

  lemma DeepWorth()
    ensures Depth([DEEP_BID]) == 2.0 && FirstWorth([DEEP_BID], 1.0) == 1.0
  {
    hide Depth;
    DepthCons(DEEP_BID, []);
    NoDepth();
    assert [DEEP_BID] + [] == [DEEP_BID];
  }

  /** A market sell given a budget besides its quantity breaks the account: two admissible calls from a fresh exchange,
      the sell, which is done and leaves no coin locked, and the next fill is answered with a violated invariant. */
  lemma BudgetTakesOthers()
    ensures Fresh(OPENING) && Allowed(OPENING, [ASK_HIGH, BUY_DEEP])
    ensures var s := Run(OPENING, [ASK_HIGH, BUY_DEEP]); var (s', reply) := Step(s, SELL_FUNDED);
      && Oversells(s, SELL_FUNDED) && reply.Done? && s'.vault.Locked(COINS) == 0.0
      && Step(s', BUY_HIGH).1 == InvariantViolated
  {
    hide Step, Run, Allowed, Oversells;
    OpeningFresh();
    var s1 := HighAsk();
    var s2 := ThenDeepBid(s1);
    RunTwo(OPENING, ASK_HIGH, BUY_DEEP);
    LimitAdmissible(OPENING, ASK_HIGH);
    LimitAdmissible(s1, BUY_DEEP);
    FundedOversells(s2);
    var s3 := ThenFundedSell(s2);
    BuyHighViolates(s3);
  }

  // ----- funds an order leaves locked -----

  /** An accepted limit order that can be funded is done. */
  lemma FundedLimitDone(s: Exchange, ev: Event)
    requires Inv(s) && ev.PlaceLimit? && LimitAccepted(s, ev) && Reserved(s, ev.pair, Entering(s, ev)).Ok?
    ensures PlaceLimitOrder(s, ev).1.Done?
  {
    hide Inv, MatchLimitOrder, Copies, Finish, QuantityRules, PriceRules, Reserve;
    PlaceLimitInv(s, ev);
  }

  ghost const FIRST_ASK := Order(0, SELLER, Sell, Limit, 1.0, 1.0, 0.0, 0.0, 0.0, Gtc, 0.0, Open)
  ghost const FIRST_ASK_NEW := Order(0, SELLER, Sell, Limit, 1.0, 1.0, 0.0, 0.0, 0.0, Gtc, 0.0, Pending)
  ghost const FIRST_BOOK := State([], [FIRST_ASK], [], [], [], 0.0, 1)
  ghost const IOC_TWO := PlaceLimit(BUYER, 0, Buy, 1.0, 2.0, Ioc, 0.0)

  lemma FirstAsk() returns (s: Exchange)
    ensures Step(OPENING, ASK_ONE) == (s, Done)
    ensures Stands(s, FIRST_BOOK, [ASK_ROW]) && Funds(s.vault, 100.0, 0.0, 9.0, 1.0)
  {
    hide Process, PlaceLimitOrder, Reserve;
    RestsAlone(EmptyState, FIRST_ASK_NEW);
    CoinsReserved(OPENING.vault, 1.0, 1.0, 100.0, 0.0, 10.0, 0.0);
    Unfollowed(OPENING, ASK_ONE);
    s := Enter(OPENING, 0, FIRST_ASK_NEW).0;
  }

  lemma OneCrossing(taker: Side, bound: Bound, m: Order)
    requires Crosses(taker, bound, m.price)
    ensures CrossingDepth([m], taker, bound) == m.Remaining()
  {
    hide CrossingDepth;
    assert [m][1..] == [];
    CrossingCons([m], taker, bound);
    NoneToCross(taker, bound);
  }

  lemma IocAccepted(s: Exchange)
    requires Stands(s, FIRST_BOOK, [ASK_ROW]) && Funds(s.vault, 100.0, 0.0, 9.0, 1.0)
    ensures LimitAccepted(s, IOC_TWO) && Reserved(s, 0, Entering(s, IOC_TWO)).Ok?
    ensures Reach(s, 0, Entering(s, IOC_TWO)) == 1.0
  {
    hide Funds, Reserve, CrossingDepth;
    CashReserved(s.vault, 2.0, 1.0, 100.0, 0.0, 9.0, 1.0);
    OneCrossing(Buy, At(1.0), FIRST_ASK);
  }

  /** An immediate-or-cancel buy of two that finds one for sale is done, and its row still holds funds. */
  lemma IocKeepsLocked()
    ensures Fresh(OPENING)
    ensures var s := Run(OPENING, [ASK_ONE]); var (s', reply) := Step(s, IOC_TWO);
      reply.Done? && |s'.rows| > 1 && !HoldsNone(s'.pairs, s'.rows[1])
  {
    hide Run, PlaceLimitOrder, HoldsNone, Inv, Funds, LimitAccepted, Reserved, Reach;
    var s := AskStands();
    IocAccepted(s);
    FundedLimitDone(s, IOC_TWO);
    IocHolds(s, IOC_TWO);
  }

  lemma RunNone(s: Exchange)
    ensures Run(s, []) == s
  {
  }

  ghost const ICEBERG := PlaceLimit(BUYER, 0, Buy, 1.0, 10.0, Gtc, 3.0)

  lemma IcebergAccepted()
    ensures LimitAccepted(OPENING, ICEBERG) && Reserved(OPENING, 0, Entering(OPENING, ICEBERG)).Ok?
    ensures Rest(EmptyState, Entering(OPENING, ICEBERG)) == 10.0
  {
    hide Reserve, CrossingDepth;
    CashReserved(OPENING.vault, 10.0, 1.0, 100.0, 0.0, 10.0, 0.0);
    NoneToCross(Buy, At(1.0));
  }

  lemma IcebergRow(row: Row)
    requires var o := Entering(OPENING, ICEBERG); var t := LimitTaker(o, 10.0);
      row == RowOf(0, t, if t.status.Terminal() then 0.0 else HiddenPart(o, 10.0))
    ensures row.status.Open? && row.kind.Limit? && row.user == BUYER
    ensures Hold([PAIR], row.(status := Cancelled), CASH) == 7.0
  {
  }

  /** An iceberg of ten with a peak of three, placed and cancelled: both calls are done and the order is cancelled, yet
      in every admissible run from there seven of the buyer's cash stay locked. */
  lemma IcebergKeepsLocked(evs: seq<Event>)
    ensures Fresh(OPENING)
    ensures var (s1, placed) := Step(OPENING, ICEBERG); var (s2, cancelled) := Step(s1, CancelOrder(BUYER, 0));
      && placed.Done? && cancelled.Done? && |s2.rows| > 0 && s2.rows[0].status.Cancelled?
      && (Allowed(s2, evs) ==> Run(s2, evs).vault.Locked(CASH) >= 7.0)
  {
    hide Run, PlaceLimitOrder, Inv, LimitAccepted, Reserved, Rest, Release, Cancel, Allowed, Hold, Vault.Locked,
         LimitTaker,
         HiddenPart;
    OpeningFresh();
    FreshInv(OPENING);
    IcebergAccepted();
    FundedLimitDone(OPENING, ICEBERG);
    LimitAdmissible(OPENING, ICEBERG);
    StepInv(OPENING, ICEBERG);
    PlacedRow(OPENING, ICEBERG);
    var s1 := Step(OPENING, ICEBERG).0;
    IcebergRow(s1.rows[0]);
    InvParts(s1);
    StepInv(s1, CancelOrder(BUYER, 0));
    var s2 := Step(s1, CancelOrder(BUYER, 0)).0;
    if Allowed(s2, evs) { HeldForGood(s2, evs, 0, CASH); }
  }

  // ----- funds a filled buy leaves locked -----

  /** A limit order about to take at least all of the only order of the other side. */
  ghost predicate Exhausts(e: State, o: Order, m: Order) {
    && e.Makers(o.side.Opposite()) == [m] && o.kind.Limit? && o.tif != Fok
    && Crosses(o.side, At(o.price), m.price) && o.quantity >= m.Remaining() > 0.0
  }

  lemma FillsAll(e: State, o: Order, m: Order)
    requires Exhausts(e, o, m)
    ensures Process(e, o, false).1.fills == [Fill(m, m.Remaining())]
  {
    hide CheckStops, LimitTaker, Insert;
    assert [m][1..] == [];
    var left := o.quantity - m.Remaining();
    assert MatchQuantity([], o.side, At(o.price), left) == Outcome([], [], left);
  }

  /** A buy at a limit of two, of one coin or of two. */
  ghost function DearBuy(quantity: real, tif: TimeInForce): Event {
    PlaceLimit(BUYER, 0, Buy, 2.0, quantity, tif, 0.0)
  }

  ghost const CHEAP := Trade(1.0, 1.0, 1.0, 1, 0, BUYER, SELLER, Buy, 0.0, 0.0)

  lemma DearExhausts(s: Exchange, quantity: real, tif: TimeInForce)
    requires Stands(s, FIRST_BOOK, [ASK_ROW]) && quantity >= 1.0 && tif != Fok
    ensures Exhausts(FIRST_BOOK, Entering(s, DearBuy(quantity, tif)), FIRST_ASK)
    ensures FIRST_ASK.Remaining() == 1.0 && PaysLess(FIRST_BOOK, Entering(s, DearBuy(quantity, tif)))
  {
  }

  lemma CheapTrade(s: Exchange, quantity: real, tif: TimeInForce)
    requires Stands(s, FIRST_BOOK, [ASK_ROW])
    ensures TradesOf([Fill(FIRST_ASK, 1.0)], Entering(s, DearBuy(quantity, tif)), PAIR.Fees()) == [CHEAP]
  {
    hide TradesOf;
    assert TradeOf(Fill(FIRST_ASK, 1.0), Entering(s, DearBuy(quantity, tif)), PAIR.Fees()) == CHEAP;
  }

  lemma DearAccepted(s: Exchange, quantity: real, tif: TimeInForce)
    requires Stands(s, FIRST_BOOK, [ASK_ROW]) && Funds(s.vault, 100.0, 0.0, 9.0, 1.0) && 1.0 <= quantity <= 2.0
    ensures LimitAccepted(s, DearBuy(quantity, tif))
    ensures Reserved(s, 0, Entering(s, DearBuy(quantity, tif))).Ok?
    ensures Reach(s, 0, Entering(s, DearBuy(quantity, tif))) == 1.0
  {
    hide Funds, Reserve, CrossingDepth;
    CashReserved(s.vault, quantity, 2.0, 100.0, 0.0, 9.0, 1.0);
    OneCrossing(Buy, At(2.0), FIRST_ASK);
  }

  lemma CheapResidue(s: Exchange)
    requires s.pairs == [PAIR] && |s.rows| > 1 && s.rows[1].kind.Limit? && s.rows[1].price == 2.0
    ensures Residue(s.pairs, s.rows, TradeRow(0, CHEAP), CASH) == 1.0
  {
  }

  /** The buy takes the coin at one, and the other unit of cash its limit locked for it is its residue. */
  lemma DearBought(s: Exchange, quantity: real, tif: TimeInForce) returns (s': Exchange)
    requires Inv(s) && Stands(s, FIRST_BOOK, [ASK_ROW]) && Funds(s.vault, 100.0, 0.0, 9.0, 1.0)
    requires 1.0 <= quantity <= 2.0 && tif != Fok
    ensures Step(s, DearBuy(quantity, tif)) == (s', Done) && Inv(s') && |s'.rows| > 1
    ensures Total(Residues(s'.pairs, s'.rows, s'.trades, CASH)) >= 1.0
  {
    hide PlaceLimitOrder, Inv, Funds, LimitAccepted, Reserved, Reach, Exhausts, PaysLess, Process, TradesOf, Total,
         Residue,
         Stored, StoreOk, BookSound, Entering, Incoming;
    var ev := DearBuy(quantity, tif);
    DearAccepted(s, quantity, tif);
    DearExhausts(s, quantity, tif);
    CheapTrade(s, quantity, tif);
    FundedLimitDone(s, ev);
    LimitAdmissible(s, ev);
    StepInv(s, ev);
    s' := Step(s, ev).0;
    EnteringPrice(s, ev);
    var s1, r := PlacedTrades(s, ev);
    FillsAll(FIRST_BOOK, Entering(s, ev), FIRST_ASK);
    StoredOne(s1, s', s.trades);
    CheapResidue(s');
    ResidueCounted(s', |s.trades|, CASH);
  }

  lemma EnteringPrice(s: Exchange, ev: Event)
    requires ev.PlaceLimit?
    ensures Entering(s, ev).price == ev.price
  {
  }

  lemma StoredOne(s1: Exchange, s': Exchange, before: seq<TradeRow>)
    requires s1.trades == before + Stored(0, [CHEAP]) && s1.trades <= s'.trades
    ensures |s'.trades| > |before| && s'.trades[|before|] == TradeRow(0, CHEAP)
  {
    assert s1.trades[|before|] == TradeRow(0, CHEAP);
  }

  lemma ResidueCounted(s: Exchange, i: nat, k: Key)
    requires StoreOk(s) && i < |s.trades|
    ensures Residue(s.pairs, s.rows, s.trades[i], k) <= Total(Residues(s.pairs, s.rows, s.trades, k))
  {
    hide Residue, Fair, RowsOk, Total;
    var all := Residues(s.pairs, s.rows, s.trades, k);
    forall j | 0 <= j < |all| ensures all[j] >= 0.0 {
      FairCovers(s.pairs, s.rows, s.trades[j], k) by { TradeFair(s, j); }
    }
    TotalBounds(all);
    assert all[i] <= Total(all);
  }

  lemma AskStands() returns (s: Exchange)
    ensures Fresh(OPENING) && s == Run(OPENING, [ASK_ONE]) && Inv(s)
    ensures Stands(s, FIRST_BOOK, [ASK_ROW]) && Funds(s.vault, 100.0, 0.0, 9.0, 1.0)
  {
    hide Run, Inv, Funds, Step;
    OpeningFresh();
    FreshInv(OPENING);
    LimitAdmissible(OPENING, ASK_ONE);
    StepInv(OPENING, ASK_ONE);
    s := FirstAsk();
    RunNext(OPENING, ASK_ONE, []);
    assert [ASK_ONE] + [] == [ASK_ONE];
    RunNone(s);
  }

  lemma DearIocFate(s: Exchange)
    requires Inv(s) && Stands(s, FIRST_BOOK, [ASK_ROW]) && Funds(s.vault, 100.0, 0.0, 9.0, 1.0)
    requires PlaceLimitOrder(s, DearBuy(1.0, Ioc)).1.Done?
    ensures Reach(s, 0, Entering(s, DearBuy(1.0, Ioc))) == 1.0
    ensures var s' := PlaceLimitOrder(s, DearBuy(1.0, Ioc)).0;
      |s'.rows| > 1 && HoldsNone(s'.pairs, s'.rows[1]) && !LeavesNothing(s', 1)
  {
    hide PlaceLimitOrder, HoldsNone, Inv, Funds, LimitAccepted, Reserved, Reach, PaysLess, BuysExactly, Exhausts,
         Entering;
    DearAccepted(s, 1.0, Ioc);
    DearExhausts(s, 1.0, Ioc);
    IocHolds(s, DearBuy(1.0, Ioc));
    IocLeavesNothing(s, DearBuy(1.0, Ioc));
  }

  lemma LockedForGood(s: Exchange, evs: seq<Event>)
    requires Inv(s) && Total(Residues(s.pairs, s.rows, s.trades, CASH)) >= 1.0
    ensures Allowed(s, evs) ==> Run(s, evs).vault.Locked(CASH) >= 1.0
  {
    hide Run, Allowed, Inv, Total, Residue, Vault.Locked;
    if Allowed(s, evs) { ResiduesForGood(s, evs, CASH); }
  }

  /** One coin for sale at one, and an immediate-or-cancel buy of one at two: reached and filled in full, yet in every
      admissible run from there one of the buyer's cash stays locked. */
  lemma FilledBuyKeepsLocked(evs: seq<Event>)
    ensures Fresh(OPENING)
    ensures var s := Run(OPENING, [ASK_ONE]); var (s', reply) := Step(s, DearBuy(1.0, Ioc));
      && |s.books| == 1 && Reach(s, 0, Entering(s, DearBuy(1.0, Ioc))) == 1.0
      && reply.Done? && |s'.rows| > 1 && HoldsNone(s'.pairs, s'.rows[1]) && !LeavesNothing(s', 1)
      && (Allowed(s', evs) ==> Run(s', evs).vault.Locked(CASH) >= 1.0)
  {
    hide Run, PlaceLimitOrder, LeavesNothing, HoldsNone, Inv, Funds, Reach, Allowed, Residues, Total, Vault.Locked,
         Entering;
    var s := AskStands();
    var s' := DearBought(s, 1.0, Ioc);
    DearIocFate(s);
    LockedForGood(s', evs);
  }

  /** The same buy of two, good till cancelled, half filled and then cancelled: no iceberg, and one stays locked. */
  lemma CancelledBuyKeepsLocked(evs: seq<Event>)
    ensures Fresh(OPENING)
    ensures var (s1, placed) := Step(Run(OPENING, [ASK_ONE]), DearBuy(2.0, Gtc));
      var (s2, cancelled) := Step(s1, CancelOrder(BUYER, 1));
      && placed.Done? && cancelled.Done? && |s2.rows| > 1 && !LeavesNothing(s2, 1)
      && (Allowed(s2, evs) ==> Run(s2, evs).vault.Locked(CASH) >= 1.0)
  {
    hide Run, PlaceLimitOrder, LeavesNothing, HoldsNone, Inv, Funds, Reach, Allowed, Residues, Total, Vault.Locked,
         Entering,
         CancelStored;
    var s := AskStands();
    var s1 := DearBought(s, 2.0, Gtc);
    DearGtcFate(s);
    LockedForGood(s1, [CancelOrder(BUYER, 1)] + evs);
    RunNext(s1, CancelOrder(BUYER, 1), evs);
  }

  lemma DearGtcFate(s: Exchange)
    requires Inv(s) && Stands(s, FIRST_BOOK, [ASK_ROW]) && Funds(s.vault, 100.0, 0.0, 9.0, 1.0)
    requires PlaceLimitOrder(s, DearBuy(2.0, Gtc)).1.Done?
    ensures var s1 := PlaceLimitOrder(s, DearBuy(2.0, Gtc)).0; var (s2, reply) := CancelStored(s1, BUYER, 1);
      reply.Done? && Admissible(s1, CancelOrder(BUYER, 1)) && |s2.rows| > 1 && !LeavesNothing(s2, 1)
  {
    hide PlaceLimitOrder, HoldsNone, Inv, Funds, LimitAccepted, Reserved, CrossingDepth, PaysLess, BuysExactly,
         Exhausts,
         CancelStored, StoreOk;
    var ev := DearBuy(2.0, Gtc);
    DearAccepted(s, 2.0, Gtc);
    DearExhausts(s, 2.0, Gtc);
    CancelledLeavesNothing(s, ev);
    var s1, r := PlacedTrades(s, ev);
  }
}
