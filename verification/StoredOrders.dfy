/** What is stored of orders: a placed order's row says what was asked for and what became of it, and in every run rows
    tell their fills by their status and limit orders are within their pair's rules. */
module StoredOrders {
  import opened Orders
  import opened Sums
  import opened Priority
  import opened Matching
  import opened EngineModel
  import opened EngineProofs
  import opened Wallets
  import opened PairRules
  import opened CopySizing
  import opened ExchangeModel
  import opened Accounting
  import opened Agreement
  import opened Matches
  import opened Filing
  import opened Amounts
  import opened Statuses

  // ----- what rows keep -----

  /** A row's status tells what has become of its order. */
  predicate RowTold(r: Row) {
    && r.filled >= 0.0
    && match r.status
       case Open => r.filled == 0.0 < r.quantity
       case PartiallyFilled => 0.0 < r.filled < r.quantity
       case Filled => r.filled >= r.quantity
       case Cancelled => r.filled < r.quantity
       case _ => false
  }

  /** A size and a price the pair accepts: the size between its limits and within 1e-8 of a whole number of steps, the
      price within 1e-8 of a whole number of ticks, together worth at least the minimum. */
  ghost predicate Sized(pair: Pair, size: real, price: real) {
    && pair.minQty <= size <= pair.maxQty
    && (pair.stepSize > 0.0 ==> exists k: int :: Near(size, k, pair.stepSize))
    && (pair.tickSize > 0.0 ==> exists k: int :: Near(price, k, pair.tickSize))
    && price * size >= pair.minNotional
  }

  /** A limit order's price, with its stored size or with what an iceberg hid of it added, is within the rules. */
  ghost predicate RowSized(pairs: seq<Pair>, r: Row) {
    r.kind.Limit? ==>
      && r.pair < |pairs| && r.price > 0.0
      && (Sized(pairs[r.pair], r.quantity, r.price) || Sized(pairs[r.pair], r.quantity + r.hidden, r.price))
  }

  ghost predicate RowsFit(pairs: seq<Pair>, rows: seq<Row>) {
    forall i :: 0 <= i < |rows| ==> RowTold(rows[i]) && RowSized(pairs, rows[i])
  }

  lemma FillRowFits(pairs: seq<Pair>, rows: seq<Row>, t: Trade)
    requires RowsFit(pairs, rows) && t.quantity > 0.0
    ensures RowsFit(pairs, FillRow(rows, t))
  {
    hide Sized;
  }

  lemma {:induction false} FillRowsFit(pairs: seq<Pair>, rows: seq<Row>, trades: seq<Trade>)
    requires RowsFit(pairs, rows) && forall i :: 0 <= i < |trades| ==> trades[i].quantity > 0.0
    ensures RowsFit(pairs, FillRows(rows, trades))
    decreases |trades|
  {
    hide RowsFit, FillRow;
    if trades == [] {
    } else {
      FillRowFits(pairs, rows, trades[0]);
      FillRowsFit(pairs, FillRow(rows, trades[0]), trades[1..]);
    }
  }

  lemma FiledRowsFit(s: Exchange, s': Exchange, p: nat, o: Order, row: Row, e': State, r: EngineModel.Result,
                     a: seq<Fill>, b: seq<Fill>)
    requires BooksFit(s) && Filed(s, s', p, o, row, e', r, a, b)
    requires RowsFit(s.pairs, s.rows) && RowTold(row) && RowSized(s.pairs, row)
    ensures RowsFit(s'.pairs, s'.rows)
  {
    hide Sized, SideSound, Legs, AfterLegs, FillRows, Backs, Mul, RowTold;
    var opp, t := o.side.Opposite(), TradesOf(r.fills, o, s.pairs[p].Fees());
    BookAt(s, p);
    SideOf(s.books[p], opp);
    LegsPositive(opp, s.books[p].Makers(opp), a, b);
    forall i | 0 <= i < |t| ensures t[i].quantity > 0.0 { assert r.fills[i] in a + b; }
    FillRowsFit(s.pairs, s.rows + [row], t);
  }

  // ----- a new order's row -----

  /** What a limit order is stored with when its match is done. */
  lemma LimitRowFits(s: Exchange, p: nat, o: Order, row: Row, r: EngineModel.Result)
    requires BooksFit(s) && p < |s.books| && Incoming(o) && o.kind.Limit? && o.id == |s.rows|
    requires r == Process(s.books[p], o, false).1 && row == RowOf(p, r.taker, KeptBack(o, r))
    requires Sized(s.pairs[p], o.quantity, o.price)
    ensures RowTold(row) && RowSized(s.pairs, row)
    ensures row.status.Terminal() ==> Sized(s.pairs[p], row.quantity, row.price)
  {
    hide Process, CrossingDepth, Sized, FillTotal, BookSound, Absent, NoStopsHeld;
    BookAt(s, p);
    IdNotResting(s, p);
    LimitStatus(s.books[p], o);
  }

  lemma MarketRowTold(s: Exchange, ev: Event, o: Order, row: Row, e': State, r: EngineModel.Result)
    requires BooksFit(s) && ev.PlaceMarket? && ev.pair < |s.books| && o == MarketOrder(s, ev) && Incoming(o)
    requires (e', r) == Process(s.books[ev.pair], o, false) && (o.quantity > 0.0 || o.quote > 0.0)
    requires o.side.Buy? ==> row.quantity == row.filled == FillTotal(r.fills)
    requires o.side.Sell? ==> row.quantity == r.taker.quantity && row.filled == r.taker.filled
    requires row.status == r.taker.status && FillTotal(r.fills) >= 0.0
    ensures RowTold(row)
  {
    hide Process, Depth, FillTotal, BookSound, Absent, NoStopsHeld, Fillable;
    BookAt(s, ev.pair);
    MarketStatus(s.books[ev.pair], o);
    SoundDepth(s.books[ev.pair], o.side.Opposite());
  }

  lemma SoundDepth(e: State, side: Side)
    requires BookSound(e)
    ensures Depth(e.Makers(side)) >= 0.0
  {
    hide Depth, Uncrossed;
    SideOf(e, side);
    Statuses.Sound(side, e.Makers(side));
    NoneLeft(side, e.Makers(side));
  }

  // ----- whole calls -----

  lemma EnterRowsFit(s: Exchange, p: nat, o: Order)
    requires BooksFit(s) && p < |s.books| && Incoming(o) && o.kind.Limit? && o.id == |s.rows| && Enter(s, p, o).1.Done?
    requires RowsFit(s.pairs, s.rows) && Sized(s.pairs[p], o.quantity, o.price)
    ensures var s' := Enter(s, p, o).0;
      && RowsFit(s'.pairs, s'.rows) && |s'.rows| == |s.rows| + 1 && s'.pairs == s.pairs
      && var row := s'.rows[|s.rows|];
      && row.pair == p && (row.status.Terminal() ==> Sized(s.pairs[p], row.quantity, row.price))
  {
    hide Enter, Filed, BooksOk, RowsFit, Sized, LimitShape, KeptBack, Process, RowTold, Onward;
    var row, e', r := EnterFiled(s, p, o);
    LimitRowFits(s, p, o, row, r);
    FiledRowsFit(s, Enter(s, p, o).0, p, o, row, e', r, r.fills, []);
    FiledOnward(s, Enter(s, p, o).0, p, o, row, e', r, r.fills, []);
    TakerPrice(s, Enter(s, p, o).0, p, o, row, e', r);
  }

  lemma FinishRowsFit(s: Exchange, p: nat, id: OrderId)
    requires p < |s.pairs| && id < |s.rows| && RowsFit(s.pairs, s.rows) && s.rows[id].pair == p
    requires s.rows[id].status.Terminal() ==> Sized(s.pairs[p], s.rows[id].quantity, s.rows[id].price)
    ensures RowsFit(s.pairs, Finish(s, p, id).rows)
  {
    hide Sized, Release;
  }

  lemma CopyOneRowsFit(s: Exchange, p: nat, leader: Row, tif: TimeInForce, rel: Relation)
    requires BooksFit(s) && p < |s.books| && leader.price > 0.0 && CopyOne(s, p, leader, tif, rel).1.Done?
    requires RowsFit(s.pairs, s.rows) && (s.pairs[p].tickSize > 0.0 ==> !OffGrid(leader.price, s.pairs[p].tickSize))
    ensures RowsFit(s.pairs, CopyOne(s, p, leader, tif, rel).0.rows)
  {
    hide Enter, BooksOk, Cap, FloorToStep, Release, Asked, RowsFit, Sized, Finish, OffGrid, QuantityRules, PriceRules,
         RowTold;
    var pair := s.pairs[p];
    var size := CopyQuantity(leader.quantity, leader.price, rel.allocation, rel.maxPosition, pair.minQty, pair.maxQty,
                             pair.minNotional, pair.stepSize);
    CopyPassesRules(pair, leader.quantity, leader.price, rel.allocation, rel.maxPosition);
    if size.Some? {
      var o := LimitOrder(s, rel.follower, leader.side, leader.price, size.value, tif, 0.0);
      RulesSize(pair, size.value, leader.price);
      if Enter(s, p, o).1.Done? {
        EnterRowsFit(s, p, o);
        FinishRowsFit(Enter(s, p, o).0, p, |s.rows|);
      }
    }
  }

  lemma RulesSize(pair: Pair, size: real, price: real)
    ensures QuantityRules(pair, size) && PriceRules(pair, size, price) <==> Sized(pair, size, price)
  {
    hide QuantityRules, PriceRules, Near;
    RulesMean(pair, size, price);
  }

  lemma {:induction false} CopiesRowsFit(s: Exchange, p: nat, leader: Row, tif: TimeInForce, relations: seq<Relation>)
    requires BooksFit(s) && p < |s.books| && leader.price > 0.0 && Copies(s, p, leader, tif, relations).1.Done?
    requires RowsFit(s.pairs, s.rows) && (s.pairs[p].tickSize > 0.0 ==> !OffGrid(leader.price, s.pairs[p].tickSize))
    ensures RowsFit(s.pairs, Copies(s, p, leader, tif, relations).0.rows)
    decreases |relations|
  {
    hide CopyOne, BooksOk, RowsFit, OffGrid;
    if relations == [] {
    } else {
      var s1 := CopyOne(s, p, leader, tif, relations[0]).0;
      CopyOneOnward(s, p, leader, tif, relations[0]);
      CopyOneRowsFit(s, p, leader, tif, relations[0]);
      OnwardFits(s, s1);
      CopiesRowsFit(s1, p, leader, tif, relations[1..]);
    }
  }

  lemma PlaceLimitRowsFit(s: Exchange, ev: Event)
    requires BooksFit(s) && RowsFit(s.pairs, s.rows) && ev.PlaceLimit? && PlaceLimitOrder(s, ev).1.Done?
    ensures RowsFit(s.pairs, PlaceLimitOrder(s, ev).0.rows)
  {
    hide Enter, Copies, Filed, Onward, BooksOk, Process, LimitShape, KeptBack, QuantityRules, OffGrid, Finish, Sized,
         RowsFit, PlaceLimitOrder, RowTold;
    var row, e', r, s1, s2 := PlaceLimitStages(s, ev);
    var p, o, pair := ev.pair, Entering(s, ev), s.pairs[ev.pair];
    RulesSize(pair, ev.quantity, ev.price);
    LimitRowFits(s, p, o, row, r);
    EnterRowsFit(s, p, o);
    OnwardFits(s, s1);
    TakerPrice(s, s1, p, o, row, e', r);
    CopiesRowsFit(s1, p, row, ev.tif, s.relations);
    FinishRowsFit(s2, p, |s.rows|);
  }

  lemma PlaceMarketRowsFit(s: Exchange, ev: Event)
    requires BooksFit(s) && RowsFit(s.pairs, s.rows) && ev.PlaceMarket? && PlaceMarketOrder(s, ev).1.Done?
    ensures RowsFit(s.pairs, PlaceMarketOrder(s, ev).0.rows)
  {
    hide Filed, BooksOk, Process, PlaceMarketOrder, RowTold, Single, MarketTaker, FillTotal, RowsFit, SideSound, Legs,
         AfterLegs;
    var o, row, e', r, a, b := MarketFiled(s, ev);
    FilledSome(s, PlaceMarketOrder(s, ev).0, ev.pair, o, row, e', r, a, b);
    MarketRowTold(s, ev, o, row, e', r);
    FiledRowsFit(s, PlaceMarketOrder(s, ev).0, ev.pair, o, row, e', r, a, b);
  }

  lemma FilledSome(s: Exchange, s': Exchange, p: nat, o: Order, row: Row, e': State, r: EngineModel.Result,
                   a: seq<Fill>, b: seq<Fill>)
    requires BooksFit(s) && Filed(s, s', p, o, row, e', r, a, b)
    ensures FillTotal(r.fills) >= 0.0 && row.kind == o.kind && s'.pairs == s.pairs
  {
    hide SideSound, Legs, AfterLegs, FillRows, Backs, Mul, BookSound, TradesOf;
    BookAt(s, p);
    SideOf(s.books[p], o.side.Opposite());
    LegsPositive(o.side.Opposite(), s.books[p].Makers(o.side.Opposite()), a, b);
    forall i | 0 <= i < |r.fills| ensures r.fills[i].quantity > 0.0 { assert r.fills[i] in a + b; }
    TotalBounds(Matching.Amounts(r.fills));
  }

  lemma CancelRowsFit(s: Exchange, user: UserId, id: OrderId)
    requires RowsFit(s.pairs, s.rows)
    ensures RowsFit(s.pairs, CancelStored(s, user, id).0.rows)
  {
    hide Sized, Release, Cancel;
  }

  /** Every call, whatever it is answered with. */
  lemma StepRowsFit(s: Exchange, ev: Event)
    requires BooksFit(s) && RowsFit(s.pairs, s.rows)
    ensures var s' := Step(s, ev).0; BooksFit(s') && s'.pairs == s.pairs && RowsFit(s'.pairs, s'.rows)
  {
    hide BooksFit, PlaceLimitOrder, PlaceMarketOrder, CancelStored, RowsFit;
    PlaceRefused(s, ev);
    ViolatedSame(s, ev);
    if Step(s, ev).1.Done? {
      StepFits(s, ev);
      match ev
      case PlaceLimit(_, _, _, _, _, _, _) =>
        PlacedPairs(s, ev);
        PlaceLimitRowsFit(s, ev);
      case PlaceMarket(_, _, _, _, _) =>
        PlacedPairs(s, ev);
        PlaceMarketRowsFit(s, ev);
      case CancelOrder(user, id) =>
        CancelPairs(s, user, id);
        CancelRowsFit(s, user, id);
      case _ => OtherCalls(s, ev);
    }
  }

  lemma CancelPairs(s: Exchange, user: UserId, id: OrderId)
    ensures CancelStored(s, user, id).0.pairs == s.pairs
  {
    hide Release, Cancel;
  }

  lemma {:induction false} RunRowsFit(s: Exchange, evs: seq<Event>)
    requires BooksFit(s) && RowsFit(s.pairs, s.rows)
    ensures var r := Run(s, evs); BooksFit(r) && r.pairs == s.pairs && RowsFit(r.pairs, r.rows)
    decreases |evs|
  {
    hide BooksFit, RowsFit, Step;
    if evs == [] {
    } else {
      StepRowsFit(s, evs[0]);
      RunRowsFit(Step(s, evs[0]).0, evs[1..]);
    }
  }

  /** In every run, admissible or not: a stored order is open and untouched, partly filled and just that, filled
      exactly when nothing of it is left, or cancelled; and a stored limit order's price and size are within its pair's
      rules. */
  lemma StoredOrdersTell(s: Exchange, evs: seq<Event>, i: OrderId)
    requires Fresh(s) && i < |Run(s, evs).rows|
    ensures var row := Run(s, evs).rows[i];
      && row.status in {Open, PartiallyFilled, Filled, Cancelled}
      && (row.status.Open? ==> row.filled == 0.0 < row.quantity)
      && (row.status.PartiallyFilled? ==> 0.0 < row.filled < row.quantity)
      && (row.status.Filled? <==> row.filled >= row.quantity)
      && (row.kind.Limit? ==>
            && row.pair < |s.pairs| && row.price > 0.0
            && (Sized(s.pairs[row.pair], row.quantity, row.price)
                || Sized(s.pairs[row.pair], row.quantity + row.hidden, row.price)))
  {
    hide Run, Sized;
    RunRowsFit(s, evs);
    assert RowTold(Run(s, evs).rows[i]);
  }

  /** In every run, an order resting on a book is stored as open exactly while nothing of it is filled, and as partly
      filled exactly from its first fill on. */
  lemma RestingOrdersTell(s: Exchange, evs: seq<Event>, p: nat, o: Order)
    requires Fresh(s) && p < |Run(s, evs).books|
    requires o in Run(s, evs).books[p].bids || o in Run(s, evs).books[p].asks
    ensures var r := Run(s, evs);
      && o.id < |r.rows| && r.rows[o.id].status == o.status && r.rows[o.id].filled == o.filled
      && (o.status.Open? <==> o.filled == 0.0) && (o.status.PartiallyFilled? <==> o.filled > 0.0)
  {
    hide Run, Sized;
    RunRowsFit(s, evs);
    var r := Run(s, evs);
    BookAt(r, p);
    assert Backs(r.rows, p, o);
    assert RowTold(r.rows[o.id]);
  }

  // ----- what a call stores -----

  /** What becomes of a limit order of some size when so much crosses its limit: fill-or-kill goes through in full or
      not at all; any other fills what it reaches, and its status says how much that is. */
  predicate Fated(row: Row, size: real, reach: real, tif: TimeInForce) {
    if tif.Fok? && reach < size then row.filled == 0.0 && row.status.Cancelled?
    else
      && row.filled == Min(size, reach)
      && row.status == (if reach >= size then Filled else if reach > 0.0 then PartiallyFilled
                        else if tif in {Gtc, Gtd} then Open else Cancelled)
  }

  /** A placed limit order is stored with the user, the terms and the size asked for (with what an iceberg hides of it
      added), filled by what crosses its limit, and its status says how much that is. */
  lemma LimitStored(s: Exchange, ev: Event)
    requires BooksFit(s) && ev.PlaceLimit? && PlaceLimitOrder(s, ev).1.Done? && ev.pair < |s.books|
    ensures var s', n := PlaceLimitOrder(s, ev).0, |s.rows|; var opp := ev.side.Opposite();
      var reach := CrossingDepth(s.books[ev.pair].Makers(opp), ev.side, At(ev.price));
      && n < |s'.rows| && var row := s'.rows[n];
      && row.user == ev.user && row.pair == ev.pair && row.side == ev.side && row.kind.Limit? && row.price == ev.price
      && row.quantity + row.hidden == ev.quantity && Fated(row, ev.quantity, reach, ev.tif)
      && row.hidden == (if ev.tif in {Gtc, Gtd} && 0.0 < ev.peak < ev.quantity - row.filled
                        then ev.quantity - row.filled - ev.peak else 0.0)
  {
    hide Enter, Copies, Filed, Onward, BooksOk, Process, LimitShape, QuantityRules, PriceRules, Release, CrossingDepth,
         FillTotal, BookSound, Absent, NoStopsHeld, PlaceLimitOrder;
    var row, e', r, s1, s2 := PlaceLimitStages(s, ev);
    BookAt(s, ev.pair);
    IdNotResting(s, ev.pair);
    LimitStatus(s.books[ev.pair], Entering(s, ev));
  }

  /** A market order is stored with its user and side; a sell at the size asked for, filled by what the bids take of it;
      a quote-funded buy at the size it executed, as filled. */
  lemma MarketStored(s: Exchange, ev: Event)
    requires BooksFit(s) && ev.PlaceMarket? && PlaceMarketOrder(s, ev).1.Done? && ev.pair < |s.books|
    ensures var s', n := PlaceMarketOrder(s, ev).0, |s.rows|; var depth := Depth(s.books[ev.pair].bids);
      && |s'.rows| == n + 1 && var row := s'.rows[n];
      && row.user == ev.user && row.pair == ev.pair && row.side == ev.side && row.kind.Market? && row.price == 0.0
      && row.hidden == 0.0
      && if ev.side.Sell? then
           && row.quantity == ev.quantity && row.filled == Min(ev.quantity, depth)
           && row.status == (if depth >= ev.quantity then Filled
                             else if depth > 0.0 then PartiallyFilled else Cancelled)
         else row.quantity == row.filled && row.status.Filled?
  {
    hide Filed, BooksOk, Process, Single, MarketTaker, FillTotal, BookSound, NoStopsHeld, Depth, Onward, Fillable,
         PlaceMarketOrder;
    var o, row, e', r, a, b := MarketFiled(s, ev);
    BookAt(s, ev.pair);
    MarketStatus(s.books[ev.pair], o);
    SoundDepth(s.books[ev.pair], o.side.Opposite());
    FiledOnward(s, PlaceMarketOrder(s, ev).0, ev.pair, o, row, e', r, a, b);
    FiledTerms(s, PlaceMarketOrder(s, ev).0, ev.pair, o, row, e', r, a, b);
    MarketSides(s, ev);
  }

  lemma FiledTerms(s: Exchange, s': Exchange, p: nat, o: Order, row: Row, e': State, r: EngineModel.Result,
                   a: seq<Fill>, b: seq<Fill>)
    requires Filed(s, s', p, o, row, e', r, a, b)
    ensures row.user == o.user && row.pair == p && row.side == o.side && row.kind == o.kind && row.price == o.price
    ensures o.id == |s.rows|
  {
    hide Matched, FillRows, Backs;
  }

  lemma MarketSides(s: Exchange, ev: Event)
    requires ev.PlaceMarket? && PlaceMarketOrder(s, ev).1.Done?
    ensures if ev.side.Buy? then ev.quote > 0.0 else ev.quantity > 0.0
  {
    hide MatchMarketOrder, Reserve, BestPrice, QuantityRules;
  }

  // ----- followers -----

  /** An active relation in which the user of a row follows another, and copies that size of his order. */
  predicate Follows(row: Row, leader: Row, pair: Pair, rel: Relation) {
    && rel.active && rel.leader == leader.user && rel.follower == row.user
    && CopyQuantity(leader.quantity, leader.price, rel.allocation, rel.maxPosition, pair.minQty, pair.maxQty,
                    pair.minNotional, pair.stepSize) == Some(row.quantity)
  }

  /** A row a follower's copy of a leader's limit order is stored with. */
  predicate CopyOf(row: Row, leader: Row, pairs: seq<Pair>, p: nat, relations: seq<Relation>)
    requires p < |pairs|
  {
    && row.kind.Limit? && row.pair == p && row.side == leader.side && row.price == leader.price
    && exists j :: 0 <= j < |relations| && Follows(row, leader, pairs[p], relations[j])
  }

  ghost predicate NewCopies(s: Exchange, s': Exchange, leader: Row, p: nat, relations: seq<Relation>)
    requires p < |s.pairs|
  {
    && |s.rows| <= |s'.rows|
    && forall i :: |s.rows| <= i < |s'.rows| ==> CopyOf(s'.rows[i], leader, s.pairs, p, relations)
  }

  lemma CopyOneStored(s: Exchange, p: nat, leader: Row, tif: TimeInForce, rel: Relation)
    requires BooksFit(s) && p < |s.books| && leader.price > 0.0 && CopyOne(s, p, leader, tif, rel).1.Done?
    ensures var s' := CopyOne(s, p, leader, tif, rel).0;
      && NewCopies(s, s', leader, p, [rel]) && |s'.rows| <= |s.rows| + 1
  {
    hide Enter, BooksOk, Cap, FloorToStep, Release, Asked, Filed, KeptBack, LimitShape, Process, Onward, BookSound,
         CrossingDepth, FillTotal, NoStopsHeld, Absent;
    var pair := s.pairs[p];
    var size := CopyQuantity(leader.quantity, leader.price, rel.allocation, rel.maxPosition, pair.minQty, pair.maxQty,
                             pair.minNotional, pair.stepSize);
    if size.Some? {
      var o := LimitOrder(s, rel.follower, leader.side, leader.price, size.value, tif, 0.0);
      if Enter(s, p, o).1.Done? {
        var row, e', r := EnterFiled(s, p, o);
        FiledOnward(s, Enter(s, p, o).0, p, o, row, e', r, r.fills, []);
        TakerPrice(s, Enter(s, p, o).0, p, o, row, e', r);
        BookAt(s, p);
        IdNotResting(s, p);
        LimitStatus(s.books[p], o);
        assert rel.leader == leader.user && rel.active ==> Follows(row, leader, pair, [rel][0]);
      }
    }
  }

  /** Copies add no row but their own, each of a follower of the leader in an active relation, at the leader's side and
      price and the size that relation asks for. */
  lemma {:induction false} CopiesStored(s: Exchange, p: nat, leader: Row, tif: TimeInForce, relations: seq<Relation>)
    requires BooksFit(s) && p < |s.books| && leader.price > 0.0 && Copies(s, p, leader, tif, relations).1.Done?
    ensures var s' := Copies(s, p, leader, tif, relations).0;
      && NewCopies(s, s', leader, p, relations) && |s'.rows| <= |s.rows| + |relations|
    decreases |relations|
  {
    hide CopyOne, BooksOk, Onward, Follows;
    if relations == [] {
    } else {
      var s1 := CopyOne(s, p, leader, tif, relations[0]).0;
      var s2 := Copies(s, p, leader, tif, relations).0;
      CopyOneOnward(s, p, leader, tif, relations[0]);
      CopyOneStored(s, p, leader, tif, relations[0]);
      OnwardFits(s, s1);
      CopiesStored(s1, p, leader, tif, relations[1..]);
      forall i | |s.rows| <= i < |s2.rows| ensures CopyOf(s2.rows[i], leader, s.pairs, p, relations) {
        if i < |s1.rows| {
          CopiesOwnSide(s1, p, leader, tif, relations[1..], i);
          assert CopyOf(s1.rows[i], leader, s.pairs, p, [relations[0]]);
        } else {
          var j :| 0 <= j < |relations[1..]| && Follows(s2.rows[i], leader, s.pairs[p], relations[1..][j]);
          assert relations[j + 1] == relations[1..][j];
        }
      }
    }
  }

  /** A follower in an active relation for whom copy sizing finds a size, and who has what that can cost, or sells. */
  predicate CanCopy(s: Exchange, p: nat, leader: Row, rel: Relation)
    requires p < |s.pairs|
  {
    var pair := s.pairs[p];
    var size := CopyQuantity(leader.quantity, leader.price, rel.allocation, rel.maxPosition, pair.minQty, pair.maxQty,
                             pair.minNotional, pair.stepSize);
    && rel.active && rel.leader == leader.user && size.Some?
    && var need := if leader.side.Buy? then leader.price * size.value * (1.0 + pair.takerFee) else size.value;
    && 0.0 < need <= s.vault.Available(Key(rel.follower, if leader.side.Buy? then pair.quote else pair.base))
  }

  lemma CopyOneAdds(s: Exchange, p: nat, leader: Row, tif: TimeInForce, rel: Relation)
    requires p < |s.pairs| && p < |s.books| && CopyOne(s, p, leader, tif, rel).1.Done?
    ensures |CopyOne(s, p, leader, tif, rel).0.rows| == |s.rows| + (if CanCopy(s, p, leader, rel) then 1 else 0)
  {
    hide MatchLimitOrder, Cap, FloorToStep, Release, Vault.Available, Vault.Move, Vault.Log, Mul;
    var pair := s.pairs[p];
    var size := CopyQuantity(leader.quantity, leader.price, rel.allocation, rel.maxPosition, pair.minQty, pair.maxQty,
                             pair.minNotional, pair.stepSize);
    if size.Some? { CostIs(leader.price, size.value, pair.takerFee); }
  }

  /** A copy is a limit order of its own, with the leader's time in force. */
  lemma CopyOneFate(s: Exchange, p: nat, leader: Row, tif: TimeInForce, rel: Relation)
    requires BooksFit(s) && p < |s.books| && leader.price > 0.0 && CopyOne(s, p, leader, tif, rel).1.Done?
    requires |CopyOne(s, p, leader, tif, rel).0.rows| > |s.rows|
    ensures var row := CopyOne(s, p, leader, tif, rel).0.rows[|s.rows|];
      var reach := CrossingDepth(s.books[p].Makers(leader.side.Opposite()), leader.side, At(leader.price));
      row.user == rel.follower && row.hidden == 0.0 && Fated(row, row.quantity, reach, tif)
  {
    hide Enter, BooksOk, Cap, FloorToStep, Release, Asked, Filed, LimitShape, Process, Onward, BookSound, CrossingDepth,
         FillTotal, NoStopsHeld, Absent;
    var pair := s.pairs[p];
    var size := CopyQuantity(leader.quantity, leader.price, rel.allocation, rel.maxPosition, pair.minQty, pair.maxQty,
                             pair.minNotional, pair.stepSize);
    if size.Some? {
      var o := LimitOrder(s, rel.follower, leader.side, leader.price, size.value, tif, 0.0);
      if Enter(s, p, o).1.Done? {
        var row, e', r := EnterFiled(s, p, o);
        FiledOnward(s, Enter(s, p, o).0, p, o, row, e', r, r.fills, []);
        TakerPrice(s, Enter(s, p, o).0, p, o, row, e', r);
        BookAt(s, p);
        IdNotResting(s, p);
        LimitStatus(s.books[p], o);
      }
    }
  }

  lemma CostIs(price: real, quantity: real, fee: real)
    ensures Wallets.Cost(price, quantity, fee) == price * quantity * (1.0 + fee)
  {
  }

  /** Every relation has its turn: after the ones before it, it adds a copy exactly when its follower can place one with
      what he then has, and the copy fills what the book then offers within the leader's limit and time in force. */
  lemma {:induction false} CopiesInTurn(s: Exchange, p: nat, leader: Row, tif: TimeInForce, relations: seq<Relation>,
                                        j: nat)
    requires BooksFit(s) && p < |s.books| && leader.price > 0.0 && j < |relations|
    requires Copies(s, p, leader, tif, relations).1.Done?
    ensures var before := Copies(s, p, leader, tif, relations[..j]).0;
      var after := Copies(s, p, leader, tif, relations[..j + 1]).0;
      && before.pairs == s.pairs
      && |after.rows| == |before.rows| + (if CanCopy(before, p, leader, relations[j]) then 1 else 0)
      && (|after.rows| > |before.rows| ==>
            var row := after.rows[|before.rows|];
            var reach := CrossingDepth(before.books[p].Makers(leader.side.Opposite()), leader.side, At(leader.price));
            row.user == relations[j].follower && row.hidden == 0.0 && Fated(row, row.quantity, reach, tif))
    decreases |relations|
  {
    hide CopyOne, CanCopy, Fated, BooksOk, Onward, CrossingDepth;
    var s1 := CopyOne(s, p, leader, tif, relations[0]).0;
    CopyOneOnward(s, p, leader, tif, relations[0]);
    OnwardFits(s, s1);
    if j == 0 {
      CopyOneAdds(s, p, leader, tif, relations[0]);
      if |s1.rows| > |s.rows| { CopyOneFate(s, p, leader, tif, relations[0]); }
      assert relations[..1][1..] == [];
    } else {
      CopiesInTurn(s1, p, leader, tif, relations[1..], j - 1);
      assert relations[..j][1..] == relations[1..][..j - 1] && relations[..j + 1][1..] == relations[1..][..j];
    }
  }

  /** The rows a placed limit order adds after its own are its followers', each at the order's side and price and at the
      size copy sizing finds for the follower's relation and the leader's stored size. */
  lemma FollowersStored(s: Exchange, ev: Event, i: OrderId)
    requires BooksFit(s) && ev.PlaceLimit? && PlaceLimitOrder(s, ev).1.Done?
    ensures var s' := PlaceLimitOrder(s, ev).0;
      && |s'.rows| <= |s.rows| + 1 + |s.relations|
      && (|s.rows| < i < |s'.rows| ==>
            var row := s'.rows[i];
            && row.kind.Limit? && row.pair == ev.pair < |s.pairs| && row.side == ev.side && row.price == ev.price
            && s'.rows[|s.rows|].user == ev.user
            && exists j :: 0 <= j < |s.relations|
                           && Follows(row, s'.rows[|s.rows|], s.pairs[ev.pair], s.relations[j]))
  {
    hide Enter, Copies, Filed, Onward, BooksOk, Process, LimitShape, KeptBack, QuantityRules, PriceRules, Release,
         PlaceLimitOrder;
    var row, e', r, s1, s2 := PlaceLimitStages(s, ev);
    OnwardFits(s, s1);
    TakerPrice(s, s1, ev.pair, Entering(s, ev), row, e', r);
    CopiesStored(s1, ev.pair, row, ev.tif, s.relations);
    if |s.rows| < i < |s2.rows| { assert CopyOf(s2.rows[i], row, s1.pairs, ev.pair, s.relations); }
  }
}
