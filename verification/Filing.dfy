/** Stored orders and books over whole calls and runs, whatever the wallets: resting orders agree with their rows,
    a resting order leaves its book only filled or cancelled, and a finished order's row stays as it is. */
module Filing {
  import opened Orders
  import opened Priority
  import opened Matching
  import opened EngineModel
  import opened EngineProofs
  import opened Wallets
  import opened PairRules
  import opened CopySizing
  import opened ExchangeModel
  import opened Accounting
  import opened Agreement
  import opened Matches

  ghost predicate BooksFit(s: Exchange) {
    |s.books| == |s.pairs| && BooksOk(s.rows, s.books)
  }

  lemma BookAt(s: Exchange, p: nat)
    requires BooksFit(s) && p < |s.books|
    ensures BookOk(s.rows, p, s.books[p])
  {
  }

  /** The next order's id rests nowhere. */
  lemma IdNotResting(s: Exchange, p: nat)
    requires BooksFit(s) && p < |s.books|
    ensures Absent(s.books[p], |s.rows|)
  {
    assert BookOk(s.rows, p, s.books[p]);
  }

  function Stored(p: nat, trades: seq<Trade>): seq<TradeRow> {
    seq(|trades|, i requires 0 <= i < |trades| => TradeRow(p, trades[i]))
  }

  lemma {:induction false} PersistRows(s: Exchange, p: nat, trades: seq<Trade>)
    requires p < |s.pairs| && Persist(s, p, trades).Ok?
    ensures var s' := Persist(s, p, trades).value;
      s'.rows == FillRows(s.rows, trades) && s'.trades == s.trades + Stored(p, trades)
    decreases |trades|
  {
    hide Settle, FillRow;
    if trades == [] {
      assert s.trades + Stored(p, []) == s.trades;
    } else {
      var v := Settle(s.vault, s.pairs[p], trades[0]).value;
      PersistRows(s.(vault := v, trades := s.trades + [TradeRow(p, trades[0])], rows := FillRow(s.rows, trades[0])),
                  p, trades[1..]);
      assert Stored(p, trades) == [TradeRow(p, trades[0])] + Stored(p, trades[1..]);
    }
  }

  // ----- an order filed -----

  /** What a call that matched an order has done to the books, the rows and the trades. */
  ghost predicate Filed(s: Exchange, s': Exchange, p: nat, o: Order, row: Row, e': State, r: EngineModel.Result,
                        a: seq<Fill>, b: seq<Fill>)
  {
    && p < |s.pairs| == |s.books| && o.id == |s.rows| && s'.pairs == s.pairs
    && Matched(s.books[p], e', o, r, a, b) && s'.books == s.books[p := e']
    && row.user == o.user && row.pair == p && row.side == o.side && row.kind == o.kind && row.price == o.price
    && s'.rows == FillRows(s.rows + [row], TradesOf(r.fills, o, s.pairs[p].Fees()))
    && s'.trades == s.trades + Stored(p, TradesOf(r.fills, o, s.pairs[p].Fees()))
    && (r.taker in e'.Makers(o.side) && r.taker !in s.books[p].Makers(o.side) ==> Backs(s.rows + [row], p, r.taker))
  }

  lemma MatchFiled(s: Exchange, p: nat, o: Order, row: Row, a: seq<Fill>, b: seq<Fill>)
    requires p < |s.pairs| == |s.books| && o.id == |s.rows|
    requires row.user == o.user && row.pair == p && row.side == o.side && row.kind == o.kind && row.price == o.price
    requires var (e', r) := Process(s.books[p], o, false);
      && Matched(s.books[p], e', o, r, a, b)
      && (r.taker in e'.Makers(o.side) && r.taker !in s.books[p].Makers(o.side) ==> Backs(s.rows + [row], p, r.taker))
    requires var (e', r) := Process(s.books[p], o, false);
      Persist(s.(books := s.books[p := e'], rows := s.rows + [row]), p, TradesOf(r.fills, o, s.pairs[p].Fees())).Ok?
    ensures var (e', r) := Process(s.books[p], o, false);
      Filed(s, Persist(s.(books := s.books[p := e'], rows := s.rows + [row]), p,
                       TradesOf(r.fills, o, s.pairs[p].Fees())).value, p, o, row, e', r, a, b)
  {
    hide Process, Matched, Persist, FillRows, TradesOf, Stored, Backs;
    var (e', r) := Process(s.books[p], o, false);
    PersistRows(s.(books := s.books[p := e'], rows := s.rows + [row]), p, TradesOf(r.fills, o, s.pairs[p].Fees()));
  }

  lemma EnterFiled(s: Exchange, p: nat, o: Order) returns (row: Row, e': State, r: EngineModel.Result)
    requires BooksFit(s) && p < |s.books| && Incoming(o) && o.kind.Limit? && o.id == |s.rows| && Enter(s, p, o).1.Done?
    ensures Filed(s, Enter(s, p, o).0, p, o, row, e', r, r.fills, [])
    ensures (e', r) == Process(s.books[p], o, false) && row == RowOf(p, r.taker, KeptBack(o, r)) && LimitShape(o, r)
  {
    hide Process, Matched, Persist, FillRows, TradesOf, Stored, BooksOk, LimitShape, KeptBack, Reserve, BookSound,
         Filed;
    BookAt(s, p);
    IdNotResting(s, p);
    LimitMatches(s.books[p], o);
    var made := Process(s.books[p], o, false);
    e', r := made.0, made.1;
    row := RowOf(p, r.taker, KeptBack(o, r));
    TakerTerms(s.books[p], e', o, r, r.fills, []);
    var pair := s.pairs[p];
    var v := Reserve(s.vault, pair, o.user, o.side, o.quantity, o.price, 0.0, pair.takerFee).value;
    MatchFiled(s.(vault := v), p, o, row, r.fills, []);
    FiledFrom(s.(vault := v), s, Enter(s, p, o).0, p, o, row, e', r, r.fills, []);
  }

  lemma TakerTerms(e: State, e': State, o: Order, r: EngineModel.Result, a: seq<Fill>, b: seq<Fill>)
    requires Matched(e, e', o, r, a, b)
    ensures r.taker.id == o.id && r.taker.user == o.user && r.taker.side == o.side && r.taker.kind == o.kind
    ensures r.taker.price == o.price
  {
  }

  lemma FiledFrom(s: Exchange, t: Exchange, s': Exchange, p: nat, o: Order, row: Row, e': State, r: EngineModel.Result,
                  a: seq<Fill>, b: seq<Fill>)
    requires Filed(s, s', p, o, row, e', r, a, b) && t == s.(vault := t.vault)
    ensures Filed(t, s', p, o, row, e', r, a, b)
  {
    hide Matched, FillRows, TradesOf, Backs;
  }

  lemma MarketFiled(s: Exchange, ev: Event)
    returns (o: Order, row: Row, e': State, r: EngineModel.Result, a: seq<Fill>, b: seq<Fill>)
    requires BooksFit(s) && ev.PlaceMarket? && PlaceMarketOrder(s, ev).1.Done?
    ensures ev.pair < |s.books| && o == MarketOrder(s, ev) && Incoming(o) && (o.quantity > 0.0 || o.quote > 0.0)
    ensures Filed(s, PlaceMarketOrder(s, ev).0, ev.pair, o, row, e', r, a, b)
    ensures (e', r) == Process(s.books[ev.pair], o, false) && row.hidden == 0.0
    ensures r.taker == MarketTaker(o, FillTotal(r.fills))
    ensures Single(s.books[ev.pair].Makers(o.side.Opposite()), o) ==> b == []
    ensures o.side.Buy? ==> row.quantity == row.filled == FillTotal(r.fills)
    ensures o.side.Sell? ==> row.quantity == r.taker.quantity && row.filled == r.taker.filled
    ensures row.status == r.taker.status
  {
    hide Process, Matched, Persist, FillRows, TradesOf, Stored, BooksOk, Reserve, BookSound, Filed, FillTotal,
         FillWorth,
         Single, MarketTaker, ReleaseQuote, Release, BestPrice, QuantityRules;
    var p := ev.pair;
    o := MarketOrder(s, ev);
    BookAt(s, p);
    IdNotResting(s, p);
    a, b := MarketMatches(s.books[p], o);
    var made := Process(s.books[p], o, false);
    e', r := made.0, made.1;
    TakerTerms(s.books[p], e', o, r, a, b);
    var taker :=
      if o.side.Buy? then r.taker.(filled := FillTotal(r.fills), quantity := FillTotal(r.fills)) else r.taker;
    row := RowOf(p, taker, 0.0);
    NeverRestsMarket(s.books[p], e', o, r, a, b);
    var s0 := s.(vault := MarketReserved(s, ev).value);
    MatchFiled(s0, p, o, row, a, b);
    var s1 := s0.(books := s.books[p := e'], rows := s.rows + [row]);
    var s2 := Persist(s1, p, TradesOf(r.fills, o, s.pairs[p].Fees())).value;
    FiledFrom(s0, s, s2, p, o, row, e', r, a, b);
    FiledTo(s, s2, PlaceMarketOrder(s, ev).0, p, o, row, e', r, a, b);
  }

  lemma FiledTo(s: Exchange, s': Exchange, t: Exchange, p: nat, o: Order, row: Row, e': State, r: EngineModel.Result,
                a: seq<Fill>, b: seq<Fill>)
    requires Filed(s, s', p, o, row, e', r, a, b) && t == s'.(vault := t.vault)
    ensures Filed(s, t, p, o, row, e', r, a, b)
  {
    hide Matched, FillRows, TradesOf, Backs;
  }

  /** Only limit orders rest. */
  lemma NeverRestsMarket(e: State, e': State, o: Order, r: EngineModel.Result, a: seq<Fill>, b: seq<Fill>)
    requires Matched(e, e', o, r, a, b) && o.kind.Market?
    ensures r.taker !in e'.Makers(o.side)
  {
    SideOf(e', o.side);
  }

  /** The agreement of every book with the rows, once a match is booked. */
  lemma FiledFits(s: Exchange, s': Exchange, p: nat, o: Order, row: Row, e': State, r: EngineModel.Result,
                  a: seq<Fill>, b: seq<Fill>)
    requires BooksFit(s) && Filed(s, s', p, o, row, e', r, a, b)
    ensures BooksFit(s')
  {
    hide FillRows, TradesOf, Legs, AfterLegs, BookSound, Backs, MakersOk, Stored;
    var fees, rows, opp, e := s.pairs[p].Fees(), s.rows + [row], o.side.Opposite(), s.books[p];
    var makers := e.Makers(opp);
    assert BookOk(s.rows, p, e);
    var rows' := FillRows(rows, TradesOf(r.fills, o, fees));
    SideOf(e, opp);
    SideOf(e, o.side);
    assert SideBacked(s.rows, p, makers);
    BackedLonger(s.rows, row, p, makers);
    LegsBacked(rows, p, opp, makers, a, b, o, fees);
    forall q | 0 <= q < |s'.books| ensures BookOk(rows', q, s'.books[q]) {
      assert BookOk(s.rows, q, s.books[q]);
      if q != p {
        BackedLonger(s.rows, row, q, s.books[q].bids);
        BackedLonger(s.rows, row, q, s.books[q].asks);
        LegsOthers(rows, p, opp, makers, a, b, o, fees, q, s.books[q].bids);
        LegsOthers(rows, p, opp, makers, a, b, o, fees, q, s.books[q].asks);
      } else {
        OwnSideBacked(s, s', p, o, row, e', r, a, b);
      }
    }
  }

  lemma OwnSideBacked(s: Exchange, s': Exchange, p: nat, o: Order, row: Row, e': State, r: EngineModel.Result,
                      a: seq<Fill>, b: seq<Fill>)
    requires BooksFit(s) && Filed(s, s', p, o, row, e', r, a, b)
    ensures SideBacked(s'.rows, p, e'.Makers(o.side))
  {
    hide FillRows, TradesOf, Legs, AfterLegs, Backs, MakersOk, Uncrossed, Stored;
    var fees, rows, opp, e := s.pairs[p].Fees(), s.rows + [row], o.side.Opposite(), s.books[p];
    assert BookOk(s.rows, p, e);
    SideOf(e, opp);
    SideOf(e, o.side);
    var own := e'.Makers(o.side);
    BackedLonger(s.rows, row, p, e.Makers(o.side));
    BackedLonger(s.rows, row, p, e.Makers(opp));
    assert SideBacked(rows, p, own);
    assert forall x :: x in own ==> x.side == o.side;
    LegsOthers(rows, p, opp, e.Makers(opp), a, b, o, fees, p, own);
  }

  // ----- where an order stands -----

  ghost predicate Rests(e: State, id: OrderId) {
    exists o :: (o in e.bids || o in e.asks) && o.id == id
  }

  /** A stored order that rests on no book. */
  ghost predicate Idle(s: Exchange, i: OrderId) {
    i < |s.rows| && forall q :: 0 <= q < |s.books| ==> !Rests(s.books[q], i)
  }

  /** The same order, perhaps filled further. */
  predicate SameOrder(a: Row, b: Row) {
    b == a.(filled := b.filled, status := b.status)
  }

  /** An order that rested on book `q` still does; or it has been filled to the last, rests no more, and is stored
      so. */
  ghost predicate Carried(s: Exchange, s': Exchange, q: nat, i: OrderId)
    requires q < |s.books| && q < |s'.books| && i < |s.rows| <= |s'.rows|
  {
    || (Rests(s'.books[q], i) && SameOrder(s.rows[i], s'.rows[i]))
    || (Idle(s', i) && s'.rows[i] == s.rows[i].(filled := s.rows[i].quantity, status := Filled))
  }

  /** What happens to the orders there were while new ones are matched. */
  ghost predicate Onward(s: Exchange, s': Exchange) {
    && BooksFit(s') && s'.pairs == s.pairs && |s.rows| <= |s'.rows| && |s'.books| == |s.books|
    && s.trades <= s'.trades
    && (forall i :: 0 <= i < |s.rows| && Idle(s, i) ==> Idle(s', i) && s'.rows[i] == s.rows[i])
    && (forall q, i :: 0 <= q < |s.books| && 0 <= i < |s.rows| && Rests(s.books[q], i) ==> Carried(s, s', q, i))
  }

  lemma OnwardSame(s: Exchange, s': Exchange)
    requires BooksFit(s) && s' == s.(vault := s'.vault)
    ensures Onward(s, s')
  {
    hide BooksOk;
  }

  lemma OnwardOn(a: Exchange, b: Exchange, c: Exchange)
    requires Onward(a, b) && Onward(b, c)
    ensures Onward(a, c)
  {
    hide BooksFit, Rests, Idle;
    forall q, i | 0 <= q < |a.books| && 0 <= i < |a.rows| && Rests(a.books[q], i) ensures Carried(a, c, q, i) {
      assert Carried(a, b, q, i);
      if Rests(b.books[q], i) && SameOrder(a.rows[i], b.rows[i]) { assert Carried(b, c, q, i); }
    }
  }

  lemma RestsBacked(s: Exchange, q: nat, i: OrderId)
    requires BooksFit(s) && q < |s.books| && Rests(s.books[q], i)
    ensures i < |s.rows| && s.rows[i].pair == q && s.rows[i].status.Live()
  {
    assert BookOk(s.rows, q, s.books[q]);
  }

  /** A finished order rests nowhere. */
  lemma TerminalIdle(s: Exchange, i: OrderId)
    requires BooksFit(s) && i < |s.rows| && s.rows[i].status.Terminal()
    ensures Idle(s, i)
  {
    hide BooksOk, Rests;
    forall q | 0 <= q < |s.books| ensures !Rests(s.books[q], i) {
      if Rests(s.books[q], i) { RestsBacked(s, q, i); }
    }
  }

  // ----- one match, order by order -----

  ghost predicate Listed(s: seq<Order>, id: OrderId) {
    exists x :: x in s && x.id == id
  }

  /** A match moves no row but its makers'. */
  lemma LegOthers(rows: seq<Row>, p: nat, side: Side, makers: seq<Order>, fills: seq<Fill>, o: Order,
                  fees: EngineModel.Fees,
                  i: OrderId)
    requires SideSound(side, makers) && Greedy(makers, fills) && SideBacked(rows, p, makers)
    requires i < |rows| && !Listed(makers, i)
    ensures |FillRows(rows, TradesOf(fills, o, fees))| == |rows|
    ensures FillRows(rows, TradesOf(fills, o, fees))[i] == rows[i]
    ensures !Listed(Leftover(side, makers, fills), i)
  {
    hide FillRows, TradesOf, Leftover, FilledRow;
    var t := TradesOf(fills, o, fees);
    MakerIds(side, makers, fills, o, fees);
    forall j | 0 <= j < |t| ensures t[j].makerOrder < |rows| && t[j].makerOrder != i { assert makers[j] in makers; }
    FillRowsEffect(rows, t);
    assert !Makes(t, i);
    LeftoverSound(side, makers, fills);
  }

  /** A maker still there after a match is the same order; one that is gone has been filled to the last. */
  lemma LegMaker(rows: seq<Row>, p: nat, side: Side, makers: seq<Order>, fills: seq<Fill>, o: Order,
                 fees: EngineModel.Fees,
                 m: Order)
    requires SideSound(side, makers) && Greedy(makers, fills) && SideBacked(rows, p, makers) && m in makers
    ensures var rows' := FillRows(rows, TradesOf(fills, o, fees));
      && m.id < |rows| == |rows'|
      && if Listed(Leftover(side, makers, fills), m.id)
         then SameOrder(rows[m.id], rows'[m.id])
         else rows'[m.id] == rows[m.id].(filled := rows[m.id].quantity, status := Filled)
  {
    hide Leftover, FillRows, TradesOf, FilledRow;
    var t := TradesOf(fills, o, fees);
    MakerIds(side, makers, fills, o, fees);
    forall i | 0 <= i < |t| ensures t[i].makerOrder < |rows| { assert makers[i] in makers; }
    FillRowsEffect(rows, t);
    var j :| 0 <= j < |makers| && makers[j] == m;
    assert m.id < |rows| by { BackedStored(rows, p, m); }
    if j < |fills| {
      assert t[j].makerOrder == m.id;
      FilledSame(rows[m.id], fills[j].quantity);
      if !Listed(Leftover(side, makers, fills), m.id) { LegMakerFilled(rows, p, side, makers, fills, j); }
    } else {
      LegMakerWaits(side, makers, fills, j);
      forall i | 0 <= i < |t| ensures t[i].makerOrder != m.id { assert makers[i].id != makers[j].id; }
      assert !Makes(t, m.id);
    }
  }

  lemma BackedStored(rows: seq<Row>, p: nat, m: Order)
    requires Backs(rows, p, m)
    ensures m.id < |rows|
  {
  }

  lemma FilledSame(row: Row, amount: real)
    ensures SameOrder(row, FilledRow(row, amount))
  {
  }

  lemma LegMakerWaits(side: Side, makers: seq<Order>, fills: seq<Fill>, j: nat)
    requires SideSound(side, makers) && Greedy(makers, fills) && |fills| <= j < |makers|
    ensures makers[j] in Leftover(side, makers, fills)
  {
    hide Leftover;
    LeftoverKeeps(side, makers, fills);
    assert makers[|fills|..][j - |fills|] == makers[j];
  }

  lemma LegMakerFilled(rows: seq<Row>, p: nat, side: Side, makers: seq<Order>, fills: seq<Fill>, j: nat)
    requires SideSound(side, makers) && Greedy(makers, fills) && SideBacked(rows, p, makers) && j < |fills|
    requires !Listed(Leftover(side, makers, fills), makers[j].id)
    ensures var m := makers[j];
      && m.id < |rows|
      && FilledRow(rows[m.id], fills[j].quantity) == rows[m.id].(filled := rows[m.id].quantity, status := Filled)
  {
    hide Leftover;
    var m := makers[j];
    assert m in makers;
    assert Backs(rows, p, m);
    LeftoverKeeps(side, makers, fills);
    assert fills[j].quantity == m.Remaining() by {
      if j == |fills| - 1 { FillingFacts(m, fills[j].quantity); }
    }
  }

  lemma LegsFates(rows: seq<Row>, p: nat, side: Side, makers: seq<Order>, a: seq<Fill>, b: seq<Fill>, o: Order,
                  fees: EngineModel.Fees, i: OrderId)
    requires SideSound(side, makers) && Legs(side, makers, a, b) && SideBacked(rows, p, makers) && i < |rows|
    ensures var rows' := FillRows(rows, TradesOf(a + b, o, fees)); var left := AfterLegs(side, makers, a, b);
      && |rows'| == |rows|
      && if !Listed(makers, i) then rows'[i] == rows[i] && !Listed(left, i)
         else if Listed(left, i) then SameOrder(rows[i], rows'[i])
         else rows'[i] == rows[i].(filled := rows[i].quantity, status := Filled)
  {
    hide Leftover, FillRows, TradesOf, Greedy, SideSound, SideBacked, Listed;
    var rows1, left1 := FillRows(rows, TradesOf(a, o, fees)), Leftover(side, makers, a);
    TradesAppend(a, b, o, fees);
    FillRowsAppend(rows, TradesOf(a, o, fees), TradesOf(b, o, fees));
    LeftoverBacked(rows, p, side, makers, a, o, fees);
    LeftoverSound(side, makers, a);
    LegFate(rows, p, side, makers, a, o, fees, i);
    LegFate(rows1, p, side, left1, b, o, fees, i);
  }

  lemma LegFate(rows: seq<Row>, p: nat, side: Side, makers: seq<Order>, fills: seq<Fill>, o: Order,
                fees: EngineModel.Fees, i: OrderId)
    requires SideSound(side, makers) && Greedy(makers, fills) && SideBacked(rows, p, makers) && i < |rows|
    ensures var rows' := FillRows(rows, TradesOf(fills, o, fees)); var left := Leftover(side, makers, fills);
      && |rows'| == |rows|
      && if !Listed(makers, i) then rows'[i] == rows[i] && !Listed(left, i)
         else if Listed(left, i) then SameOrder(rows[i], rows'[i])
         else rows'[i] == rows[i].(filled := rows[i].quantity, status := Filled)
  {
    hide Leftover, FillRows, TradesOf, Greedy, SideSound, SideBacked;
    if Listed(makers, i) {
      var m :| m in makers && m.id == i;
      LegMaker(rows, p, side, makers, fills, o, fees, m);
    } else {
      LegOthers(rows, p, side, makers, fills, o, fees, i);
    }
  }

  lemma RestsListed(e: State, side: Side, i: OrderId)
    ensures Rests(e, i) <==> Listed(e.Makers(side), i) || Listed(e.Makers(side.Opposite()), i)
  {
  }

  /** One call's match carries every order onward. */
  lemma FiledOnward(s: Exchange, s': Exchange, p: nat, o: Order, row: Row, e': State, r: EngineModel.Result,
                    a: seq<Fill>, b: seq<Fill>)
    requires BooksFit(s) && Filed(s, s', p, o, row, e', r, a, b)
    ensures Onward(s, s') && |s'.rows| == |s.rows| + 1 && s'.rows[o.id] == row
  {
    hide FillRows, TradesOf, Legs, AfterLegs, BooksOk, Backs, BookSound, Stored, Rests, Listed, Idle, Carried;
    var e, opp, rows := s.books[p], o.side.Opposite(), s.rows + [row];
    FiledFits(s, s', p, o, row, e', r, a, b);
    BookAt(s, p);
    SideOf(e, opp);
    assert SideBacked(s.rows, p, e.Makers(opp));
    BackedLonger(s.rows, row, p, e.Makers(opp));
    NewUnlisted(s, p, opp);
    LegsFates(rows, p, opp, e.Makers(opp), a, b, o, s.pairs[p].Fees(), o.id);
    forall i | 0 <= i < |s.rows| && Idle(s, i) ensures Idle(s', i) && s'.rows[i] == s.rows[i] {
      LegsFates(rows, p, opp, e.Makers(opp), a, b, o, s.pairs[p].Fees(), i);
      IdleOn(s, s', p, o, row, e', r, a, b, i);
    }
    forall q, i | 0 <= q < |s.books| && 0 <= i < |s.rows| && Rests(s.books[q], i) ensures Carried(s, s', q, i) {
      LegsFates(rows, p, opp, e.Makers(opp), a, b, o, s.pairs[p].Fees(), i);
      RestsOn(s, s', p, o, row, e', r, a, b, q, i);
    }
  }

  lemma NewUnlisted(s: Exchange, p: nat, side: Side)
    requires BooksFit(s) && p < |s.books|
    ensures !Listed(s.books[p].Makers(side), |s.rows|)
  {
    IdNotResting(s, p);
  }

  lemma IdleOn(s: Exchange, s': Exchange, p: nat, o: Order, row: Row, e': State, r: EngineModel.Result,
               a: seq<Fill>, b: seq<Fill>, i: OrderId)
    requires BooksFit(s) && Filed(s, s', p, o, row, e', r, a, b) && i < |s.rows| && Idle(s, i)
    requires var opp := o.side.Opposite(); var left := AfterLegs(opp, s.books[p].Makers(opp), a, b);
      && |s'.rows| == |s.rows| + 1
      && (!Listed(s.books[p].Makers(opp), i) ==> s'.rows[i] == s.rows[i] && !Listed(left, i))
    ensures Idle(s', i) && s'.rows[i] == s.rows[i]
  {
    hide FillRows, TradesOf, Legs, AfterLegs, Backs, BookSound, Stored, Rests, BooksOk;
    RestsListed(s.books[p], o.side, i);
    RestsListed(e', o.side, i);
    forall q | 0 <= q < |s'.books| ensures !Rests(s'.books[q], i) {
      if q != p { assert s'.books[q] == s.books[q]; }
    }
  }

  lemma RestsOn(s: Exchange, s': Exchange, p: nat, o: Order, row: Row, e': State, r: EngineModel.Result,
                a: seq<Fill>, b: seq<Fill>, q: nat, i: OrderId)
    requires BooksFit(s) && BooksFit(s') && Filed(s, s', p, o, row, e', r, a, b)
    requires q < |s.books| && i < |s.rows| && Rests(s.books[q], i)
    requires var opp := o.side.Opposite(); var left := AfterLegs(opp, s.books[p].Makers(opp), a, b);
      && |s'.rows| == |s.rows| + 1
      && if !Listed(s.books[p].Makers(opp), i) then s'.rows[i] == s.rows[i] && !Listed(left, i)
         else if Listed(left, i) then SameOrder(s.rows[i], s'.rows[i])
         else s'.rows[i] == s.rows[i].(filled := s.rows[i].quantity, status := Filled)
    ensures Carried(s, s', q, i)
  {
    hide FillRows, TradesOf, Legs, AfterLegs, Backs, BookSound, Stored, Rests, BooksOk, Listed;
    RestsBacked(s, q, i);
    RestsListed(s.books[p], o.side, i);
    RestsListed(e', o.side, i);
    if q != p {
      if Listed(s.books[p].Makers(o.side.Opposite()), i) { RestsBacked(s, p, i); }
      assert s'.books[q] == s.books[q];
    } else if Listed(s.books[p].Makers(o.side), i) {
      OwnListed(s, s', p, o, row, e', r, a, b, i);
      SidesApart(s, p, o.side, i);
    } else if !Listed(e'.Makers(o.side.Opposite()), i) {
      OwnUnlisted(s, s', p, o, row, e', r, a, b, i);
      TerminalIdle(s', i);
    }
  }

  lemma OwnListed(s: Exchange, s': Exchange, p: nat, o: Order, row: Row, e': State, r: EngineModel.Result,
                  a: seq<Fill>, b: seq<Fill>, i: OrderId)
    requires Filed(s, s', p, o, row, e', r, a, b) && Listed(s.books[p].Makers(o.side), i)
    ensures Listed(e'.Makers(o.side), i)
  {
    hide Legs, AfterLegs, BookSound, Backs, FillRows;
  }

  lemma OwnUnlisted(s: Exchange, s': Exchange, p: nat, o: Order, row: Row, e': State, r: EngineModel.Result,
                    a: seq<Fill>, b: seq<Fill>, i: OrderId)
    requires Filed(s, s', p, o, row, e', r, a, b) && !Listed(s.books[p].Makers(o.side), i) && i < |s.rows|
    ensures !Listed(e'.Makers(o.side), i)
  {
    hide Legs, AfterLegs, BookSound, Backs, FillRows;
  }

  /** An id rests on one side of a book only. */
  lemma SidesApart(s: Exchange, p: nat, side: Side, i: OrderId)
    requires BooksFit(s) && p < |s.books| && Listed(s.books[p].Makers(side), i)
    ensures !Listed(s.books[p].Makers(side.Opposite()), i)
  {
    assert BookOk(s.rows, p, s.books[p]);
    SideOf(s.books[p], side);
    SideOf(s.books[p], side.Opposite());
  }

  // ----- whole calls -----

  /** What a row keeps back is no matter to the books. */
  lemma HiddenFits(s: Exchange, id: OrderId, hidden: real)
    requires BooksFit(s) && id < |s.rows|
    ensures BooksFit(s.(rows := s.rows[id := s.rows[id].(hidden := hidden)]))
  {
    hide BookSound, NoStopsHeld;
    var rows := s.rows[id := s.rows[id].(hidden := hidden)];
    forall q | 0 <= q < |s.books| ensures BookOk(rows, q, s.books[q]) {
      assert BookOk(s.rows, q, s.books[q]);
    }
  }

  lemma FinishOnward(a: Exchange, s: Exchange, p: nat, id: OrderId)
    requires Onward(a, s) && p < |s.pairs| && |a.rows| <= id < |s.rows|
    ensures Onward(a, Finish(s, p, id))
  {
    hide BooksOk, Rests, Release;
    HiddenFits(s, id, 0.0);
    var s' := Finish(s, p, id);
    forall q, i | 0 <= q < |a.books| && 0 <= i < |a.rows| && Rests(a.books[q], i) ensures Carried(a, s', q, i) {
      assert Carried(a, s, q, i);
    }
  }

  lemma EnterOnward(s: Exchange, p: nat, o: Order)
    requires BooksFit(s) && p < |s.books| && Incoming(o) && o.kind.Limit? && o.id == |s.rows| && Enter(s, p, o).1.Done?
    ensures Onward(s, Enter(s, p, o).0)
  {
    hide Enter, Filed, BooksOk, Onward;
    var row, e', r := EnterFiled(s, p, o);
    FiledOnward(s, Enter(s, p, o).0, p, o, row, e', r, r.fills, []);
  }

  lemma CopyOneOnward(s: Exchange, p: nat, leader: Row, tif: TimeInForce, rel: Relation)
    requires BooksFit(s) && p < |s.books| && leader.price > 0.0
    ensures var (s', reply) := CopyOne(s, p, leader, tif, rel); reply.Done? ==> Onward(s, s')
  {
    hide Enter, Finish, Onward, BooksOk, Cap, FloorToStep;
    OnwardSame(s, s);
    var pair := s.pairs[p];
    var size := CopyQuantity(leader.quantity, leader.price, rel.allocation, rel.maxPosition, pair.minQty, pair.maxQty,
                             pair.minNotional, pair.stepSize);
    if size.Some? {
      var o := LimitOrder(s, rel.follower, leader.side, leader.price, size.value, tif, 0.0);
      if Enter(s, p, o).1.Done? {
        EnterOnward(s, p, o);
        FinishOnward(s, Enter(s, p, o).0, p, |s.rows|);
      } else if Enter(s, p, o).1.Refused? {
        OnwardSame(s, CopyOne(s, p, leader, tif, rel).0);
      }
    }
  }

  lemma OnwardFits(s: Exchange, s': Exchange)
    requires Onward(s, s')
    ensures BooksFit(s') && |s'.books| == |s.books| && |s'.rows| >= |s.rows|
  {
  }

  lemma {:induction false} CopiesOnward(s: Exchange, p: nat, leader: Row, tif: TimeInForce, relations: seq<Relation>)
    requires BooksFit(s) && p < |s.books| && leader.price > 0.0
    ensures var (s', reply) := Copies(s, p, leader, tif, relations); reply.Done? ==> Onward(s, s')
    decreases |relations|
  {
    hide CopyOne, Onward, BooksOk;
    if relations == [] {
      OnwardSame(s, s);
    } else {
      var (s1, reply) := CopyOne(s, p, leader, tif, relations[0]);
      CopyOneOnward(s, p, leader, tif, relations[0]);
      if reply.Done? {
        OnwardFits(s, s1);
        CopiesOnward(s1, p, leader, tif, relations[1..]);
        var s2 := Copies(s1, p, leader, tif, relations[1..]);
        if s2.1.Done? { OnwardOn(s, s1, s2.0); }
      }
    }
  }

  /** A match moves no row of the taker's own side. */
  lemma FiledOwnSide(s: Exchange, s': Exchange, p: nat, o: Order, row: Row, e': State, r: EngineModel.Result,
                     a: seq<Fill>, b: seq<Fill>, i: OrderId)
    requires BooksFit(s) && Filed(s, s', p, o, row, e', r, a, b) && i < |s.rows| && s.rows[i].side == o.side
    ensures i < |s'.rows| && s'.rows[i] == s.rows[i]
  {
    hide FillRows, TradesOf, Legs, AfterLegs, BooksOk, BookSound, Stored, Backs;
    var e, opp, rows := s.books[p], o.side.Opposite(), s.rows + [row];
    BookAt(s, p);
    SideOf(e, opp);
    assert SideBacked(s.rows, p, e.Makers(opp));
    BackedLonger(s.rows, row, p, e.Makers(opp));
    OtherSideUnlisted(s, p, opp, i);
    LegsFates(rows, p, opp, e.Makers(opp), a, b, o, s.pairs[p].Fees(), i);
  }

  lemma OtherSideUnlisted(s: Exchange, p: nat, side: Side, i: OrderId)
    requires BooksFit(s) && p < |s.books| && i < |s.rows| && s.rows[i].side != side
    ensures !Listed(s.books[p].Makers(side), i)
  {
    assert BookOk(s.rows, p, s.books[p]);
    SideOf(s.books[p], side);
  }

  lemma CopyOneOwnSide(s: Exchange, p: nat, leader: Row, tif: TimeInForce, rel: Relation, i: OrderId)
    requires BooksFit(s) && p < |s.books| && leader.price > 0.0 && i < |s.rows| && s.rows[i].side == leader.side
    ensures var (s', reply) := CopyOne(s, p, leader, tif, rel);
      reply.Done? ==> i < |s'.rows| && s'.rows[i] == s.rows[i]
  {
    hide Enter, BooksOk, Cap, FloorToStep, Filed, Release;
    var pair := s.pairs[p];
    var size := CopyQuantity(leader.quantity, leader.price, rel.allocation, rel.maxPosition, pair.minQty, pair.maxQty,
                             pair.minNotional, pair.stepSize);
    if size.Some? {
      var o := LimitOrder(s, rel.follower, leader.side, leader.price, size.value, tif, 0.0);
      if Enter(s, p, o).1.Done? {
        var row, e', r := EnterFiled(s, p, o);
        FiledOwnSide(s, Enter(s, p, o).0, p, o, row, e', r, r.fills, [], i);
      }
    }
  }

  /** Copies go to the leader's own side, so they leave the leader's row as it is. */
  lemma {:induction false} CopiesOwnSide(s: Exchange, p: nat, leader: Row, tif: TimeInForce, relations: seq<Relation>,
                                         i: OrderId)
    requires BooksFit(s) && p < |s.books| && leader.price > 0.0 && i < |s.rows| && s.rows[i].side == leader.side
    ensures var (s', reply) := Copies(s, p, leader, tif, relations);
      reply.Done? ==> i < |s'.rows| && s'.rows[i] == s.rows[i]
    decreases |relations|
  {
    hide CopyOne, BooksOk;
    if relations == [] {
    } else {
      var (s1, reply) := CopyOne(s, p, leader, tif, relations[0]);
      CopyOneOnward(s, p, leader, tif, relations[0]);
      CopyOneOwnSide(s, p, leader, tif, relations[0], i);
      if reply.Done? {
        OnwardFits(s, s1);
        CopiesOwnSide(s1, p, leader, tif, relations[1..], i);
      }
    }
  }

  /** An accepted limit order, as it is handed to the engine. */
  function Entering(s: Exchange, ev: Event): Order
    requires ev.PlaceLimit?
  {
    LimitOrder(s, ev.user, ev.side, ev.price, ev.quantity, ev.tif, ev.peak)
  }

  /** The three stages of placing a limit order: entered, copied, finished. */
  lemma PlaceLimitStages(s: Exchange, ev: Event)
    returns (row: Row, e': State, r: EngineModel.Result, s1: Exchange, s2: Exchange)
    requires BooksFit(s) && ev.PlaceLimit? && PlaceLimitOrder(s, ev).1.Done?
    ensures LimitAccepted(s, ev) && Incoming(Entering(s, ev))
    ensures Enter(s, ev.pair, Entering(s, ev)) == (s1, Done)
    ensures Filed(s, s1, ev.pair, Entering(s, ev), row, e', r, r.fills, [])
    ensures (e', r) == Process(s.books[ev.pair], Entering(s, ev), false) && LimitShape(Entering(s, ev), r)
    ensures row == RowOf(ev.pair, r.taker, KeptBack(Entering(s, ev), r))
    ensures |s1.rows| == |s.rows| + 1 && s1.rows[|s.rows|] == row && OrdersOnly(s, s1)
    ensures Copies(s1, ev.pair, row, ev.tif, s.relations) == (s2, Done) && OrdersOnly(s1, s2)
    ensures PlaceLimitOrder(s, ev).0 == Finish(s2, ev.pair, |s.rows|)
    ensures Onward(s, s1) && Onward(s1, s2) && |s.rows| < |s2.rows| && s2.rows[|s.rows|] == row
  {
    hide Enter, Copies, Finish, Filed, Onward, BooksOk, Process, LimitShape, KeptBack, QuantityRules, PriceRules;
    var p, o := ev.pair, Entering(s, ev);
    row, e', r := EnterFiled(s, p, o);
    s1 := Enter(s, p, o).0;
    FiledOnward(s, s1, p, o, row, e', r, r.fills, []);
    OnwardFits(s, s1);
    TakerPrice(s, s1, p, o, row, e', r);
    CopiesOnward(s1, p, row, ev.tif, s.relations);
    CopiesOwnSide(s1, p, row, ev.tif, s.relations, |s.rows|);
    s2 := Copies(s1, p, row, ev.tif, s.relations).0;
  }

  lemma TakerPrice(s: Exchange, s1: Exchange, p: nat, o: Order, row: Row, e': State, r: EngineModel.Result)
    requires Filed(s, s1, p, o, row, e', r, r.fills, [])
    ensures row.price == o.price && row.side == o.side && row.user == o.user && row.kind == o.kind && row.pair == p
    ensures o.id == |s.rows|
  {
  }

  lemma PlaceLimitOnward(s: Exchange, ev: Event)
    requires BooksFit(s) && ev.PlaceLimit? && PlaceLimitOrder(s, ev).1.Done?
    ensures Onward(s, PlaceLimitOrder(s, ev).0)
  {
    hide Enter, Copies, Finish, Filed, Onward, BooksOk, Process, LimitShape, KeptBack, PlaceLimitOrder, QuantityRules,
         PriceRules;
    var row, e', r, s1, s2 := PlaceLimitStages(s, ev);
    OnwardOn(s, s1, s2);
    FinishOnward(s, s2, ev.pair, |s.rows|);
  }

  lemma PlaceMarketOnward(s: Exchange, ev: Event)
    requires BooksFit(s) && ev.PlaceMarket? && PlaceMarketOrder(s, ev).1.Done?
    ensures Onward(s, PlaceMarketOrder(s, ev).0)
  {
    hide Filed, Onward, BooksFit, Process, Single, MarketTaker, FillTotal, PlaceMarketOrder;
    var o, row, e', r, a, b := MarketFiled(s, ev);
    FiledOnward(s, PlaceMarketOrder(s, ev).0, ev.pair, o, row, e', r, a, b);
  }

  lemma {:induction false} WithoutKeepsOthers(s: seq<Order>, id: OrderId, m: Order)
    ensures m in s && m.id != id ==> m in Without(s, id)
    ensures m in Without(s, id) ==> m in s && m.id != id
  {
    if s == [] {
    } else {
      WithoutKeepsOthers(s[1..], id, m);
    }
  }

  lemma CancelRests(e: State, id: OrderId, i: OrderId)
    ensures Rests(Cancel(e, id), i) <==> Rests(e, i) && i != id
  {
    var e' := Cancel(e, id);
    forall m: Order
      ensures m in e'.bids <==> m in e.bids && m.id != id
      ensures m in e'.asks <==> m in e.asks && m.id != id
    {
      WithoutKeepsOthers(e.bids, id, m);
      WithoutKeepsOthers(e.asks, id, m);
    }
  }

  lemma CancelFits(s: Exchange, user: UserId, id: OrderId)
    requires BooksFit(s) && CancelStored(s, user, id).1.Done?
    ensures BooksFit(CancelStored(s, user, id).0)
  {
    hide SideSound, Uncrossed, Release;
    var p, s' := s.rows[id].pair, CancelStored(s, user, id).0;
    assert BookOk(s.rows, p, s.books[p]);
    CancelSound(s.books[p], id);
    forall q | 0 <= q < |s'.books| ensures BookOk(s'.rows, q, s'.books[q]) {
      assert BookOk(s.rows, q, s.books[q]);
    }
  }

  // ----- every call -----

  /** A call that is not answered with a violated invariant keeps every resting order in agreement with its row. */
  lemma StepFits(s: Exchange, ev: Event)
    requires BooksFit(s) && !Step(s, ev).1.InvariantViolated?
    ensures BooksFit(Step(s, ev).0)
  {
    hide PlaceLimitOrder, PlaceMarketOrder, CancelStored, BooksOk, Vault.Move, Vault.Log, Onward;
    PlaceRefused(s, ev);
    var (s', reply) := Step(s, ev);
    if reply.Done? {
      match ev
      case PlaceLimit(_, _, _, _, _, _, _) =>
        PlaceLimitOnward(s, ev);
        OnwardFits(s, s');
      case PlaceMarket(_, _, _, _, _) =>
        PlaceMarketOnward(s, ev);
        OnwardFits(s, s');
      case CancelOrder(user, id) => CancelFits(s, user, id);
      case _ =>
    }
  }

  /** A refused call changes nothing. */
  lemma PlaceRefused(s: Exchange, ev: Event)
    ensures Step(s, ev).1.Refused? ==> Step(s, ev).0 == s
  {
    hide Enter, Copies, Finish, MatchMarketOrder, Reserve, QuantityRules, PriceRules, BestPrice, Release, Vault.Move,
         Vault.Log;
    if ev.PlaceMarket? && MarketAccepted(s, ev) && MarketReserved(s, ev).Ok? {
      NotRefused(s.(vault := MarketReserved(s, ev).value), ev.pair, MarketOrder(s, ev),
                 BestPrice(s.books[ev.pair], ev.side.Opposite()));
    }
  }

  lemma NotRefused(s: Exchange, p: nat, o: Order, reference: real)
    requires p < |s.pairs| && p < |s.books|
    ensures !MatchMarketOrder(s, p, o, reference).1.Refused?
  {
    hide Process, Persist, TradesOf, FillTotal, FillWorth;
  }

  /** Orders leave deposits and withdrawals alone. */
  lemma OrdersLeaveFunds(s: Exchange, ev: Event)
    requires ev.PlaceLimit? || ev.PlaceMarket? || ev.CancelOrder?
    ensures Step(s, ev).0.withdrawals == s.withdrawals && Step(s, ev).0.deposits == s.deposits
  {
    hide Enter, Copies, Process, Persist, TradesOf, Reserve, QuantityRules, PriceRules, BestPrice, Release,
         ReleaseQuote,
         Cancel, FillTotal, FillWorth;
  }

  /** Whatever is not an order leaves rows, books and trades alone. */
  lemma OtherCalls(s: Exchange, ev: Event)
    requires !ev.PlaceLimit? && !ev.PlaceMarket? && !ev.CancelOrder?
    ensures Step(s, ev).0 == s.(vault := Step(s, ev).0.vault, deposits := Step(s, ev).0.deposits,
                                withdrawals := Step(s, ev).0.withdrawals)
  {
    hide Vault.Move, Vault.Log;
  }

  /** A call takes a resting order off its book in two ways only: filled to the last, and stored as filled; or
      cancelled by its owner, and stored as cancelled. */
  lemma LeavesBook(s: Exchange, ev: Event, q: nat, i: OrderId)
    requires BooksFit(s) && !Step(s, ev).1.InvariantViolated?
    requires q < |s.books| && Rests(s.books[q], i) && q < |Step(s, ev).0.books| && !Rests(Step(s, ev).0.books[q], i)
    ensures var s' := Step(s, ev).0;
      && i < |s.rows| <= |s'.rows|
      && (s'.rows[i] == s.rows[i].(filled := s.rows[i].quantity, status := Filled)
          || (ev == CancelOrder(s.rows[i].user, i) && s'.rows[i] == s.rows[i].(status := Cancelled)))
  {
    hide PlaceLimitOrder, PlaceMarketOrder, BooksOk, Release, Rests, Idle, Cancel;
    PlaceRefused(s, ev);
    RestsBacked(s, q, i);
    var (s', reply) := Step(s, ev);
    match ev
    case PlaceLimit(_, _, _, _, _, _, _) =>
      PlaceLimitOnward(s, ev);
      assert Carried(s, s', q, i);
    case PlaceMarket(_, _, _, _, _) =>
      PlaceMarketOnward(s, ev);
      assert Carried(s, s', q, i);
    case CancelOrder(user, id) =>
      CancelRests(s.books[q], id, i);
    case _ => OtherCalls(s, ev);
  }

  /** A finished order's row never changes again: not its fill, not its status. */
  lemma StoredFinal(s: Exchange, ev: Event, i: OrderId)
    requires BooksFit(s) && !Step(s, ev).1.InvariantViolated? && i < |s.rows| && s.rows[i].status.Terminal()
    ensures i < |Step(s, ev).0.rows| && Step(s, ev).0.rows[i] == s.rows[i]
  {
    hide PlaceLimitOrder, PlaceMarketOrder, BooksOk, Release, Rests, Idle, Cancel;
    PlaceRefused(s, ev);
    TerminalIdle(s, i);
    if Step(s, ev).1.Done? {
      match ev
      case PlaceLimit(_, _, _, _, _, _, _) => PlaceLimitOnward(s, ev);
      case PlaceMarket(_, _, _, _, _) => PlaceMarketOnward(s, ev);
      case CancelOrder(user, id) =>
      case _ => OtherCalls(s, ev);
    }
  }

  // ----- every run -----

  /** A run in which no call is answered with a violated invariant. */
  ghost predicate Calm(s: Exchange, evs: seq<Event>)
    decreases |evs|
  {
    evs == [] || (!Step(s, evs[0]).1.InvariantViolated? && Calm(Step(s, evs[0]).0, evs[1..]))
  }

  lemma {:induction false} RunFits(s: Exchange, evs: seq<Event>)
    requires BooksFit(s) && Calm(s, evs)
    ensures BooksFit(Run(s, evs))
    decreases |evs|
  {
    hide BooksFit, Step;
    if evs == [] {
    } else {
      StepFits(s, evs[0]);
      RunFits(Step(s, evs[0]).0, evs[1..]);
    }
  }

  lemma {:induction false} StoredFinalForever(s: Exchange, evs: seq<Event>, i: OrderId)
    requires BooksFit(s) && Calm(s, evs) && i < |s.rows| && s.rows[i].status.Terminal()
    ensures i < |Run(s, evs).rows| && Run(s, evs).rows[i] == s.rows[i]
    decreases |evs|
  {
    hide BooksFit, Step;
    if evs == [] {
    } else {
      StepFits(s, evs[0]);
      StoredFinal(s, evs[0], i);
      StoredFinalForever(Step(s, evs[0]).0, evs[1..], i);
    }
  }

  /** In every calm run each resting order has its stored row, equal in quantity, fill and live status, and no
      book is crossed. */
  lemma StoredOrdersAgree(s: Exchange, evs: seq<Event>, p: nat, o: Order)
    requires Fresh(s) && Calm(s, evs) && p < |Run(s, evs).books|
    requires o in Run(s, evs).books[p].bids || o in Run(s, evs).books[p].asks
    ensures var r := Run(s, evs);
      && Backs(r.rows, p, o) && o.status.Live() && 0.0 <= o.filled < o.quantity
      && (forall b, a :: b in r.books[p].bids && a in r.books[p].asks ==> b.price < a.price)
  {
    hide Run, Calm;
    RunFits(s, evs);
    assert BookOk(Run(s, evs).rows, p, Run(s, evs).books[p]);
  }
}
