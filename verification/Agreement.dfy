/** The stored orders agree with the engines: what each resting order looks like in its stored row, and how
    persisting a match keeps it so. */
module Agreement {
  import opened Orders
  import opened Sums
  import opened Matching
  import opened EngineModel
  import opened Wallets
  import opened ExchangeModel
  import opened Accounting

  /** A resting order and its stored row are the same order. */
  ghost predicate Backs(rows: seq<Row>, p: nat, o: Order) {
    && o.id < |rows| && o.kind.Limit? && rows[o.id].kind.Limit?
    && var r := rows[o.id];
    r.user == o.user && r.pair == p && r.side == o.side && r.price == o.price
    && r.quantity == o.quantity && r.filled == o.filled && r.status == o.status
  }

  ghost predicate SideBacked(rows: seq<Row>, p: nat, s: seq<Order>) {
    forall o :: o in s ==> Backs(rows, p, o)
  }

  ghost predicate NoStopsHeld(e: State) {
    e.stopBuys == [] && e.stopSells == [] && e.pending == []
  }

  ghost predicate BookOk(rows: seq<Row>, p: nat, e: State) {
    BookSound(e) && NoStopsHeld(e) && SideBacked(rows, p, e.bids) && SideBacked(rows, p, e.asks)
  }

  ghost predicate BooksOk(rows: seq<Row>, books: seq<State>) {
    forall p :: 0 <= p < |books| ==> BookOk(rows, p, books[p])
  }

  // ----- rows after a match -----

  function FilledRow(m: Row, amount: real): Row {
    var f := m.filled + amount;
    m.(filled := f, status := if f >= m.quantity then Filled else PartiallyFilled)
  }

  ghost predicate Makes(trades: seq<Trade>, id: OrderId) {
    exists i :: 0 <= i < |trades| && trades[i].makerOrder == id
  }

  /** Booking a match changes exactly its makers' rows, each by its own trade. */
  lemma {:induction false} FillRowsEffect(rows: seq<Row>, trades: seq<Trade>)
    requires forall i :: 0 <= i < |trades| ==> trades[i].makerOrder < |rows|
    requires forall i, j :: 0 <= i < j < |trades| ==> trades[i].makerOrder != trades[j].makerOrder
    ensures |FillRows(rows, trades)| == |rows|
    ensures forall i :: 0 <= i < |trades| ==>
      FillRows(rows, trades)[trades[i].makerOrder] == FilledRow(rows[trades[i].makerOrder], trades[i].quantity)
    ensures forall id :: 0 <= id < |rows| && !Makes(trades, id) ==> FillRows(rows, trades)[id] == rows[id]
    decreases |trades|
  {
    hide FilledRow;
    if trades == [] {
    } else {
      var t, rest := trades[0], trades[1..];
      var rows1 := FillRow(rows, t);
      assert rows1 == rows[t.makerOrder := FilledRow(rows[t.makerOrder], t.quantity)] by { FillRowIs(rows, t); }
      FillRowsEffect(rows1, rest);
      assert !Makes(rest, t.makerOrder) by {
        forall i | 0 <= i < |rest| ensures rest[i].makerOrder != t.makerOrder {
          assert rest[i] == trades[i + 1];
        }
      }
      forall id | 0 <= id < |rows| && !Makes(trades, id) ensures FillRows(rows, trades)[id] == rows[id] {
        assert trades[0].makerOrder != id;
        forall i | 0 <= i < |rest| ensures rest[i].makerOrder != id {
          assert trades[i + 1].makerOrder != id;
        }
      }
      forall i | 0 <= i < |trades|
        ensures FillRows(rows, trades)[trades[i].makerOrder]
           == FilledRow(rows[trades[i].makerOrder], trades[i].quantity)
      {
        if i > 0 {
          assert rest[i - 1] == trades[i];
          assert trades[0].makerOrder != trades[i].makerOrder;
        }
      }
    }
  }

  lemma FillRowIs(rows: seq<Row>, t: Trade)
    requires t.makerOrder < |rows|
    ensures FillRow(rows, t) == rows[t.makerOrder := FilledRow(rows[t.makerOrder], t.quantity)]
  {
  }

  /** A maker's row booked for a fill is the row of the maker after it. */
  lemma FilledBacks(rows: seq<Row>, p: nat, m: Order, amount: real)
    requires Backs(rows, p, m) && 0.0 < amount <= m.Remaining() && m.filled >= 0.0
    ensures var r := FilledRow(rows[m.id], amount); var m' := m.Filling(amount);
      r.quantity == m'.quantity && r.filled == m'.filled && r.status == m'.status && SameTerms(rows[m.id], r)
  {
  }

  lemma MakerIds(side: Side, makers: seq<Order>, fills: seq<Fill>, o: Order, fees: Fees)
    requires SideSound(side, makers) && Greedy(makers, fills)
    ensures var t := TradesOf(fills, o, fees);
      && |t| == |fills|
      && (forall i :: 0 <= i < |t| ==> t[i].makerOrder == makers[i].id && t[i].quantity == fills[i].quantity)
      && (forall i, j :: 0 <= i < j < |t| ==> t[i].makerOrder != t[j].makerOrder)
  {
    hide Mul;
  }

  /** The side a match consumed stays backed by the rows it booked. */
  lemma LeftoverBacked(rows: seq<Row>, p: nat, side: Side, makers: seq<Order>, fills: seq<Fill>, o: Order, fees: Fees)
    requires SideSound(side, makers) && Greedy(makers, fills) && SideBacked(rows, p, makers)
    ensures SideBacked(FillRows(rows, TradesOf(fills, o, fees)), p, Leftover(side, makers, fills))
  {
    hide Leftover, FillRows, TradesOf, Mul, FilledRow;
    var t := TradesOf(fills, o, fees);
    var rows' := FillRows(rows, t);
    MakerIds(side, makers, fills, o, fees);
    forall i | 0 <= i < |t| ensures t[i].makerOrder < |rows| { assert makers[i] in makers; }
    FillRowsEffect(rows, t);
    LeftoverKeeps(side, makers, fills);
    forall x | x in makers[|fills|..] ensures Backs(rows', p, x) {
      var j :| 0 <= j < |makers[|fills|..]| && makers[|fills|..][j] == x;
      assert makers[|fills| + j] == x && x in makers;
      forall i | 0 <= i < |t| ensures t[i].makerOrder != x.id {
        assert makers[i].id != makers[|fills| + j].id;
      }
      assert !Makes(t, x.id);
    }
    if fills != [] {
      var n := |fills| - 1;
      var m := makers[n];
      assert m in makers;
      FilledBacks(rows, p, m, fills[n].quantity);
      FillingFacts(m, fills[n].quantity);
      assert rows'[t[n].makerOrder] == FilledRow(rows[m.id], t[n].quantity);
    }
  }

  /** Rows of another pair, or of the taker's own side, are not touched. */
  lemma OthersBacked(rows: seq<Row>, p: nat, side: Side, makers: seq<Order>, fills: seq<Fill>, o: Order, fees: Fees,
                     q: nat, others: seq<Order>)
    requires SideSound(side, makers) && Greedy(makers, fills) && SideBacked(rows, p, makers)
    requires SideBacked(rows, q, others) && (q != p || forall x :: x in others ==> x.side != side)
    ensures SideBacked(FillRows(rows, TradesOf(fills, o, fees)), q, others)
  {
    hide FillRows, TradesOf, Mul, FilledRow, MakersOk;
    var t := TradesOf(fills, o, fees);
    MakerIds(side, makers, fills, o, fees);
    forall i | 0 <= i < |t| ensures t[i].makerOrder < |rows| { assert makers[i] in makers; }
    FillRowsEffect(rows, t);
    forall x | x in others ensures Backs(FillRows(rows, t), q, x) {
      forall i | 0 <= i < |t| ensures t[i].makerOrder != x.id {
        assert makers[i] in makers;
      }
      assert !Makes(t, x.id);
    }
  }

  lemma {:induction false} FillRowsAppend(rows: seq<Row>, a: seq<Trade>, b: seq<Trade>)
    ensures FillRows(rows, a + b) == FillRows(FillRows(rows, a), b)
    decreases |a|
  {
    hide FillRow;
    if a == [] {
      assert a + b == b;
    } else {
      assert (a + b)[1..] == a[1..] + b;
      FillRowsAppend(FillRow(rows, a[0]), a[1..], b);
    }
  }

  lemma TradesAppend(a: seq<Fill>, b: seq<Fill>, o: Order, fees: Fees)
    ensures TradesOf(a + b, o, fees) == TradesOf(a, o, fees) + TradesOf(b, o, fees)
  {
    hide Mul;
  }

  /** Two matches in a row against one side: a market order's quantity, then its budget. */
  ghost predicate Legs(side: Side, makers: seq<Order>, a: seq<Fill>, b: seq<Fill>) {
    Greedy(makers, a) && Greedy(Leftover(side, makers, a), b)
  }

  ghost function AfterLegs(side: Side, makers: seq<Order>, a: seq<Fill>, b: seq<Fill>): seq<Order>
    requires Legs(side, makers, a, b)
  {
    Leftover(side, Leftover(side, makers, a), b)
  }

  lemma LegsBacked(rows: seq<Row>, p: nat, side: Side, makers: seq<Order>, a: seq<Fill>, b: seq<Fill>, o: Order,
                   fees: Fees)
    requires SideSound(side, makers) && Legs(side, makers, a, b) && SideBacked(rows, p, makers)
    ensures SideBacked(FillRows(rows, TradesOf(a + b, o, fees)), p, AfterLegs(side, makers, a, b))
  {
    hide Leftover, FillRows, TradesOf, Greedy, SideSound, SideBacked;
    TradesAppend(a, b, o, fees);
    FillRowsAppend(rows, TradesOf(a, o, fees), TradesOf(b, o, fees));
    LeftoverBacked(rows, p, side, makers, a, o, fees);
    LeftoverSound(side, makers, a);
    LeftoverBacked(FillRows(rows, TradesOf(a, o, fees)), p, side, Leftover(side, makers, a), b, o, fees);
  }

  lemma LegsOthers(rows: seq<Row>, p: nat, side: Side, makers: seq<Order>, a: seq<Fill>, b: seq<Fill>, o: Order,
                   fees: Fees,
                   q: nat, others: seq<Order>)
    requires SideSound(side, makers) && Legs(side, makers, a, b) && SideBacked(rows, p, makers)
    requires SideBacked(rows, q, others) && (q != p || forall x :: x in others ==> x.side != side)
    ensures SideBacked(FillRows(rows, TradesOf(a + b, o, fees)), q, others)
  {
    hide Leftover, FillRows, TradesOf, Greedy, SideSound, SideBacked;
    TradesAppend(a, b, o, fees);
    FillRowsAppend(rows, TradesOf(a, o, fees), TradesOf(b, o, fees));
    LeftoverBacked(rows, p, side, makers, a, o, fees);
    OthersBacked(rows, p, side, makers, a, o, fees, q, others);
    LeftoverSound(side, makers, a);
    OthersBacked(FillRows(rows, TradesOf(a, o, fees)), p, side, Leftover(side, makers, a), b, o, fees, q, others);
  }

  lemma BackedLonger(rows: seq<Row>, r: Row, p: nat, s: seq<Order>)
    requires SideBacked(rows, p, s)
    ensures SideBacked(rows + [r], p, s)
  {
  }

  // ----- trades ready to settle -----

  /** Greedy fills against backed makers are fair trades their makers can cover. */
  lemma FillsUnsettled(pairs: seq<Pair>, rows: seq<Row>, p: nat, o: Order, row: Row, makers: seq<Order>,
                       fills: seq<Fill>)
    requires p < |pairs| && pairs[p].Valid() && o.id == |rows|
    requires SideSound(o.side.Opposite(), makers) && Greedy(makers, fills) && SideBacked(rows, p, makers)
    requires row.user == o.user && row.pair == p && row.side == o.side && row.kind == o.kind && row.price == o.price
    requires o.kind.Limit? ==> o.price > 0.0 && forall f :: f in fills ==> Crosses(o.side, At(o.price), f.maker.price)
    ensures AllUnsettled(pairs, rows + [row], p, TradesOf(fills, o, pairs[p].Fees()))
  {
    hide Mul, TradesOf, SideSound;
    var t := TradesOf(fills, o, pairs[p].Fees());
    MakerIds(o.side.Opposite(), makers, fills, o, pairs[p].Fees());
    forall i | 0 <= i < |t| ensures Unsettled(pairs, rows + [row], p, t[i]) {
      assert fills[i] in fills && makers[i] in makers;
      assert t[i] == TradeOf(fills[i], o, pairs[p].Fees());
      FillUnsettled(pairs, rows, p, o, row, fills[i]) by { MakerFacts(o.side.Opposite(), makers, i); }
    }
  }

  lemma MakerFacts(side: Side, makers: seq<Order>, i: nat)
    requires SideSound(side, makers) && i < |makers|
    ensures var m := makers[i]; m.price > 0.0 && m.side == side && m.status.Live()
  {
    assert makers[i] in makers;
  }

  lemma FillUnsettled(pairs: seq<Pair>, rows: seq<Row>, p: nat, o: Order, row: Row, f: Fill)
    requires p < |pairs| && pairs[p].Valid() && o.id == |rows|
    requires Backs(rows, p, f.maker) && 0.0 < f.quantity <= f.maker.Remaining()
    requires f.maker.price > 0.0 && f.maker.side == o.side.Opposite() && f.maker.status.Live()
    requires row.user == o.user && row.pair == p && row.side == o.side && row.kind == o.kind && row.price == o.price
    requires o.kind.Limit? ==> o.price > 0.0 && Crosses(o.side, At(o.price), f.maker.price)
    ensures Unsettled(pairs, rows + [row], p, TradeOf(f, o, pairs[p].Fees()))
  {
    hide Mul;
  }

  // ----- what a match claims -----

  /** What a taker had locked for its fills, in all. */
  ghost function ClaimOf(o: Order, fills: seq<Fill>, fee: real): real {
    if o.kind.Limit? then Lockup(o.side, o.price, FillTotal(fills), fee)
    else if o.side.Buy? then Mul(FillWorth(fills), 1.0 + fee)
    else FillTotal(fills)
  }

  lemma {:induction false} ClaimsTotal(pairs: seq<Pair>, rows: seq<Row>, p: nat, o: Order, fills: seq<Fill>, k: Key)
    requires p < |pairs| && o.id < |rows|
    requires var r := rows[o.id]; r.side == o.side && r.pair == p && r.kind == o.kind && r.price == o.price
    ensures Total(Claims(pairs, rows, TradesOf(fills, o, pairs[p].Fees()), k))
         == if HeldAt(pairs, rows[o.id], k) then ClaimOf(o, fills, pairs[p].takerFee) else 0.0
    decreases |fills|
  {
    hide Mul, Lockup, FillTotal, FillWorth, TradesOf;
    var fees, fee := pairs[p].Fees(), pairs[p].takerFee;
    var t := TradesOf(fills, o, fees);
    if fills == [] {
      NoFillTotals();
      LockupAdd(o.side, o.price, 0.0, 0.0, fee);
      MulZero(1.0 + fee);
    } else {
      var f, rest := fills[0], fills[1..];
      assert t[1..] == TradesOf(rest, o, fees);
      assert t[0] == TradeOf(f, o, fees);
      ClaimsCons(pairs, rows, t, k);
      ClaimsTotal(pairs, rows, p, o, rest, k);
      assert fills == [f] + rest;
      FillAppend([f], rest);
      FillOne(f);
      LockupAdd(o.side, o.price, f.quantity, FillTotal(rest), fee);
      MulSum(1.0 + fee, f.Worth(), FillWorth(rest));
      OneClaim(pairs, rows, p, o, f, k);
    }
  }

  lemma OneClaim(pairs: seq<Pair>, rows: seq<Row>, p: nat, o: Order, f: Fill, k: Key)
    requires p < |pairs| && o.id < |rows|
    requires var r := rows[o.id]; r.side == o.side && r.pair == p && r.kind == o.kind && r.price == o.price
    ensures Claim(pairs, rows, TradeOf(f, o, pairs[p].Fees()), k)
         == if HeldAt(pairs, rows[o.id], k)
            then (if o.kind.Limit? then Lockup(o.side, o.price, f.quantity, pairs[p].takerFee)
                  else if o.side.Buy? then Mul(f.Worth(), 1.0 + pairs[p].takerFee)
                  else f.quantity)
            else 0.0
  {
    hide Mul;
  }
}
