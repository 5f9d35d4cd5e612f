/** The demo liquidity ladder (backend/app/api/v1/demo.py:60-89): a two-sided book around a middle price, and why
    feeding all of it into an empty engine trades nothing. */
module Ladder {
  import opened Orders
  import opened Sums
  import opened Priority
  import opened Matching
  import opened EngineModel
  import opened EngineProofs
  import opened Agreement
  import opened Matches
  import opened CopySizing

  const LEVELS := 12
  const NOTIONAL_STEP := 2000.0

  datatype Rung = Rung(side: Side, price: real, quantity: real)

  function Max(x: real, y: real): real {
    if x >= y then x else y
  }

  function RoundHalfUp(x: real): int {
    (x + 0.5).Floor
  }

  function Middle(mid: real, tick: real): real {
    if mid <= 0.0 then Max(tick, 1.0) else mid
  }

  function RawOffset(mid: real, tick: real, index: nat): real {
    Max(Mul(tick, (index * 5) as real), Mul(Mul(mid, 0.0005), index as real))
  }

  /** How far level `index` is from the middle, snapped to the tick grid. */
  function Offset(mid: real, tick: real, index: nat): real
    requires tick > 0.0
  {
    Mul(tick, RoundHalfUp(Div(RawOffset(mid, tick, index), tick)) as real)
  }

  function BidPrice(mid: real, tick: real, index: nat): real
    requires tick > 0.0
  {
    Max(tick, mid - Offset(mid, tick, index))
  }

  function AskPrice(mid: real, tick: real, index: nat): real
    requires tick > 0.0
  {
    mid + Offset(mid, tick, index)
  }

  function Size(mid: real, step: real, minQty: real, index: nat): real
    requires mid > 0.0
  {
    Max(FloorToStep(Div(Mul(NOTIONAL_STEP, index as real), mid), step), minQty)
  }

  /** The rungs of the first `n` levels. */
  function Rungs(mid: real, tick: real, step: real, minQty: real, n: nat): seq<Rung>
    requires tick > 0.0 && mid > 0.0
  {
    if n == 0 then []
    else
      Rungs(mid, tick, step, minQty, n - 1)
        + [Rung(Buy, BidPrice(mid, tick, n), Size(mid, step, minQty, n)),
           Rung(Sell, AskPrice(mid, tick, n), Size(mid, step, minQty, n))]
  }

  method BuildLadder(mid: real, tick: real, step: real, minQty: real) returns (ladder: seq<Rung>)
    requires tick > 0.0
    ensures ladder == Rungs(Middle(mid, tick), tick, step, minQty, LEVELS)
  {
    hide FloorToStep, RoundHalfUp, Mul, Div;
    var middle := mid;
    if middle <= 0.0 {
      middle := Max(tick, 1.0);
    }
    ladder := [];
    for index := 1 to LEVELS + 1
      invariant ladder == Rungs(middle, tick, step, minQty, index - 1)
    {
      var raw := Max(Mul(tick, (index * 5) as real), Mul(Mul(middle, 0.0005), index as real));
      var offset := Mul(tick, RoundHalfUp(Div(raw, tick)) as real);
      var bid, ask := Max(tick, middle - offset), middle + offset;
      var quantity := FloorToStep(Div(Mul(NOTIONAL_STEP, index as real), middle), step);
      if quantity < minQty {
        quantity := minQty;
      }
      ladder := ladder + [Rung(Buy, bid, quantity), Rung(Sell, ask, quantity)];
    }
  }

  // ----- prices -----

  lemma DivSum(x: real, y: real, k: real)
    requires y > 0.0
    ensures Div(x + Mul(y, k), y) == Div(x, y) + k
  {
    hide Mul, Div;
    DivUndone(x, y);
    DivUndone(x + Mul(y, k), y);
    MulSum(y, Div(x, y), k);
    DivUnique(x + Mul(y, k), y, Div(x, y) + k);
  }

  lemma DivUnique(x: real, y: real, q: real)
    requires y > 0.0 && Mul(y, q) == x
    ensures Div(x, y) == q
  {
    hide Mul, Div;
    DivUndone(x, y);
    MulSum(y, Div(x, y), q);
    MulSign(y, Div(x, y) - q);
  }

  lemma DivMono(x: real, z: real, y: real)
    requires y > 0.0 && x <= z
    ensures Div(x, y) <= Div(z, y)
  {
    hide Mul, Div;
    DivUndone(x, y);
    DivUndone(z, y);
    MulSum(y, Div(x, y), Div(z, y));
    MulSign(y, Div(x, y) - Div(z, y));
  }

  /** Each level is at least five ticks further out than the one before, before snapping. */
  lemma RawClimbs(mid: real, tick: real, i: nat, j: nat)
    requires tick > 0.0 && mid > 0.0 && i < j
    ensures RawOffset(mid, tick, j) >= RawOffset(mid, tick, i) + Mul(tick, 5.0)
  {
    hide Mul;
    var c := Mul(mid, 0.0005);
    MulSign(mid, 0.0005);
    MulSum(tick, (j * 5) as real, (i * 5) as real);
    MulMono(tick, 5.0, (j * 5) as real - (i * 5) as real);
    MulSum(c, j as real, i as real);
    MulMono(c, 1.0, j as real - i as real);
    Wallets.MulOne(c);
    if RawOffset(mid, tick, i) > Mul(tick, (i * 5) as real) {
      Steeper(c, tick, i);
    }
  }

  lemma Steeper(c: real, tick: real, i: nat)
    requires c > 0.0 && tick > 0.0 && Mul(c, i as real) > Mul(tick, (i * 5) as real)
    ensures c >= Mul(tick, 5.0)
  {
  }

  lemma OffsetClimbs(mid: real, tick: real, i: nat, j: nat)
    requires tick > 0.0 && mid > 0.0 && i < j
    ensures Offset(mid, tick, j) >= Offset(mid, tick, i) + Mul(tick, 5.0)
  {
    hide Mul, Div, RawOffset;
    var x, y := RawOffset(mid, tick, i), RawOffset(mid, tick, j);
    RawClimbs(mid, tick, i, j);
    DivSum(x, tick, 5.0);
    DivMono(x + Mul(tick, 5.0), y, tick);
    var a, b := RoundHalfUp(Div(x, tick)), RoundHalfUp(Div(y, tick));
    assert b >= a + 5;
    MulSum(tick, a as real, 5.0);
    MulMono(tick, a as real + 5.0, b as real);
  }

  lemma OffsetStarts(mid: real, tick: real)
    requires tick > 0.0
    ensures Offset(mid, tick, 0) == 0.0
  {
    hide Mul, Div;
    MulZero(tick);
    MulZero(Mul(mid, 0.0005));
    DivUnique(0.0, tick, 0.0);
  }

  /** Asks climb from level to level, and bids never rise. */
  lemma PricesWiden(mid: real, tick: real, i: nat, j: nat)
    requires tick > 0.0 && mid > 0.0 && i < j
    ensures AskPrice(mid, tick, i) < AskPrice(mid, tick, j)
    ensures BidPrice(mid, tick, i) >= BidPrice(mid, tick, j)
  {
    hide Offset, Mul;
    OffsetClimbs(mid, tick, i, j);
    MulSign(tick, 5.0);
  }

  /** Every bid is below every ask, whatever the middle and the tick. */
  lemma BidsBelowAsks(mid: real, tick: real, i: nat, j: nat)
    requires tick > 0.0 && mid > 0.0 && i >= 1 && j >= 1
    ensures 0.0 < BidPrice(mid, tick, i) < AskPrice(mid, tick, j)
  {
    hide Offset, Mul;
    OffsetStarts(mid, tick);
    OffsetClimbs(mid, tick, 0, i);
    OffsetClimbs(mid, tick, 0, j);
    FiveTicks(tick);
  }

  lemma FiveTicks(tick: real)
    requires tick > 0.0
    ensures Mul(tick, 5.0) > tick
  {
  }

  // ----- what a rung is -----

  /** `n` ticks are within half a tick of a distance, rounding halves up. */
  predicate Snapped(n: int, raw: real, tick: real) {
    n as real * tick - tick / 2.0 <= raw < n as real * tick + tick / 2.0
  }

  /** A bid `n` ticks below the middle, but never below one tick, or an ask `n` ticks above it. */
  predicate Priced(n: int, side: Side, price: real, mid: real, tick: real) {
    price == if side.Buy? then Max(tick, mid - n as real * tick) else mid + n as real * tick
  }

  lemma PriceMeans(mid: real, tick: real, index: nat) returns (n: int)
    requires tick > 0.0
    ensures Snapped(n, RawOffset(mid, tick, index), tick)
    ensures Priced(n, Buy, BidPrice(mid, tick, index), mid, tick)
    ensures Priced(n, Sell, AskPrice(mid, tick, index), mid, tick)
  {
    hide Mul, Div, RawOffset;
    var raw := RawOffset(mid, tick, index);
    n := RoundHalfUp(Div(raw, tick));
    DivBounds(raw, tick, n as real - 0.5);
    DivBounds(raw, tick, n as real + 0.5);
    HalfTicks(n, tick);
  }

  lemma HalfTicks(n: int, tick: real)
    ensures Mul(tick, n as real) == n as real * tick
    ensures Mul(tick, n as real - 0.5) == n as real * tick - tick / 2.0
    ensures Mul(tick, n as real + 0.5) == n as real * tick + tick / 2.0
  {
  }

  /** How far out a level is meant to be: the greater of five ticks and 0.05% of the middle for each level. */
  function Distance(mid: real, tick: real, level: nat): real {
    Max(5.0 * level as real * tick, 0.0005 * level as real * mid)
  }

  lemma RawMeans(mid: real, tick: real, level: nat)
    ensures RawOffset(mid, tick, level) == Distance(mid, tick, level)
  {
  }

  /** `k` steps are the most steps worth no more than 2000 a level at the middle price. */
  predicate WorthSteps(k: int, level: nat, step: real, mid: real) {
    k as real * step * mid <= 2000.0 * level as real < (k as real + 1.0) * step * mid
  }

  /** So many steps, or the minimum if that is more. */
  predicate Sized(k: int, quantity: real, step: real, minQty: real) {
    quantity == Max(k as real * step, minQty)
  }

  lemma SizeMeans(mid: real, step: real, minQty: real, level: nat) returns (k: int)
    requires mid > 0.0
    ensures step > 0.0 ==> WorthSteps(k, level, step, mid) && Sized(k, Size(mid, step, minQty, level), step, minQty)
    ensures step <= 0.0 ==> Size(mid, step, minQty, level) == Max(2000.0 * level as real / mid, minQty)
  {
    hide Mul, Div;
    var worth := Mul(NOTIONAL_STEP, level as real);
    var exact := Div(worth, mid);
    LevelWorth(level, mid);
    k := 0;
    if step > 0.0 {
      k := Truncated(Div(exact, step));
      DivSign(worth, mid);
      DivSign(exact, step);
      DivBounds(exact, step, k as real);
      DivBounds(exact, step, k as real + 1.0);
      DivBounds(worth, mid, Mul(step, k as real));
      DivBounds(worth, mid, Mul(step, k as real + 1.0));
      WorthOf(k as real, step, mid);
      WorthOf(k as real + 1.0, step, mid);
    }
  }

  lemma LevelWorth(level: nat, mid: real)
    requires mid > 0.0
    ensures Mul(NOTIONAL_STEP, level as real) == 2000.0 * level as real
    ensures Div(Mul(NOTIONAL_STEP, level as real), mid) == 2000.0 * level as real / mid
  {
  }

  lemma DivSign(x: real, y: real)
    requires x >= 0.0 && y > 0.0
    ensures Div(x, y) >= 0.0
  {
  }

  lemma WorthOf(k: real, step: real, mid: real)
    ensures Mul(mid, Mul(step, k)) == k * step * mid && Mul(k, step) == k * step
  {
  }

  /** Each of the 24 rungs: a level's bid and ask are its distance from the middle, to the nearest tick, the bid never
      below one tick; and both are of the most steps worth no more than 2000 for each level, or of the pair's
      minimum. */
  lemma RungTells(mid: real, tick: real, step: real, minQty: real, i: nat)
    requires tick > 0.0 && minQty > 0.0 && i < 24
    ensures var middle := if mid > 0.0 then mid else if tick >= 1.0 then tick else 1.0;
      var rungs, level := Rungs(Middle(mid, tick), tick, step, minQty, LEVELS), i / 2 + 1;
      && |rungs| == 24 && var rung := rungs[i];
      && rung.side == (if i % 2 == 0 then Buy else Sell)
      && (exists n: int :: Snapped(n, Distance(middle, tick, level), tick)
                           && Priced(n, rung.side, rung.price, middle, tick))
      && (step > 0.0 ==>
            exists k: int :: WorthSteps(k, level, step, middle) && Sized(k, rung.quantity, step, minQty))
      && (step <= 0.0 ==> rung.quantity == Max(2000.0 * level as real / middle, minQty))
  {
    hide Rungs, BidPrice, AskPrice, Size, Snapped, WorthSteps, Priced, Sized, RawOffset, Distance;
    var m, level := Middle(mid, tick), i / 2 + 1;
    MiddleIs(mid, tick);
    RungsSized(m, tick, step, minQty, LEVELS, i);
    RawMeans(m, tick, level);
    var n := PriceMeans(m, tick, level);
    var k := SizeMeans(m, step, minQty, level);
  }

  lemma MiddleIs(mid: real, tick: real)
    requires tick > 0.0
    ensures Middle(mid, tick) == if mid > 0.0 then mid else if tick >= 1.0 then tick else 1.0
  {
  }

  lemma {:induction false} RungsSized(mid: real, tick: real, step: real, minQty: real, n: nat, i: nat)
    requires tick > 0.0 && mid > 0.0 && i < 2 * n
    ensures |Rungs(mid, tick, step, minQty, n)| == 2 * n
    ensures var r, level := Rungs(mid, tick, step, minQty, n)[i], i / 2 + 1;
      && r.quantity == Size(mid, step, minQty, level)
      && r.side == (if i % 2 == 0 then Buy else Sell)
      && r.price == (if i % 2 == 0 then BidPrice(mid, tick, level) else AskPrice(mid, tick, level))
  {
    hide BidPrice, AskPrice, Size;
    if i < 2 * n - 2 {
      RungsSized(mid, tick, step, minQty, n - 1, i);
    } else if n > 1 {
      RungsSized(mid, tick, step, minQty, n - 1, 0);
    }
  }

  // ----- feeding it to an engine -----

  function OrderFor(r: Rung, id: OrderId, user: UserId): Order {
    Order(id, user, r.side, Limit, r.price, r.quantity, 0.0, 0.0, 0.0, Gtc, 0.0, Pending)
  }

  /** The engine after the rungs are submitted in turn, and how many trades that made. */
  ghost function Feed(e: State, rungs: seq<Rung>, user: UserId): (State, nat)
    decreases |rungs|
  {
    if rungs == [] then (e, 0)
    else
      var n := |rungs| - 1;
      var (e1, trades) := Feed(e, rungs[..n], user);
      var (e2, r) := Process(e1, OrderFor(rungs[n], n, user), false);
      (e2, trades + |r.fills|)
  }

  /** Positive prices and sizes, every bid below every ask. */
  ghost predicate Apart(rungs: seq<Rung>) {
    && (forall i :: 0 <= i < |rungs| ==> rungs[i].price > 0.0 && rungs[i].quantity > 0.0)
    && (forall i, j :: 0 <= i < |rungs| && 0 <= j < |rungs| && rungs[i].side.Buy? && rungs[j].side.Sell? ==>
          rungs[i].price < rungs[j].price)
  }

  ghost predicate RestsAt(e: State, r: Rung, id: OrderId, user: UserId) {
    OrderFor(r, id, user).(status := Open) in e.Makers(r.side)
  }

  /** Every resting order is one of the rungs, unfilled. */
  ghost predicate OnlyRungs(e: State, rungs: seq<Rung>, user: UserId) {
    forall side, o :: o in e.Makers(side) ==>
      o.id < |rungs| && rungs[o.id].side == side && o == OrderFor(rungs[o.id], o.id, user).(status := Open)
  }

  /** A limit order that crosses nothing rests whole. */
  lemma RestsWhole(e: State, o: Order)
    requires BookSound(e) && NoStopsHeld(e) && Incoming(o) && o.kind.Limit? && o.tif == Gtc && o.peak == 0.0
    requires forall x :: x in e.Makers(o.side.Opposite()) ==> !Crosses(o.side, At(o.price), x.price)
    ensures var (e', r) := Process(e, o, false);
      && r.fills == [] && NoStopsHeld(e')
      && e'.Makers(o.side.Opposite()) == e.Makers(o.side.Opposite())
      && e'.Makers(o.side) == Insert(ByPrice, o.side, e.Makers(o.side), o.(status := Open))
  {
    hide Insert, SideSound, Uncrossed, CheckStops;
    var makers := e.Makers(o.side.Opposite());
    if makers != [] { assert makers[0] in makers; }
    assert LimitTaker(o, o.quantity) == o.(status := Open);
    forall x | NoStopsHeld(x) ensures CheckStops(x) == x { NoStopsChecked(x); }
  }

  lemma {:induction false} FedRests(rungs: seq<Rung>, user: UserId)
    requires Apart(rungs)
    ensures var (e, trades) := Feed(EmptyState, rungs, user);
      && trades == 0 && BookSound(e) && NoStopsHeld(e) && OnlyRungs(e, rungs, user)
      && (forall i :: 0 <= i < |rungs| ==> RestsAt(e, rungs[i], i, user))
    decreases |rungs|
  {
    hide Process, Insert, BookSound, NoStopsHeld;
    if rungs == [] {
      EmptySound();
    } else {
      var n := |rungs| - 1;
      FedRests(rungs[..n], user);
      var e1, o := Feed(EmptyState, rungs[..n], user).0, OrderFor(rungs[n], n, user);
      FeedOne(e1, rungs, user);
    }
  }

  lemma EmptySound()
    ensures BookSound(EmptyState) && NoStopsHeld(EmptyState)
  {
  }

  lemma FeedOne(e: State, rungs: seq<Rung>, user: UserId)
    requires rungs != [] && Apart(rungs)
    requires BookSound(e) && NoStopsHeld(e) && OnlyRungs(e, rungs[..|rungs| - 1], user)
    requires forall i :: 0 <= i < |rungs| - 1 ==> RestsAt(e, rungs[i], i, user)
    ensures var (e', r) := Process(e, OrderFor(rungs[|rungs| - 1], |rungs| - 1, user), false);
      && r.fills == [] && BookSound(e') && NoStopsHeld(e') && OnlyRungs(e', rungs, user)
      && (forall i :: 0 <= i < |rungs| ==> RestsAt(e', rungs[i], i, user))
  {
    hide Process, Insert, SideSound, Uncrossed, NoStopsHeld;
    var n := |rungs| - 1;
    var o := OrderFor(rungs[n], n, user);
    forall x | x in e.Makers(o.side.Opposite()) ensures !Crosses(o.side, At(o.price), x.price) {
      assert x == OrderFor(rungs[..n][x.id], x.id, user).(status := Open);
    }
    RestsWhole(e, o);
    ProcessSound(e, o, false);
    SideOf(e, o.side);
    InsertMembers(ByPrice, o.side, e.Makers(o.side), o.(status := Open));
    forall i | 0 <= i < |rungs| ensures RestsAt(Process(e, o, false).0, rungs[i], i, user) {
      if i < n { assert RestsAt(e, rungs[i], i, user); }
    }
  }

  lemma RungsApart(mid: real, tick: real, step: real, minQty: real, n: nat)
    requires tick > 0.0 && mid > 0.0 && minQty > 0.0
    ensures |Rungs(mid, tick, step, minQty, n)| == 2 * n
    ensures forall i :: 0 <= i < 2 * n ==>
      var r := Rungs(mid, tick, step, minQty, n)[i]; var level := i / 2 + 1;
      && r.quantity > 0.0
      && r.side == (if i % 2 == 0 then Buy else Sell)
      && r.price == (if i % 2 == 0 then BidPrice(mid, tick, level) else AskPrice(mid, tick, level))
  {
    hide BidPrice, AskPrice, FloorToStep, Mul, Div;
    if n > 0 { RungsSized(mid, tick, step, minQty, n, 0); }
    forall i | 0 <= i < 2 * n
      ensures |Rungs(mid, tick, step, minQty, n)| == 2 * n
      ensures var r, level := Rungs(mid, tick, step, minQty, n)[i], i / 2 + 1;
        && r.quantity == Size(mid, step, minQty, level) > 0.0
        && r.side == (if i % 2 == 0 then Buy else Sell)
        && r.price == (if i % 2 == 0 then BidPrice(mid, tick, level) else AskPrice(mid, tick, level))
    {
      RungsSized(mid, tick, step, minQty, n, i);
    }
  }

  /** The whole ladder, fed to an empty engine, rests: every rung is on the book at its full size, and nothing
      trades. */
  lemma LadderRests(mid: real, tick: real, step: real, minQty: real, user: UserId)
    requires tick > 0.0 && minQty > 0.0
    ensures var rungs := Rungs(Middle(mid, tick), tick, step, minQty, LEVELS);
      var (e, trades) := Feed(EmptyState, rungs, user);
      && |rungs| == 24 && trades == 0
      && (forall i :: 0 <= i < |rungs| ==> RestsAt(e, rungs[i], i, user))
  {
    hide Rungs, BidPrice, AskPrice, Feed, RestsAt, BookSound, OnlyRungs;
    var m := Middle(mid, tick);
    var rungs := Rungs(m, tick, step, minQty, LEVELS);
    RungsApart(m, tick, step, minQty, LEVELS);
    forall i, j | 0 <= i < |rungs| && 0 <= j < |rungs|
      ensures rungs[i].price > 0.0 && (rungs[i].side.Buy? && rungs[j].side.Sell? ==> rungs[i].price < rungs[j].price)
    {
      BidsBelowAsks(m, tick, i / 2 + 1, j / 2 + 1);
      BidsBelowAsks(m, tick, i / 2 + 1, i / 2 + 1);
    }
    FedRests(rungs, user);
  }
}
