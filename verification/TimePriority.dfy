/** Whether orders keep their turns.  The book is documented as price-time priority, but a partly filled maker is
    popped and appended again (backend/app/core/matching_engine/engine.py:174-176, 263-264), which puts it behind
    everyone else at its price: exactly when that happens. */
module TimePriority {
  import opened Orders
  import opened Sums
  import opened Priority
  import opened Matching
  import opened EngineModel
  import opened EngineProofs

  /** Of any two orders still there, the one that stood first still does. */
  ghost predicate KeepsTurns(before: seq<Order>, after: seq<Order>) {
    forall a, b, i, j ::
      (0 <= a < |before| && 0 <= b < |before| && 0 <= i < j < |after|
       && before[a].id == after[i].id && before[b].id == after[j].id) ==> a < b
  }

  /** Orders that stand where they stood, all moved up by the same number of places, keep their turns. */
  lemma ShiftKeeps(before: seq<Order>, after: seq<Order>, n: nat)
    requires UniqueIds(before) && |after| + n == |before|
    requires forall i :: 0 <= i < |after| ==> after[i].id == before[n + i].id
    ensures KeepsTurns(before, after)
  {
    forall a, b, i, j |
      0 <= a < |before| && 0 <= b < |before| && 0 <= i < j < |after|
      && before[a].id == after[i].id && before[b].id == after[j].id
      ensures a < b
    {
      assert a == n + i && b == n + j;
    }
  }

  /** The last maker a match touches is left with something, and someone else waits at its price. */
  predicate PassedOver(makers: seq<Order>, fills: seq<Fill>)
    requires |fills| <= |makers|
  {
    var n := |fills|;
    0 < n < |makers| && fills[n - 1].quantity < makers[n - 1].Remaining() && makers[n].price == makers[n - 1].price
  }

  /** Makers keep their turns through a match unless the last of them is passed over. */
  lemma TurnsKept(side: Side, makers: seq<Order>, fills: seq<Fill>)
    requires MakersOk(side, makers) && UniqueIds(makers) && Greedy(makers, fills)
    ensures KeepsTurns(makers, Leftover(side, makers, fills)) <==> !PassedOver(makers, fills)
  {
    hide Insert, KeepsTurns, UniqueIds, MakersOk, Leftover, Order.Filling;
    var n := |fills|;
    if n == 0 {
      NoFills(makers, side);
      ShiftKeeps(makers, makers, 0);
    } else {
      var m, tail := LeftoverIs(side, makers, fills);
      if m.IsFilled() {
        ShiftKeeps(makers, tail, n);
      } else {
        FillingSame(makers[n - 1], fills[n - 1].quantity);
        PartialTurns(side, makers, n - 1, m);
      }
    }
  }

  lemma FillingSame(o: Order, amount: real)
    ensures o.Filling(amount).id == o.id && o.Filling(amount).price == o.price
  {
  }

  /** A maker put back keeps its turn exactly when the next one has another price. */
  lemma PartialTurns(side: Side, makers: seq<Order>, at: nat, m: Order)
    requires MakersOk(side, makers) && UniqueIds(makers) && at < |makers|
    requires m.id == makers[at].id && m.price == makers[at].price
    ensures KeepsTurns(makers, Insert(ByPrice, side, makers[at + 1..], m))
       <==> at + 1 == |makers| || makers[at + 1].price != makers[at].price
  {
    hide Insert, KeepsTurns, UniqueIds;
    var tail := makers[at + 1..];
    assert Ordered(ByPrice, side, tail);
    var k := InsertSplits(ByPrice, side, tail, m);
    var after := tail[..k] + [m] + tail[k..];
    if tail != [] { assert !Before(side, ByPrice.Key(tail[0]), ByPrice.Key(makers[at])); }
    if k == 0 {
      assert forall i :: 0 <= i < |after| ==> after[i].id == makers[at + i].id;
      ShiftKeeps(makers, after, at);
    } else {
      assert after[0] == makers[at + 1] && after[k] == m;
      Overtaken(makers, after, at, k);
    }
  }

  lemma Overtaken(before: seq<Order>, after: seq<Order>, at: nat, k: nat)
    requires at + 1 < |before| && 0 < k < |after|
    requires after[0].id == before[at + 1].id && after[k].id == before[at].id
    ensures !KeepsTurns(before, after)
  {
  }

  // ----- on the side and the quantity -----

  /** The amount `want` ends strictly inside maker `n`, and someone else waits at that maker's price. */
  ghost predicate EndsInside(makers: seq<Order>, taker: Side, bound: Bound, want: real, n: nat) {
    && n + 1 < |makers| && makers[n + 1].price == makers[n].price && Crosses(taker, bound, makers[n].price)
    && Depth(makers[..n]) < want < Depth(makers[..n + 1])
  }

  lemma DepthNext(makers: seq<Order>, n: nat)
    requires n < |makers|
    ensures Depth(makers[..n + 1]) == Depth(makers[..n]) + makers[n].Remaining()
  {
    hide Depth;
    assert makers[..n + 1] == makers[..n] + [makers[n]];
    DepthAppend(makers[..n], [makers[n]]);
    DepthCons(makers[n], []);
    assert [makers[n]] + [] == [makers[n]];
    NoDepth();
  }

  lemma {:induction false} DepthGrows(makers: seq<Order>, i: nat, j: nat)
    requires i <= j <= |makers| && forall o :: o in makers ==> o.Remaining() > 0.0
    ensures Depth(makers[..i]) <= Depth(makers[..j])
    decreases j
  {
    hide Depth;
    if i == j {
    } else {
      assert makers[j - 1] in makers;
      DepthNext(makers, j - 1);
      DepthGrows(makers, i, j - 1);
    }
  }

  /** Greedy fills take all of the makers before the last, and the last fill on top. */
  lemma FilledSoFar(makers: seq<Order>, fills: seq<Fill>)
    requires Greedy(makers, fills) && fills != []
    ensures FillTotal(fills) == Depth(makers[..|fills| - 1]) + fills[|fills| - 1].quantity
  {
    var n := |fills| - 1;
    assert fills == fills[..n] + [fills[n]];
    FillAppend(fills[..n], [fills[n]]);
    FillOne(fills[n]);
    assert Amounts(fills[..n]) == Rests(makers[..n]);
  }

  lemma {:induction false} CrossingReaches(makers: seq<Order>, taker: Side, bound: Bound, n: nat)
    requires MakersOk(taker.Opposite(), makers) && n < |makers| && Crosses(taker, bound, makers[n].price)
    ensures CrossingDepth(makers, taker, bound) >= Depth(makers[..n + 1])
    decreases |makers|
  {
    hide Depth, CrossingDepth;
    CrossingCons(makers, taker, bound);
    MakersTail(taker.Opposite(), makers);
    assert !Before(taker.Opposite(), ByPrice.Key(makers[n]), ByPrice.Key(makers[0]));
    CrossingNonneg(makers[1..], taker, bound);
    assert makers[..n + 1] == [makers[0]] + makers[1..][..n];
    DepthCons(makers[0], makers[1..][..n]);
    if n == 0 {
      NoDepth();
    } else {
      CrossingReaches(makers[1..], taker, bound, n - 1);
    }
  }

  /** A match leaves the makers their turns if and only if the quantity does not end strictly inside a maker it
      can reach at whose price someone else waits. */
  lemma TurnsByQuantity(makers: seq<Order>, taker: Side, bound: Bound, want: real)
    requires MakersOk(taker.Opposite(), makers) && UniqueIds(makers) && want >= 0.0
    ensures KeepsTurns(makers, MatchQuantity(makers, taker, bound, want).book)
       <==> !exists n :: EndsInside(makers, taker, bound, want, n)
  {
    hide MatchQuantity, Depth, CrossingDepth, FillTotal, KeepsTurns, Leftover, UniqueIds, Ordered;
    var r := MatchQuantity(makers, taker, bound, want);
    QuantityIsGreedy(makers, taker, bound, want);
    QuantityCrosses(makers, taker, bound, want);
    TurnsKept(taker.Opposite(), makers, r.fills);
    if PassedOver(makers, r.fills) {
      PassedOverEnds(makers, taker, bound, want);
    }
    forall n | EndsInside(makers, taker, bound, want, n) ensures PassedOver(makers, r.fills) {
      EndsPassesOver(makers, taker, bound, want, n);
    }
  }

  lemma PassedOverEnds(makers: seq<Order>, taker: Side, bound: Bound, want: real)
    requires MakersOk(taker.Opposite(), makers) && want >= 0.0
    requires var fills := MatchQuantity(makers, taker, bound, want).fills;
      |fills| <= |makers| && PassedOver(makers, fills)
    ensures exists n :: EndsInside(makers, taker, bound, want, n)
  {
    hide MatchQuantity, Depth, CrossingDepth, FillTotal, Ordered, Leftover;
    var r := MatchQuantity(makers, taker, bound, want);
    var n := |r.fills| - 1;
    QuantityIsGreedy(makers, taker, bound, want);
    QuantityCrosses(makers, taker, bound, want);
    FilledSoFar(makers, r.fills);
    DepthNext(makers, n);
    assert r.fills[n] in r.fills;
    PartialUsesAll(makers, taker, r.fills, r);
    assert EndsInside(makers, taker, bound, want, n);
  }

  /** A match that leaves a maker partly filled has nothing left to fill. */
  lemma PartialUsesAll(makers: seq<Order>, taker: Side, fills: seq<Fill>, r: Outcome)
    requires MakersOk(taker.Opposite(), makers) && Greedy(makers, fills) && fills != []
    requires fills[|fills| - 1].quantity < makers[|fills| - 1].Remaining()
    requires r.book == Leftover(taker.Opposite(), makers, fills) && r.left >= 0.0
    requires r.left > 0.0 ==> r.book == makers[|fills|..]
    ensures r.left == 0.0
  {
    hide Insert;
    var m, tail := LeftoverIs(taker.Opposite(), makers, fills);
    FillingFacts(makers[|fills| - 1], fills[|fills| - 1].quantity);
    InsertMembers(ByPrice, taker.Opposite(), tail, m);
  }

  lemma EndsPassesOver(makers: seq<Order>, taker: Side, bound: Bound, want: real, n: nat)
    requires MakersOk(taker.Opposite(), makers) && want >= 0.0 && EndsInside(makers, taker, bound, want, n)
    ensures var fills := MatchQuantity(makers, taker, bound, want).fills;
      |fills| <= |makers| && PassedOver(makers, fills)
  {
    hide MatchQuantity, Depth, CrossingDepth, FillTotal, Ordered, Leftover;
    var r := MatchQuantity(makers, taker, bound, want);
    QuantityIsGreedy(makers, taker, bound, want);
    QuantityFillsExactly(makers, taker, bound, want);
    CrossingReaches(makers, taker, bound, n);
    DepthGrows(makers, 0, n);
    NoDepth();
    assert makers[..0] == [];
    assert r.fills != [] by { NoFills(makers, taker); }
    var f := |r.fills|;
    FilledSoFar(makers, r.fills);
    DepthNext(makers, f - 1);
    if f - 1 < n { DepthGrows(makers, f, n); }
    if n < f - 1 { DepthGrows(makers, n + 1, f - 1); }
    DepthNext(makers, n);
  }

  // ----- on the side and a budget -----

  /** The budget ends strictly inside maker `n`, and someone else waits at that maker's price. */
  ghost predicate SpentInside(makers: seq<Order>, budget: real, n: nat) {
    && n + 1 < |makers| && makers[n + 1].price == makers[n].price
    && Notional(makers[..n]) < budget < Notional(makers[..n + 1])
  }

  lemma NotionalNext(makers: seq<Order>, n: nat)
    requires n < |makers|
    ensures Notional(makers[..n + 1]) == Notional(makers[..n]) + Worth(makers[n])
  {
    hide Notional, Worth;
    assert makers[..n + 1] == makers[..n] + [makers[n]];
    DepthAppend(makers[..n], [makers[n]]);
    DepthCons(makers[n], []);
    assert [makers[n]] + [] == [makers[n]];
    NoNotional();
  }

  lemma {:induction false} NotionalGrows(makers: seq<Order>, i: nat, j: nat)
    requires i <= j <= |makers| && forall o :: o in makers ==> o.price > 0.0 && o.Remaining() > 0.0
    ensures Notional(makers[..i]) <= Notional(makers[..j])
    decreases j
  {
    hide Notional, Mul;
    if i == j {
    } else {
      assert makers[j - 1] in makers;
      MulSign(makers[j - 1].price, makers[j - 1].Remaining());
      NotionalNext(makers, j - 1);
      NotionalGrows(makers, i, j - 1);
    }
  }

  lemma SpentSoFar(makers: seq<Order>, fills: seq<Fill>)
    requires Greedy(makers, fills) && fills != []
    ensures FillWorth(fills) == Notional(makers[..|fills| - 1]) + fills[|fills| - 1].Worth()
  {
    hide Mul;
    var n := |fills| - 1;
    assert fills == fills[..n] + [fills[n]];
    FillAppend(fills[..n], [fills[n]]);
    FillOne(fills[n]);
    assert FillWorths(fills[..n]) == Worths(makers[..n]);
  }

  /** Part of a maker is worth less than all of it. */
  lemma PartWorth(m: Order, f: Fill)
    requires f.maker == m && m.price > 0.0 && 0.0 < f.quantity <= m.Remaining()
    ensures 0.0 < f.Worth() <= Worth(m) && (f.Worth() < Worth(m) <==> f.quantity < m.Remaining())
  {
    hide Mul;
    MulSign(m.price, f.quantity);
    MulSum(m.price, m.Remaining(), f.quantity);
    MulSign(m.price, m.Remaining() - f.quantity);
    MulZero(m.price);
  }

  /** The same for a match that spends a budget. */
  lemma TurnsByBudget(makers: seq<Order>, taker: Side, budget: real)
    requires MakersOk(taker.Opposite(), makers) && UniqueIds(makers) && budget > 0.0
    ensures KeepsTurns(makers, MatchBudget(makers, taker, budget).book)
       <==> !exists n :: SpentInside(makers, budget, n)
  {
    hide MatchBudget, Notional, FillWorth, KeepsTurns, Leftover, UniqueIds, Ordered, Mul;
    var r := MatchBudget(makers, taker, budget);
    BudgetIsGreedy(makers, taker, budget);
    TurnsKept(taker.Opposite(), makers, r.fills);
    if PassedOver(makers, r.fills) {
      PassedOverSpends(makers, taker, budget);
    }
    forall n | SpentInside(makers, budget, n) ensures PassedOver(makers, r.fills) {
      SpendsPassesOver(makers, taker, budget, n);
    }
  }

  lemma PassedOverSpends(makers: seq<Order>, taker: Side, budget: real)
    requires MakersOk(taker.Opposite(), makers) && budget > 0.0
    requires var fills := MatchBudget(makers, taker, budget).fills; |fills| <= |makers| && PassedOver(makers, fills)
    ensures exists n :: SpentInside(makers, budget, n)
  {
    hide MatchBudget, Notional, FillWorth, Ordered, Leftover, Mul;
    var r := MatchBudget(makers, taker, budget);
    var n := |r.fills| - 1;
    BudgetIsGreedy(makers, taker, budget);
    BudgetSpendsExactly(makers, taker, budget);
    SpentSoFar(makers, r.fills);
    NotionalNext(makers, n);
    NotionalGrows(makers, n + 1, |makers|);
    assert makers[..|makers|] == makers;
    assert makers[n] in makers;
    PartWorth(makers[n], r.fills[n]);
    assert SpentInside(makers, budget, n);
  }

  lemma SpendsPassesOver(makers: seq<Order>, taker: Side, budget: real, n: nat)
    requires MakersOk(taker.Opposite(), makers) && budget > 0.0 && SpentInside(makers, budget, n)
    ensures var fills := MatchBudget(makers, taker, budget).fills; |fills| <= |makers| && PassedOver(makers, fills)
  {
    hide MatchBudget, Notional, FillWorth, Ordered, Leftover, Mul;
    var r := MatchBudget(makers, taker, budget);
    BudgetIsGreedy(makers, taker, budget);
    BudgetSpendsExactly(makers, taker, budget);
    NotionalGrows(makers, n + 1, |makers|);
    assert makers[..|makers|] == makers;
    assert r.fills != [] by { NoFills(makers, taker); }
    var f := |r.fills|;
    SpentSoFar(makers, r.fills);
    NotionalNext(makers, f - 1);
    assert makers[f - 1] in makers;
    PartWorth(makers[f - 1], r.fills[f - 1]);
    if f - 1 < n { NotionalGrows(makers, f, n); }
    if n < f - 1 { NotionalGrows(makers, n + 1, f - 1); }
  }

  /** A limit order leaves the makers their turns unless it ends strictly inside one. */
  lemma LimitTurns(e: State, o: Order)
    requires BookSound(e) && Incoming(o) && o.kind.Limit? && !Killed(e, o)
    ensures var makers := e.Makers(o.side.Opposite());
      KeepsTurns(makers, ProcessLimit(e, o).0.Makers(o.side.Opposite()))
      <==> !exists n :: EndsInside(makers, o.side, At(o.price), o.quantity, n)
  {
    hide MatchQuantity, Insert, Fillable, LimitTaker, CheckStops, KeepsTurns, EndsInside, Uncrossed;
    SideOf(e, o.side.Opposite());
    TurnsByQuantity(e.Makers(o.side.Opposite()), o.side, At(o.price), o.quantity);
    forall x: State ensures CheckStops(x).bids == x.bids && CheckStops(x).asks == x.asks { CheckStopsKeepsBook(x); }
  }

  /** It happens: of two bids at one price, the earlier, half filled, ends up behind the later. */
  lemma TurnLost(user: UserId, other: UserId)
    ensures var first := Order(0, user, Buy, Limit, 5.0, 2.0, 0.0, 0.0, 0.0, Gtc, 0.0, Open);
      var second := first.(id := 1, user := other);
      && MatchQuantity([first, second], Sell, At(5.0), 1.0).book
         == [second, first.(filled := 1.0, status := PartiallyFilled)]
      && !KeepsTurns([first, second], MatchQuantity([first, second], Sell, At(5.0), 1.0).book)
  {
    var first := Order(0, user, Buy, Limit, 5.0, 2.0, 0.0, 0.0, 0.0, Gtc, 0.0, Open);
    var second := first.(id := 1, user := other);
    var back := first.(filled := 1.0, status := PartiallyFilled);
    assert first.Filling(1.0) == back;
    InsertBetween(ByPrice, Buy, [second], [], back);
    assert [first, second][1..] == [second] + [];
    Overtaken([first, second], [second, back], 0, 1);
  }
}
