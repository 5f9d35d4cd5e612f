/** Matching against one side of the book, as simple recursions over its priority sequence, and what a
    match achieves: how much it fills, at what prices, which makers it touches, and that no other way
    of filling is better. */
module Matching {
  import opened Orders
  import opened Sums
  import opened Priority

  /** A taker's price condition: a market order takes any price. */
  datatype Bound = AnyPrice | At(limit: real)

  predicate Crosses(taker: Side, bound: Bound, makerPrice: real) {
    bound.AnyPrice? || !Before(taker.Opposite(), bound.limit, makerPrice)
  }

  /** `quantity` taken from `maker`, given as it was before the fill. */
  datatype Fill = Fill(maker: Order, quantity: real) {
    function Worth(): real {
      Mul(maker.price, quantity)
    }
  }

  datatype Outcome = Outcome(fills: seq<Fill>, book: seq<Order>, left: real)

  /** The book with its head reduced by `amount`; a partially filled maker goes to the back of its price. */
  function TakeHead(side: Side, makers: seq<Order>, amount: real): seq<Order>
    requires makers != []
  {
    var m := makers[0].Filling(amount);
    if m.IsFilled() then makers[1..] else Insert(ByPrice, side, makers[1..], m)
  }

  /** Fill `want` base units at crossing prices. */
  function MatchQuantity(makers: seq<Order>, taker: Side, bound: Bound, want: real): Outcome {
    if makers == [] || want <= 0.0 || !Crosses(taker, bound, makers[0].price) then
      Outcome([], makers, want)
    else if want < makers[0].Remaining() then
      Outcome([Fill(makers[0], want)], TakeHead(taker.Opposite(), makers, want), 0.0)
    else
      var r := MatchQuantity(makers[1..], taker, bound, want - makers[0].Remaining());
      Outcome([Fill(makers[0], makers[0].Remaining())] + r.fills, r.book, r.left)
  }

  /** Spend (or raise) `budget` quote units. */
  function MatchBudget(makers: seq<Order>, taker: Side, budget: real): Outcome {
    if makers == [] || budget <= 0.0 || makers[0].price <= 0.0 then
      Outcome([], makers, budget)
    else if Div(budget, makers[0].price) < makers[0].Remaining() then
      Outcome([Fill(makers[0], Div(budget, makers[0].price))],
              TakeHead(taker.Opposite(), makers, Div(budget, makers[0].price)), 0.0)
    else
      var r := MatchBudget(makers[1..], taker, budget - Worth(makers[0]));
      Outcome([Fill(makers[0], makers[0].Remaining())] + r.fills, r.book, r.left)
  }

  ghost predicate MakersOk(side: Side, makers: seq<Order>) {
    && Ordered(ByPrice, side, makers)
    && forall o :: o in makers ==> o.price > 0.0 && o.filled >= 0.0 && o.Remaining() > 0.0
  }

  // ----- greedy fills -----

  /** The makers touched are the head of the priority sequence, and all but the last are used up. */
  ghost predicate Greedy(makers: seq<Order>, fills: seq<Fill>) {
    && |fills| <= |makers|
    && (forall i :: 0 <= i < |fills| ==>
          fills[i].maker == makers[i] && 0.0 < fills[i].quantity <= makers[i].Remaining())
    && (forall i :: 0 <= i < |fills| - 1 ==> fills[i].quantity == makers[i].Remaining())
  }

  /** What greedy fills leave of the book. */
  ghost function Leftover(side: Side, makers: seq<Order>, fills: seq<Fill>): seq<Order>
    requires Greedy(makers, fills)
  {
    if fills == [] then makers
    else TakeHead(side, makers[|fills| - 1..], fills[|fills| - 1].quantity)
  }

  ghost function Amounts(fills: seq<Fill>): seq<real> {
    seq(|fills|, i requires 0 <= i < |fills| => fills[i].quantity)
  }

  ghost function FillTotal(fills: seq<Fill>): real {
    Total(Amounts(fills))
  }

  ghost function FillWorths(fills: seq<Fill>): seq<real> {
    seq(|fills|, i requires 0 <= i < |fills| => fills[i].Worth())
  }

  ghost function FillWorth(fills: seq<Fill>): real {
    Total(FillWorths(fills))
  }

  lemma FillAppend(a: seq<Fill>, b: seq<Fill>)
    ensures FillTotal(a + b) == FillTotal(a) + FillTotal(b)
    ensures FillWorth(a + b) == FillWorth(a) + FillWorth(b)
  {
    hide Mul;
    assert Amounts(a + b) == Amounts(a) + Amounts(b);
    TotalAppend(Amounts(a), Amounts(b));
    assert FillWorths(a + b) == FillWorths(a) + FillWorths(b);
    TotalAppend(FillWorths(a), FillWorths(b));
  }

  lemma FillOne(f: Fill)
    ensures FillTotal([f]) == f.quantity && FillWorth([f]) == f.Worth()
  {
    hide Mul;
    assert Amounts([f]) == [f.quantity] && FillWorths([f]) == [f.Worth()];
    TotalOne(f.quantity);
    TotalOne(f.Worth());
  }

  /** A head taken whole is gone. */
  lemma HeadUsed(side: Side, makers: seq<Order>)
    requires makers != [] && makers[0].Remaining() > 0.0
    ensures TakeHead(side, makers, makers[0].Remaining()) == makers[1..]
  {
    hide Insert;
  }

  lemma GreedyCons(makers: seq<Order>, taker: Side, fills: seq<Fill>)
    requires makers != [] && makers[0].Remaining() > 0.0
    requires Greedy(makers[1..], fills)
    ensures Greedy(makers, [Fill(makers[0], makers[0].Remaining())] + fills)
    ensures Leftover(taker.Opposite(), makers, [Fill(makers[0], makers[0].Remaining())] + fills)
         == Leftover(taker.Opposite(), makers[1..], fills)
  {
    hide TakeHead, Order.Remaining;
    var all := [Fill(makers[0], makers[0].Remaining())] + fills;
    forall i | 0 <= i < |all|
      ensures all[i].maker == makers[i] && 0.0 < all[i].quantity <= makers[i].Remaining()
      ensures i < |all| - 1 ==> all[i].quantity == makers[i].Remaining()
    {
      if i > 0 { assert all[i] == fills[i - 1] && makers[i] == makers[1..][i - 1]; }
    }
    if fills == [] {
      assert makers[0..] == makers;
      HeadUsed(taker.Opposite(), makers);
    } else {
      assert makers[|all| - 1..] == makers[1..][|fills| - 1..];
    }
  }

  lemma GreedyOne(makers: seq<Order>, taker: Side, amount: real)
    requires makers != [] && 0.0 < amount <= makers[0].Remaining()
    ensures var fills := [Fill(makers[0], amount)];
      && Greedy(makers, fills)
      && Leftover(taker.Opposite(), makers, fills) == TakeHead(taker.Opposite(), makers, amount)
      && FillTotal(fills) == amount && FillWorth(fills) == Mul(makers[0].price, amount)
  {
    hide Mul;
    FillOne(Fill(makers[0], amount));
    assert makers[0..] == makers;
  }

  lemma NoFills(makers: seq<Order>, side: Side)
    ensures Greedy(makers, []) && Leftover(side, makers, []) == makers
    ensures FillTotal([]) == 0.0 == FillWorth([])
  {
  }

  lemma MakersTail(side: Side, makers: seq<Order>)
    requires MakersOk(side, makers) && makers != []
    ensures makers[0].price > 0.0 && makers[0].filled >= 0.0 && makers[0].Remaining() > 0.0
    ensures MakersOk(side, makers[1..])
  {
    assert makers[0] in makers;
    assert forall o :: o in makers[1..] ==> o in makers;
  }

  /** A limit or quantity-funded match is greedy. */
  lemma {:induction false} QuantityIsGreedy(makers: seq<Order>, taker: Side, bound: Bound, want: real)
    requires MakersOk(taker.Opposite(), makers)
    ensures var r := MatchQuantity(makers, taker, bound, want);
      && Greedy(makers, r.fills)
      && r.book == Leftover(taker.Opposite(), makers, r.fills)
      && r.left == want - FillTotal(r.fills)
      && (want >= 0.0 ==> r.left >= 0.0)
  {
    hide Mul, TakeHead, Leftover, Greedy, FillWorth, FillTotal, Ordered;
    if makers == [] || want <= 0.0 || !Crosses(taker, bound, makers[0].price) {
      NoFills(makers, taker.Opposite());
    } else {
      MakersTail(taker.Opposite(), makers);
      var rest := makers[0].Remaining();
      if want < rest {
        GreedyOne(makers, taker, want);
      } else {
        QuantityIsGreedy(makers[1..], taker, bound, want - rest);
        var r := MatchQuantity(makers[1..], taker, bound, want - rest);
        GreedyCons(makers, taker, r.fills);
        FillOne(Fill(makers[0], rest));
        FillAppend([Fill(makers[0], rest)], r.fills);
      }
    }
  }

  /** Every fill crosses, and a match that leaves something unfilled has met the end of the side or a
      price that does not cross, with no maker left partly filled. */
  lemma {:induction false} QuantityCrosses(makers: seq<Order>, taker: Side, bound: Bound, want: real)
    requires MakersOk(taker.Opposite(), makers)
    ensures var r := MatchQuantity(makers, taker, bound, want);
      && (forall f :: f in r.fills ==> Crosses(taker, bound, f.maker.price))
      && (r.left > 0.0 ==> |r.fills| <= |makers| && r.book == makers[|r.fills|..])
      && (r.left > 0.0 && r.book != [] ==> !Crosses(taker, bound, r.book[0].price))
  {
    hide Mul, TakeHead, FillWorth, FillTotal, Ordered;
    if makers == [] || want <= 0.0 || !Crosses(taker, bound, makers[0].price) {
    } else if want < makers[0].Remaining() {
    } else {
      var rest := makers[0].Remaining();
      MakersTail(taker.Opposite(), makers);
      QuantityCrosses(makers[1..], taker, bound, want - rest);
      var r := MatchQuantity(makers[1..], taker, bound, want - rest);
      if r.left > 0.0 { assert makers[1..][|r.fills|..] == makers[|r.fills| + 1..]; }
    }
  }

  /** A budget match is greedy. */
  lemma {:induction false} BudgetIsGreedy(makers: seq<Order>, taker: Side, budget: real)
    requires MakersOk(taker.Opposite(), makers)
    ensures var r := MatchBudget(makers, taker, budget);
      && Greedy(makers, r.fills)
      && r.book == Leftover(taker.Opposite(), makers, r.fills)
      && r.left == budget - FillWorth(r.fills)
      && (r.left > 0.0 ==> r.book == [])
  {
    hide Mul, Div, TakeHead, Leftover, Greedy, FillWorth, FillTotal, Ordered;
    if makers == [] || budget <= 0.0 {
      NoFills(makers, taker.Opposite());
    } else {
      var m := makers[0];
      MakersTail(taker.Opposite(), makers);
      if Div(budget, m.price) < m.Remaining() {
        DivUndone(budget, m.price);
        GreedyOne(makers, taker, Div(budget, m.price));
      } else {
        BudgetIsGreedy(makers[1..], taker, budget - Worth(m));
        var r := MatchBudget(makers[1..], taker, budget - Worth(m));
        GreedyCons(makers, taker, r.fills);
        FillOne(Fill(m, m.Remaining()));
        FillAppend([Fill(m, m.Remaining())], r.fills);
      }
    }
  }

  /** A budget match spends exactly min(budget, everything on the side). */
  lemma {:induction false} BudgetSpendsExactly(makers: seq<Order>, taker: Side, budget: real)
    requires MakersOk(taker.Opposite(), makers) && budget >= 0.0
    ensures FillWorth(MatchBudget(makers, taker, budget).fills) == Min(budget, Notional(makers))
  {
    hide Mul, Div, TakeHead, Notional, FillTotal, FillWorth, Greedy, Leftover, Ordered;
    NotionalNonneg(makers);
    NoFills(makers, taker.Opposite());
    NoNotional();
    if makers != [] && budget > 0.0 {
      var m := makers[0];
      MakersTail(taker.Opposite(), makers);
      assert makers == [m] + makers[1..];
      DepthCons(m, makers[1..]);
      NotionalNonneg(makers[1..]);
      DivBounds(budget, m.price, m.Remaining());
      if Div(budget, m.price) < m.Remaining() {
        DivUndone(budget, m.price);
        GreedyOne(makers, taker, Div(budget, m.price));
      } else {
        BudgetSpendsExactly(makers[1..], taker, budget - Worth(m));
        FillOne(Fill(m, m.Remaining()));
        FillAppend([Fill(m, m.Remaining())], MatchBudget(makers[1..], taker, budget - Worth(m)).fills);
      }
    }
  }

  lemma NoNotional()
    ensures Notional([]) == 0.0
  {
  }

  lemma NotionalNonneg(makers: seq<Order>)
    requires forall o :: o in makers ==> o.price > 0.0 && o.Remaining() > 0.0
    ensures Notional(makers) >= 0.0
  {
    hide Mul;
    forall i | 0 <= i < |makers| ensures Worths(makers)[i] >= 0.0 {
      assert makers[i] in makers;
      MulSign(makers[i].price, makers[i].Remaining());
    }
    TotalBounds(Worths(makers));
  }

  // ----- how much a limit match fills -----

  ghost function CrossingRests(makers: seq<Order>, taker: Side, bound: Bound): seq<real> {
    seq(|makers|, i requires 0 <= i < |makers| =>
      if Crosses(taker, bound, makers[i].price) then makers[i].Remaining() else 0.0)
  }

  /** The depth a taker with this bound can reach. */
  ghost function CrossingDepth(makers: seq<Order>, taker: Side, bound: Bound): real {
    Total(CrossingRests(makers, taker, bound))
  }

  lemma CrossingCons(makers: seq<Order>, taker: Side, bound: Bound)
    requires makers != []
    ensures CrossingDepth(makers, taker, bound)
         == (if Crosses(taker, bound, makers[0].price) then makers[0].Remaining() else 0.0)
            + CrossingDepth(makers[1..], taker, bound)
  {
    assert CrossingRests(makers, taker, bound)[1..] == CrossingRests(makers[1..], taker, bound);
  }

  lemma CrossingNonneg(makers: seq<Order>, taker: Side, bound: Bound)
    requires forall o :: o in makers ==> o.Remaining() > 0.0
    ensures CrossingDepth(makers, taker, bound) >= 0.0
  {
    TotalBounds(CrossingRests(makers, taker, bound));
  }

  lemma CrossingAny(makers: seq<Order>, taker: Side)
    ensures CrossingDepth(makers, taker, AnyPrice) == Depth(makers)
  {
    assert CrossingRests(makers, taker, AnyPrice) == Rests(makers);
  }

  /** Once the head of an ordered side does not cross, nothing behind it does. */
  lemma NothingCrosses(makers: seq<Order>, taker: Side, bound: Bound)
    requires Ordered(ByPrice, taker.Opposite(), makers)
    requires makers != [] ==> !Crosses(taker, bound, makers[0].price)
    ensures forall o :: o in makers ==> !Crosses(taker, bound, o.price)
    ensures CrossingDepth(makers, taker, bound) == 0.0
  {
    forall i | 0 <= i < |makers| ensures !Crosses(taker, bound, makers[i].price) {
      if i > 0 { assert !Before(taker.Opposite(), ByPrice.Key(makers[i]), ByPrice.Key(makers[0])); }
    }
    TotalZero(CrossingRests(makers, taker, bound));
  }

  lemma NoneToCross(taker: Side, bound: Bound)
    ensures CrossingDepth([], taker, bound) == 0.0
  {
  }

  /** A match fills exactly min(wanted, crossing depth). */
  lemma {:induction false} QuantityFillsExactly(makers: seq<Order>, taker: Side, bound: Bound, want: real)
    requires MakersOk(taker.Opposite(), makers) && want >= 0.0
    ensures FillTotal(MatchQuantity(makers, taker, bound, want).fills)
         == Min(want, CrossingDepth(makers, taker, bound))
  {
    hide Mul, TakeHead, CrossingDepth, FillTotal, FillWorth, Ordered;
    NoFillTotals();
    if makers == [] {
      NoneToCross(taker, bound);
    } else if !Crosses(taker, bound, makers[0].price) {
      NothingCrosses(makers, taker, bound);
    } else {
      var rest := makers[0].Remaining();
      CrossingCons(makers, taker, bound);
      CrossingNonneg(makers[1..], taker, bound);
      MakersTail(taker.Opposite(), makers);
      if want <= 0.0 {
      } else if want < rest {
        FillOne(Fill(makers[0], want));
      } else {
        QuantityFillsExactly(makers[1..], taker, bound, want - rest);
        FillOne(Fill(makers[0], rest));
        FillAppend([Fill(makers[0], rest)], MatchQuantity(makers[1..], taker, bound, want - rest).fills);
      }
    }
  }

  /** What the first `want` units of a side are worth, taken in priority order. */
  function FirstWorth(makers: seq<Order>, want: real): real {
    if makers == [] || want <= 0.0 then 0.0
    else if want < makers[0].Remaining() then Mul(makers[0].price, want)
    else Worth(makers[0]) + FirstWorth(makers[1..], want - makers[0].Remaining())
  }

  /** A match at any price costs, or earns, exactly what the first units of the side are worth. */
  lemma {:induction false} FillsAreFirst(makers: seq<Order>, taker: Side, want: real)
    ensures FillWorth(MatchQuantity(makers, taker, AnyPrice, want).fills) == FirstWorth(makers, want)
  {
    hide Mul, FillWorth, FillTotal, TakeHead;
    NoFills(makers, taker);
    if makers == [] || want <= 0.0 {
    } else if want < makers[0].Remaining() {
      FillOne(Fill(makers[0], want));
    } else {
      var rest := MatchQuantity(makers[1..], taker, AnyPrice, want - makers[0].Remaining());
      FillsAreFirst(makers[1..], taker, want - makers[0].Remaining());
      FillOne(Fill(makers[0], makers[0].Remaining()));
      FillAppend([Fill(makers[0], makers[0].Remaining())], rest.fills);
    }
  }

  // ----- what greedy fills keep -----

  lemma FillingFacts(o: Order, amount: real)
    requires 0.0 < amount <= o.Remaining() && o.filled >= 0.0
    ensures o.Filling(amount).Remaining() == o.Remaining() - amount
    ensures o.Filling(amount) == o.(filled := o.filled + amount,
                                    status := if amount == o.Remaining() then Filled else PartiallyFilled)
  {
  }

  /** Below the last maker touched, the book is what it was; that maker follows the queue at its price. */
  lemma LeftoverIs(side: Side, makers: seq<Order>, fills: seq<Fill>) returns (m: Order, tail: seq<Order>)
    requires MakersOk(side, makers) && Greedy(makers, fills) && fills != []
    ensures |fills| <= |makers| && tail == makers[|fills|..] && MakersOk(side, tail)
    ensures m == makers[|fills| - 1].Filling(fills[|fills| - 1].quantity)
    ensures m.Remaining() == makers[|fills| - 1].Remaining() - fills[|fills| - 1].quantity
    ensures m.price > 0.0 && m.filled >= 0.0 && m.Remaining() >= 0.0
    ensures Leftover(side, makers, fills) == if m.IsFilled() then tail else Insert(ByPrice, side, tail, m)
  {
    hide Insert;
    var n := |fills|;
    tail := makers[n..];
    m := makers[n - 1].Filling(fills[n - 1].quantity);
    assert makers[n - 1] in makers;
    FillingFacts(makers[n - 1], fills[n - 1].quantity);
    assert makers[n - 1..][1..] == tail;
    assert forall o :: o in tail ==> o in makers;
  }

  /** The side stays ordered with positive remainders, and its members are the makers not touched plus at
      most the last one touched. */
  lemma LeftoverKeeps(side: Side, makers: seq<Order>, fills: seq<Fill>)
    requires MakersOk(side, makers) && Greedy(makers, fills)
    ensures MakersOk(side, Leftover(side, makers, fills))
    ensures forall o :: o in Leftover(side, makers, fills) <==>
      || o in makers[|fills|..]
      || (fills != [] && o == makers[|fills| - 1].Filling(fills[|fills| - 1].quantity) && !o.IsFilled())
  {
    hide Insert;
    if fills != [] {
      var m, tail := LeftoverIs(side, makers, fills);
      InsertMembers(ByPrice, side, tail, m);
      InsertOrdered(ByPrice, side, tail, m);
    } else {
      assert makers[0..] == makers;
    }
  }

  lemma NoFillTotals()
    ensures FillTotal([]) == 0.0 == FillWorth([])
  {
    hide Mul;
  }

  lemma UsedUpDepth(makers: seq<Order>, fills: seq<Fill>, n: nat)
    requires Greedy(makers, fills) && n < |fills|
    ensures FillTotal(fills[..n]) == Depth(makers[..n])
  {
    assert Amounts(fills[..n]) == Rests(makers[..n]);
  }

  /** The side's depth drops by exactly what was filled. */
  lemma LeftoverDepth(side: Side, makers: seq<Order>, fills: seq<Fill>)
    requires MakersOk(side, makers) && Greedy(makers, fills)
    ensures Depth(makers) == Depth(Leftover(side, makers, fills)) + FillTotal(fills)
  {
    hide Insert, Mul, Depth, Notional, FillTotal, FillWorth, Greedy, Ordered, Order.Filling;
    var n := |fills|;
    if n == 0 {
      NoFillTotals();
    } else {
      var m, tail := LeftoverIs(side, makers, fills);
      var last := makers[n - 1];
      assert makers == makers[..n - 1] + ([last] + tail);
      DepthAppend(makers[..n - 1], [last] + tail);
      DepthCons(last, tail);
      DepthInsert(ByPrice, side, tail, m);
      assert fills == fills[..n - 1] + [fills[n - 1]];
      FillAppend(fills[..n - 1], [fills[n - 1]]);
      FillOne(fills[n - 1]);
      UsedUpDepth(makers, fills, n - 1);
    }
  }

  /** Trade prices only get worse for the taker as a match walks the book. */
  lemma PricesMonotone(side: Side, makers: seq<Order>, fills: seq<Fill>, i: nat, j: nat)
    requires MakersOk(side, makers) && Greedy(makers, fills) && i <= j < |fills|
    ensures !Before(side, fills[j].maker.price, fills[i].maker.price)
  {
    if i < j {
      assert !Before(side, ByPrice.Key(makers[j]), ByPrice.Key(makers[i]));
    }
  }

  // ----- optimality -----

  /** An alternative way to fill: how much to take from each maker. */
  ghost predicate Allocation(makers: seq<Order>, alloc: seq<real>) {
    |alloc| == |makers| && forall i :: 0 <= i < |alloc| ==> 0.0 <= alloc[i] <= makers[i].Remaining()
  }

  function Spend(o: Order, amount: real): real {
    Mul(o.price, amount)
  }

  ghost function Costs(makers: seq<Order>, alloc: seq<real>): seq<real>
    requires |alloc| == |makers|
  {
    seq(|makers|, i requires 0 <= i < |makers| => Spend(makers[i], alloc[i]))
  }

  /** The allocation greedy fills amount to. */
  ghost function Taken(makers: seq<Order>, fills: seq<Fill>): seq<real> {
    seq(|makers|, i requires 0 <= i < |makers| => if i < |fills| then fills[i].quantity else 0.0)
  }

  lemma TakenTotals(makers: seq<Order>, fills: seq<Fill>)
    requires Greedy(makers, fills)
    ensures Total(Taken(makers, fills)) == FillTotal(fills)
    ensures Total(Costs(makers, Taken(makers, fills))) == FillWorth(fills)
  {
    hide Mul;
    var n, t := |fills|, Taken(makers, fills);
    var c := Costs(makers, t);
    assert t == Amounts(fills) + t[n..];
    TotalAppend(Amounts(fills), t[n..]);
    TotalZero(t[n..]);
    forall i | 0 <= i < n ensures c[i] == FillWorths(fills)[i] {
      assert c[i] == Spend(makers[i], t[i]);
    }
    assert c == FillWorths(fills) + c[n..];
    TotalAppend(FillWorths(fills), c[n..]);
    forall i | n <= i < |c| ensures c[i] == 0.0 {
      MulZero(makers[i].price);
      assert c[i] == Spend(makers[i], t[i]);
    }
    TotalZero(c[n..]);
  }

  lemma CostsTail(makers: seq<Order>, alloc: seq<real>)
    requires |alloc| == |makers| > 0
    ensures Total(Costs(makers, alloc)) == Spend(makers[0], alloc[0]) + Total(Costs(makers[1..], alloc[1..]))
  {
    hide Mul;
    var t := Costs(makers[1..], alloc[1..]);
    forall i | 0 <= i < |t| ensures Costs(makers, alloc)[1..][i] == t[i] {
      assert t[i] == Spend(makers[1..][i], alloc[1..][i]);
    }
    assert Costs(makers, alloc)[1..] == t;
  }

  /** Shifting from greedy amounts to any others costs at least the marginal price per unit. */
  lemma {:induction false} MarginalShift(makers: seq<Order>, a: seq<real>, g: seq<real>, p: real, taker: Side)
    requires |a| == |g| == |makers|
    requires forall i :: 0 <= i < |makers| ==> Toward(taker, makers[i].price, p, a[i], g[i])
    ensures var cost := Total(Costs(makers, a)) - Total(Costs(makers, g));
      var floor := Mul(p, Total(a) - Total(g));
      if taker.Buy? then cost >= floor else cost <= floor
  {
    hide Mul;
    if makers == [] {
      MulZero(p);
    } else {
      CostsTail(makers, a);
      CostsTail(makers, g);
      MarginalShift(makers[1..], a[1..], g[1..], p, taker);
      var m, x, y := makers[0].price, a[0], g[0];
      MulSum(m, x, y);
      MulSum(x - y, m, p);
      MulSum(p, x - y, Total(a[1..]) - Total(g[1..]));
      MulSign(m - p, x - y);
      MulSwap(x - y, m);
      MulSwap(x - y, p);
      MulSwap(x - y, m - p);
    }
  }

  /** Taking y instead of x at price m moves quantity towards the better side of price p. */
  ghost predicate Toward(taker: Side, m: real, p: real, x: real, y: real) {
    || m == p
    || (x <= y && !Before(taker.Opposite(), p, m))
    || (x >= y && !Before(taker.Opposite(), m, p))
  }

  /** Greedy fills against any allocation whatever: the difference in cost is at least the marginal
      price (the last one traded) times the difference in quantity. */
  lemma GreedyDominates(makers: seq<Order>, taker: Side, fills: seq<Fill>, alloc: seq<real>)
    requires MakersOk(taker.Opposite(), makers) && Greedy(makers, fills) && fills != []
    requires Allocation(makers, alloc)
    ensures var cost := Total(Costs(makers, alloc)) - FillWorth(fills);
      var floor := Mul(makers[|fills| - 1].price, Total(alloc) - FillTotal(fills));
      if taker.Buy? then cost >= floor else cost <= floor
  {
    hide Mul, Total, FillTotal, FillWorth, Costs;
    var n, g := |fills|, Taken(makers, fills);
    var p := makers[n - 1].price;
    forall i | 0 <= i < |makers| ensures Toward(taker, makers[i].price, p, alloc[i], g[i]) {
      if i < n - 1 {
        assert !Before(taker.Opposite(), ByPrice.Key(makers[n - 1]), ByPrice.Key(makers[i]));
      } else if i > n - 1 {
        assert !Before(taker.Opposite(), ByPrice.Key(makers[i]), ByPrice.Key(makers[n - 1]));
      }
    }
    MarginalShift(makers, alloc, g, p, taker);
    TakenTotals(makers, fills);
  }

  /** Best execution: no allocation of the same quantity costs a buyer less or earns a seller more. */
  lemma BestExecution(makers: seq<Order>, taker: Side, bound: Bound, want: real, alloc: seq<real>)
    requires MakersOk(taker.Opposite(), makers) && Allocation(makers, alloc)
    requires Total(alloc) == FillTotal(MatchQuantity(makers, taker, bound, want).fills)
    ensures var spent := FillWorth(MatchQuantity(makers, taker, bound, want).fills);
      if taker.Buy? then spent <= Total(Costs(makers, alloc)) else spent >= Total(Costs(makers, alloc))
  {
    hide Mul, MatchQuantity, Insert, TakeHead;
    var fills := MatchQuantity(makers, taker, bound, want).fills;
    QuantityIsGreedy(makers, taker, bound, want);
    if fills == [] {
      TotalBounds(alloc);
      forall i | 0 <= i < |makers| ensures Costs(makers, alloc)[i] == 0.0 {
        assert alloc[i] == 0.0;
        MulZero(makers[i].price);
        assert Costs(makers, alloc)[i] == Spend(makers[i], alloc[i]);
      }
      TotalZero(Costs(makers, alloc));
    } else {
      GreedyDominates(makers, taker, fills, alloc);
      MulZero(makers[|fills| - 1].price);
    }
  }

  /** A budget buys as much as any allocation costing no more; raising a budget sells as little. */
  lemma BestBudget(makers: seq<Order>, taker: Side, budget: real, alloc: seq<real>)
    requires MakersOk(taker.Opposite(), makers) && Allocation(makers, alloc) && budget > 0.0 && makers != []
    ensures var fills := MatchBudget(makers, taker, budget).fills;
      if taker.Buy? then Total(Costs(makers, alloc)) <= FillWorth(fills) ==> Total(alloc) <= FillTotal(fills)
      else Total(Costs(makers, alloc)) >= FillWorth(fills) ==> Total(alloc) >= FillTotal(fills)
  {
    hide Mul, Div, Costs, FillWorth, FillTotal, Total, Leftover, Ordered, Allocation;
    var fills := MatchBudget(makers, taker, budget).fills;
    BudgetIsGreedy(makers, taker, budget);
    assert fills != [];
    GreedyDominates(makers, taker, fills, alloc);
    var p, d := makers[|fills| - 1].price, Total(alloc) - FillTotal(fills);
    MulSign(p, d);
  }
}
