/** How big a follower's copy of a leader's limit order is (backend/app/services/copy_trading_service.py:34-62). */
module CopySizing {
  import opened Orders
  import opened Sums
  import opened Wallets
  import opened PairRules

  datatype Option<T> = None | Some(value: T)

  /** Whole part, rounding towards zero. */
  function Truncated(x: real): int {
    if x >= 0.0 then x.Floor else -((-x).Floor)
  }

  function FloorToStep(quantity: real, step: real): real {
    if step <= 0.0 then quantity else Mul(Truncated(Div(quantity, step)) as real, step)
  }

  /** What a follower's relation and the pair allow at most. */
  function Cap(leaderQuantity: real, leaderPrice: real, allocation: real, maxPosition: Option<real>,
               maxQty: real): real {
    var share := leaderQuantity * (allocation / 100.0);
    var held := if maxPosition.Some? && leaderPrice > 0.0 then Min(share, maxPosition.value / leaderPrice) else share;
    Min(held, maxQty)
  }

  function CopyQuantity(leaderQuantity: real, leaderPrice: real, allocation: real, maxPosition: Option<real>,
                        minQty: real, maxQty: real, minNotional: real, step: real): Option<real>
  {
    var quantity := FloorToStep(Cap(leaderQuantity, leaderPrice, allocation, maxPosition, maxQty), step);
    if quantity <= 0.0 || quantity < minQty then None
    else if quantity * leaderPrice < minNotional then None
    else Some(quantity)
  }

  /** Rounding down to the step finds the greatest positive multiple within a bound, if there is one. */
  lemma FloorIsGreatest(bound: real, step: real, k: int)
    requires step > 0.0
    ensures FloorToStep(bound, step) == Steps(Truncated(Div(bound, step)), step)
    ensures k >= 1 ==> (Steps(k, step) <= bound <==> k <= Truncated(Div(bound, step)))
  {
    hide Mul, Div;
    var q := Div(bound, step);
    DivUndone(bound, step);
    MulSwap(step, q);
    MulSwap(step, k as real);
    if k as real <= q {
      MulMono(step, k as real, q);
    } else {
      MulSum(step, k as real, q);
      MulSign(step, k as real - q);
    }
  }

  /** A quantity a follower may copy: a positive number of steps, within the allocation, position and quantity
      caps, and of the minimum size and worth. */
  ghost predicate MayCopy(k: int, leaderQuantity: real, leaderPrice: real, allocation: real, maxPosition: Option<real>,
                          minQty: real, maxQty: real, minNotional: real, step: real)
  {
    && k >= 1
    && Steps(k, step) <= leaderQuantity * (allocation / 100.0)
    && (maxPosition.Some? && leaderPrice > 0.0 ==> Steps(k, step) <= maxPosition.value / leaderPrice)
    && Steps(k, step) <= maxQty
    && Steps(k, step) >= minQty
    && Steps(k, step) * leaderPrice >= minNotional
  }

  lemma WorthGrows(a: real, b: real, price: real)
    requires a <= b && price >= 0.0
    ensures a * price <= b * price
  {
  }

  /** Copy sizing is optimal: with a step, the result is the greatest quantity a follower may copy, and there is
      no result exactly when there is no such quantity. */
  lemma CopyIsGreatest(leaderQuantity: real, leaderPrice: real, allocation: real, maxPosition: Option<real>,
                       minQty: real, maxQty: real, minNotional: real, step: real)
    requires step > 0.0 && leaderPrice >= 0.0
    ensures var r :=
      CopyQuantity(leaderQuantity, leaderPrice, allocation, maxPosition, minQty, maxQty, minNotional, step);
      match r
      case Some(q) =>
        && (exists k :: q == Steps(k, step)
              && MayCopy(k, leaderQuantity, leaderPrice, allocation, maxPosition, minQty, maxQty, minNotional, step))
        && (forall k :: MayCopy(k, leaderQuantity, leaderPrice, allocation, maxPosition, minQty,
                                  maxQty, minNotional, step)
              ==> Steps(k, step) <= q)
      case None =>
        forall k :: !MayCopy(k, leaderQuantity, leaderPrice, allocation, maxPosition, minQty, maxQty, minNotional, step)
  {
    hide Steps, Truncated, FloorToStep;
    var cap := Cap(leaderQuantity, leaderPrice, allocation, maxPosition, maxQty);
    var n := Truncated(Div(cap, step));
    FloorIsGreatest(cap, step, n);
    StepsGrow(n, n, step);
    forall k | MayCopy(k, leaderQuantity, leaderPrice, allocation, maxPosition, minQty, maxQty, minNotional, step)
      ensures k <= n && Steps(k, step) <= Steps(n, step)
      ensures Steps(n, step) > 0.0 && Steps(n, step) >= minQty && Steps(n, step) * leaderPrice >= minNotional
    {
      FloorIsGreatest(cap, step, k);
      StepsGrow(k, n, step);
      WorthGrows(Steps(k, step), Steps(n, step), leaderPrice);
    }
    if CopyQuantity(leaderQuantity, leaderPrice, allocation, maxPosition, minQty, maxQty, minNotional, step).Some? {
      assert MayCopy(n, leaderQuantity, leaderPrice, allocation, maxPosition, minQty, maxQty, minNotional, step);
    }
  }

  /** A copy passes the pair's rules whenever the leader's price is on the tick grid. */
  lemma CopyPassesRules(pair: Pair, leaderQuantity: real, leaderPrice: real, allocation: real,
                        maxPosition: Option<real>)
    requires leaderPrice >= 0.0 && (pair.tickSize > 0.0 ==> !OffGrid(leaderPrice, pair.tickSize))
    ensures var r := CopyQuantity(leaderQuantity, leaderPrice, allocation, maxPosition, pair.minQty, pair.maxQty,
                                  pair.minNotional, pair.stepSize);
      r.Some? ==> r.value > 0.0 && QuantityRules(pair, r.value) && PriceRules(pair, r.value, leaderPrice)
  {
    hide Steps, Truncated, IsWhole, OffGrid, MayCopy;
    var r := CopyQuantity(leaderQuantity, leaderPrice, allocation, maxPosition, pair.minQty, pair.maxQty,
                          pair.minNotional, pair.stepSize);
    if r.Some? && pair.stepSize > 0.0 {
      var cap := Cap(leaderQuantity, leaderPrice, allocation, maxPosition, pair.maxQty);
      var n := Truncated(Div(cap, pair.stepSize));
      FloorIsGreatest(cap, pair.stepSize, n);
      StepsGrow(n, n, pair.stepSize);
      StepsWhole(n, pair.stepSize);
    }
  }
}
