/** What sizes and prices a pair accepts (backend/app/api/v1/trading.py:81-96). */
module PairRules {
  import opened Sums
  import opened Wallets

  predicate IsWhole(x: real) {
    x == x.Floor as real
  }

  /** The remainder Python's `%` leaves for a nonnegative amount. */
  function Remainder(x: real, step: real): real
    requires step > 0.0
  {
    x - step * (x / step).Floor as real
  }

  const DRIFT := 0.00000001

  predicate OffGrid(x: real, step: real)
    requires step > 0.0
  {
    var r := Remainder(x, step);
    r > DRIFT && step - r > DRIFT
  }

  predicate QuantityRules(pair: Pair, quantity: real) {
    && pair.minQty <= quantity <= pair.maxQty
    && (pair.stepSize > 0.0 && !IsWhole(quantity / pair.stepSize) ==> !OffGrid(quantity, pair.stepSize))
  }

  predicate PriceRules(pair: Pair, quantity: real, price: real) {
    && (pair.tickSize > 0.0 ==> !OffGrid(price, pair.tickSize))
    && price * quantity >= pair.minNotional
  }

  // ----- what the rules mean -----

  function Steps(k: int, step: real): real {
    Mul(k as real, step)
  }

  lemma StepsGrow(j: int, k: int, step: real)
    requires step > 0.0
    ensures j <= k ==> Steps(j, step) <= Steps(k, step)
    ensures Steps(k, step) > 0.0 <==> k >= 1
  {
    hide Mul;
    MulSwap(j as real, step);
    MulSwap(k as real, step);
    MulSign(step, k as real);
    MulZero(step);
    if j <= k { MulMono(step, j as real, k as real); }
  }

  lemma StepsWhole(k: int, step: real)
    requires step > 0.0
    ensures Steps(k, step) / step == k as real && IsWhole(Steps(k, step) / step)
  {
  }

  /** Within 1e-8 of `k` steps. */
  predicate Near(x: real, k: int, step: real) {
    -0.00000001 <= x - k as real * step <= 0.00000001
  }

  lemma RemainderBounds(x: real, step: real) returns (n: int)
    requires step > 0.0
    ensures Remainder(x, step) == x - Steps(n, step) && 0.0 <= Remainder(x, step) < step
  {
    n := (x / step).Floor;
    FloorBelow(x, step, n);
  }

  lemma FloorBelow(x: real, step: real, n: int)
    requires step > 0.0 && n == (x / step).Floor
    ensures step * n as real <= x < step * n as real + step
  {
    DivBounds(x, step, n as real);
    DivBounds(x, step, n as real + 1.0);
  }

  /** An amount is on the grid exactly when it is within the drift allowance of some multiple of the step. */
  lemma OnGridMeans(x: real, step: real)
    requires step > 0.0
    ensures !OffGrid(x, step) <==> exists k :: Near(x, k, step)
  {
    hide Remainder, Steps;
    var n := RemainderBounds(x, step);
    NextStep(n, step);
    forall k: int ensures Steps(k, step) == k as real * step { StepsAre(k, step); }
    if !OffGrid(x, step) {
      assert Near(x, n, step) || Near(x, n + 1, step);
    }
    forall k | Near(x, k, step) ensures !OffGrid(x, step) {
      if k <= n { StepsGrow(k, n, step); } else { StepsGrow(n + 1, k, step); }
    }
  }

  lemma StepsAre(k: int, step: real)
    ensures Steps(k, step) == k as real * step
  {
  }

  lemma NextStep(n: int, step: real)
    ensures Steps(n + 1, step) == Steps(n, step) + step
  {
  }

  /** What the pair rules accept: a size between the limits and within the drift allowance of a whole number of
      steps, a price within it of a whole number of ticks, and at least the minimum worth. */
  lemma RulesMean(pair: Pair, quantity: real, price: real)
    ensures QuantityRules(pair, quantity)
       <==> && pair.minQty <= quantity <= pair.maxQty
            && (pair.stepSize > 0.0 ==> exists k :: Near(quantity, k, pair.stepSize))
    ensures PriceRules(pair, quantity, price)
       <==> && (pair.tickSize > 0.0 ==> exists k :: Near(price, k, pair.tickSize))
            && price * quantity >= pair.minNotional
  {
    hide OffGrid, Near;
    if pair.stepSize > 0.0 {
      OnGridMeans(quantity, pair.stepSize);
      if IsWhole(quantity / pair.stepSize) { WholeOnGrid(quantity, pair.stepSize); }
    }
    if pair.tickSize > 0.0 { OnGridMeans(price, pair.tickSize); }
  }

  lemma WholeOnGrid(x: real, step: real)
    requires step > 0.0 && IsWhole(x / step)
    ensures Near(x, (x / step).Floor, step)
  {
  }
}
