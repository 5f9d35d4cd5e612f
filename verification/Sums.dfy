/** Products and finite sums of reals.  Proofs that only need a few laws of multiplication hide `Mul` and
    `Div` and call the laws below, which keeps nonlinear arithmetic out of them. */
module Sums {

  function Mul(x: real, y: real): real {
    x * y
  }

  function Div(x: real, y: real): real
    requires y != 0.0
  {
    x / y
  }

  lemma MulSum(x: real, y: real, z: real)
    ensures Mul(x, y + z) == Mul(x, y) + Mul(x, z)
    ensures Mul(y + z, x) == Mul(y, x) + Mul(z, x)
    ensures Mul(x, y - z) == Mul(x, y) - Mul(x, z)
    ensures Mul(y - z, x) == Mul(y, x) - Mul(z, x)
  {
  }

  lemma MulSwap(x: real, y: real)
    ensures Mul(x, y) == Mul(y, x)
  {
  }

  lemma MulZero(x: real)
    ensures Mul(x, 0.0) == 0.0 == Mul(0.0, x)
  {
  }

  lemma MulSign(x: real, y: real)
    ensures (x >= 0.0 && y >= 0.0) || (x <= 0.0 && y <= 0.0) ==> Mul(x, y) >= 0.0
    ensures (x > 0.0 && y > 0.0) || (x < 0.0 && y < 0.0) ==> Mul(x, y) > 0.0
    ensures (x > 0.0 && y < 0.0) || (x < 0.0 && y > 0.0) ==> Mul(x, y) < 0.0
  {
  }

  lemma MulMono(x: real, y: real, z: real)
    requires x >= 0.0 && y <= z
    ensures Mul(x, y) <= Mul(x, z) && Mul(y, x) <= Mul(z, x)
  {
  }

  lemma DivUndone(x: real, y: real)
    requires y > 0.0
    ensures Mul(y, Div(x, y)) == x
    ensures x > 0.0 ==> Div(x, y) > 0.0
  {
  }

  lemma DivBounds(x: real, y: real, z: real)
    requires y > 0.0
    ensures Div(x, y) < z <==> x < Mul(y, z)
  {
    hide Mul, Div;
    DivUndone(x, y);
    MulSum(y, z, Div(x, y));
    MulSign(y, z - Div(x, y));
    MulZero(y);
  }

  function Total(xs: seq<real>): real {
    if xs == [] then 0.0 else xs[0] + Total(xs[1..])
  }

  lemma {:induction false} TotalAppend(a: seq<real>, b: seq<real>)
    ensures Total(a + b) == Total(a) + Total(b)
  {
    if a == [] {
      assert a + b == b;
    } else {
      assert (a + b)[1..] == a[1..] + b;
      TotalAppend(a[1..], b);
    }
  }

  lemma TotalOne(x: real)
    ensures Total([x]) == x
  {
    assert Total([x]) == x + Total([x][1..]);
  }

  lemma {:induction false} TotalUpdate(xs: seq<real>, i: nat, x: real)
    requires i < |xs|
    ensures Total(xs[i := x]) == Total(xs) - xs[i] + x
  {
    if i == 0 {
      assert xs[i := x][1..] == xs[1..];
    } else {
      assert xs[i := x][1..] == xs[1..][i - 1 := x];
      TotalUpdate(xs[1..], i - 1, x);
    }
  }

  lemma {:induction false} TotalBounds(xs: seq<real>)
    requires forall i :: 0 <= i < |xs| ==> xs[i] >= 0.0
    ensures Total(xs) >= 0.0
    ensures forall i :: 0 <= i < |xs| ==> xs[i] <= Total(xs)
  {
    if xs == [] {
    } else {
      TotalBounds(xs[1..]);
      forall i | 0 <= i < |xs| ensures xs[i] <= Total(xs) {
        if i > 0 { assert xs[i] == xs[1..][i - 1]; }
      }
    }
  }

  lemma {:induction false} TotalZero(xs: seq<real>)
    requires forall i :: 0 <= i < |xs| ==> xs[i] == 0.0
    ensures Total(xs) == 0.0
  {
    if xs == [] {
    } else {
      TotalZero(xs[1..]);
    }
  }

  /** The sum of a map's values. */
  ghost function MapTotal<K(!new)>(m: map<K, real>): real {
    if m == map[] then 0.0 else
      var k :| k in m;
      m[k] + MapTotal(m - {k})
  }

  lemma {:induction false} MapTotalSplit<K(!new)>(m: map<K, real>, k: K)
    requires k in m
    ensures MapTotal(m) == m[k] + MapTotal(m - {k})
    decreases |m|
  {
    var j :| j in m && MapTotal(m) == m[j] + MapTotal(m - {j});
    if j != k {
      MapTotalSplit(m - {j}, k);
      MapTotalSplit(m - {k}, j);
      assert m - {j} - {k} == m - {k} - {j};
    }
  }

  lemma MapTotalUpdate<K(!new)>(m: map<K, real>, k: K, x: real)
    ensures MapTotal(m[k := x]) == MapTotal(m) + x - (if k in m then m[k] else 0.0)
  {
    MapTotalSplit(m[k := x], k);
    if k in m {
      assert m[k := x] - {k} == m - {k};
      MapTotalSplit(m, k);
    } else {
      assert m[k := x] - {k} == m;
    }
  }
}
