/** Small numeric functions that several modules share. */
module Arithmetic {

  function Min(a: int, b: int): int {
    if a <= b then a else b
  }

  function Max(a: int, b: int): int {
    if a >= b then a else b
  }

  function Power(x: real, n: nat): real {
    if n == 0 then 1.0 else x * Power(x, n - 1)
  }

  lemma FractionOf(x: real, y: real)
    requires 0.0 <= x <= 1.0 && 0.0 <= y
    ensures 0.0 <= x * y <= y
  {
    assert (1.0 - x) * y >= 0.0;
  }

  lemma {:induction false} PowerIsFraction(x: real, n: nat)
    requires 0.0 <= x <= 1.0
    ensures 0.0 <= Power(x, n) <= 1.0
  {
    if n > 0 {
      PowerIsFraction(x, n - 1);
      FractionOf(x, Power(x, n - 1));
    }
  }

  lemma Quotients(x: real, y: real, top: real)
    requires top > 0.0
    ensures x <= y <==> x / top <= y / top
    ensures top / top == 1.0 && 0.0 / top == 0.0
  {
    assert x / top * top == x && y / top * top == y;
    if x / top <= y / top { assert (y / top - x / top) * top >= 0.0; }
    if x / top > y / top { assert (x / top - y / top) * top > 0.0; }
  }

  lemma PowerIsPositive(x: real, n: nat)
    requires 0.0 < x
    ensures 0.0 < Power(x, n)
  {
    if n > 0 {
      PowerIsPositive(x, n - 1);
    }
  }

  /** The longer power of a fraction is the smaller. */
  lemma {:induction false} PowerFalls(x: real, m: nat, n: nat)
    requires 0.0 <= x <= 1.0 && m <= n
    ensures Power(x, n) <= Power(x, m)
    decreases n - m
  {
    if m < n {
      PowerIsFraction(x, n - 1);
      FractionOf(x, Power(x, n - 1));
      PowerFalls(x, m, n - 1);
    }
  }

  lemma {:induction false} PowerIsNotNegative(x: real, n: nat)
    requires x >= 0.0
    ensures Power(x, n) >= 0.0
  {
    if n > 0 {
      PowerIsNotNegative(x, n - 1);
      assert x * Power(x, n - 1) >= 0.0;
    }
  }

  lemma {:induction false} PowerAdds(x: real, m: nat, n: nat)
    ensures Power(x, m + n) == Power(x, m) * Power(x, n)
    decreases m
  {
    if m > 0 {
      PowerAdds(x, m - 1, n);
      assert m + n - 1 == m - 1 + n;
      Associates(x, Power(x, m - 1), Power(x, n));
    }
  }

  lemma Associates(a: real, b: real, c: real)
    ensures a * (b * c) == (a * b) * c && a * (b * c) == (a * c) * b
  {
  }

  lemma TimesKeepsOrder(a: real, b: real, p: real)
    requires a <= b && p >= 0.0
    ensures a * p <= b * p && (a * p < b * p <==> a < b && p > 0.0)
  {
    assert b * p - a * p == (b - a) * p;
    if a < b && p > 0.0 { assert (b - a) * p > 0.0; } else { assert (b - a) * p == 0.0; }
  }

  /** Fractions compare as their cross products. */
  lemma FractionsCompare(u: real, m: real, p: real, v: real, n: real)
    requires m > 0.0 && n > 0.0
    ensures u / m * p > v / n <==> u * p * n > v * m
  {
    var x, y := u / m * p, v / n;
    assert u / m * m == u && y * n == v;
    Associates(u / m, p, m);
    assert x * m == u * p;
    assert (x - y) * (m * n) == (u * p) * n - v * m by {
      Associates(x, m, n);
      Associates(y, n, m);
      Associates(y, m, n);
    }
    assert m * n > 0.0;
    if x > y { assert (x - y) * (m * n) > 0.0; }
    if x <= y { assert (y - x) * (m * n) >= 0.0; }
  }
}
