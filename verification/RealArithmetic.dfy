/** Products and powers of reals under names, which keep nonlinear reasoning where it is asked for. */
module RealArithmetic {

  function Times(x: real, y: real): real {
    x * y
  }

  function Square(x: real): real {
    Times(x, x)
  }

  function Pow(q: real, n: nat): real {
    if n == 0 then 1.0 else Times(q, Pow(q, n - 1))
  }

  function Over(x: real, y: real): real
    requires y != 0.0
  {
    x / y
  }

  lemma Shuffle(a: real, b: real, c: real)
    ensures Times(a, Times(b, c)) == Times(Times(a, b), c) == Times(b, Times(a, c))
  {
  }

  lemma Distributes(a: real, b: real, c: real)
    ensures Times(a, b + c) == Times(a, b) + Times(a, c)
    ensures Times(b + c, a) == Times(b, a) + Times(c, a)
  {
  }

  lemma Scale(c: real, x: real, y: real)
    requires 0.0 <= c && x <= y
    ensures Times(c, x) <= Times(c, y)
    ensures Times(x, c) <= Times(y, c)
  {
    assert c * y - c * x == c * (y - x);
    assert 0.0 <= c * (y - x);
  }

  lemma Positive(x: real, y: real)
    requires x > 0.0 && y > 0.0
    ensures Times(x, y) > 0.0
  {
  }

  lemma SquareDifference(x: real, y: real)
    ensures Square(x) - Square(y) == Times(x - y, x + y)
  {
  }

  lemma SquareOfHalf(x: real)
    ensures Square(x / 2.0) == Square(x) / 4.0
  {
  }

  lemma OverTimes(x: real, y: real)
    requires y != 0.0
    ensures Times(Over(x, y), y) == x
  {
  }

  lemma StrictlyGrows(x: real, x': real, y: real)
    requires x < x' && y > 0.0
    ensures Times(x, y) < Times(x', y)
  {
    assert (x' - x) * y > 0.0;
    assert x' * y - x * y == (x' - x) * y;
  }

  lemma Cancels(x: real, z: real, y: real)
    requires y > 0.0 && Times(x, y) <= Times(z, y)
    ensures x <= z
  {
    if x > z { StrictlyGrows(z, x, y); }
  }

  lemma CancelsStrictly(x: real, z: real, y: real)
    requires y > 0.0 && Times(x, y) < Times(z, y)
    ensures x < z
  {
    if x >= z { Scale(y, z, x); }
  }

  lemma {:induction false} PowAdds(q: real, m: nat, n: nat)
    ensures Pow(q, m + n) == Times(Pow(q, m), Pow(q, n))
  {
    if m > 0 {
      PowAdds(q, m - 1, n);
      Shuffle(q, Pow(q, m - 1), Pow(q, n));
    }
  }

  lemma {:induction false} PowInRange(q: real, n: nat)
    requires 0.0 < q <= 1.0
    ensures 0.0 < Pow(q, n) <= 1.0
  {
    if n > 0 {
      PowInRange(q, n - 1);
      var p := Pow(q, n - 1);
      Positive(q, p);
      Scale(p, q, 1.0);
    }
  }

  lemma {:induction false} PowFalls(q: real, m: nat, n: nat)
    requires 0.0 < q < 1.0 && m < n
    ensures Pow(q, n) < Pow(q, m)
  {
    PowInRange(q, m);
    if n == m + 1 {
      StrictlyGrows(q, 1.0, Pow(q, m));
    } else {
      PowFalls(q, m, n - 1);
      PowInRange(q, n - 1);
      StrictlyGrows(q, 1.0, Pow(q, n - 1));
    }
  }

  /** Bernoulli: where `q (1 + d) = 1`, the powers of `q` fall at least as `1 / (1 + n d)`. */
  lemma {:induction false} PowBelow(q: real, d: real, n: nat)
    requires 0.0 < q < 1.0 && d >= 0.0 && Times(q, 1.0 + d) == 1.0
    ensures Times(Pow(q, n), 1.0 + Times(n as real, d)) <= 1.0
  {
    if n > 0 {
      PowBelow(q, d, n - 1);
      var p, before, after := Pow(q, n - 1), 1.0 + Times((n - 1) as real, d), 1.0 + Times(n as real, d);
      PowInRange(q, n - 1);
      OneStepBelow(q, d, (n - 1) as real);
      Shuffle(p, q, after);
      Scale(p, Times(q, after), before);
    }
  }

  lemma OneStepBelow(q: real, d: real, n: real)
    requires 0.0 < q < 1.0 && d >= 0.0 && n >= 0.0 && Times(q, 1.0 + d) == 1.0
    ensures Times(q, 1.0 + Times(n + 1.0, d)) <= 1.0 + Times(n, d)
  {
    var nd := n * d;
    assert Times(n + 1.0, d) == nd + d;
    assert q * (1.0 + (nd + d)) == q * (1.0 + d) + q * nd;
    Scale(nd, q, 1.0) by { assert nd >= 0.0; }
  }

  /** Powers below one half exist however slow the decay is. */
  lemma PowVanishes(q: real) returns (n: nat)
    requires 0.0 < q < 1.0
    ensures n > 0 && Pow(q, n) + Pow(q, n) < 1.0
  {
    var d := Over(1.0, q) - 1.0;
    OverTimes(1.0, q);
    CancelsStrictly(1.0, Over(1.0, q), q);
    assert Times(q, 1.0 + d) == 1.0;
    n := Over(1.0, d).Floor + 1;
    OverTimes(1.0, d);
    StrictlyGrows(Over(1.0, d), n as real, d);
    PowBelow(q, d, n);
    PowInRange(q, n);
    StrictlyGrows(2.0, 1.0 + Times(n as real, d), Pow(q, n));
  }
}
