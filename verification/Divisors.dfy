/** Greatest common divisors and the divisibility they decide. */
module Divisors {

  predicate Divides(d: int, n: int)
    requires d > 0
  {
    n % d == 0
  }

  function Gcd(a: nat, b: nat): (g: nat)
    requires a > 0 || b > 0
    ensures g > 0
    decreases b
  {
    if b == 0 then a else Gcd(b, a % b)
  }

  lemma MultipleDivides(d: int, k: int)
    requires d > 0
    ensures Divides(d, d * k)
  {
    var n, q, r := d * k, d * k / d, d * k % d;
    assert n == d * q + r;
    assert d * (k - q) == r;
    if k > q { Monotone(d, 1, k - q); }
    if k < q { Monotone(d, k - q, -1); }
  }

  lemma Monotone(d: int, a: int, b: int)
    requires d > 0 && a <= b
    ensures d * a <= d * b
  {
  }

  lemma Quotient(d: int, n: int) returns (k: int)
    requires d > 0 && Divides(d, n)
    ensures n == d * k && k == n / d
  {
    k := n / d;
  }

  lemma DividesSum(d: int, m: int, n: int, x: int, y: int)
    requires d > 0 && Divides(d, m) && Divides(d, n)
    ensures Divides(d, m * x + n * y)
  {
    var a := Quotient(d, m);
    var b := Quotient(d, n);
    calc {
      m * x + n * y;
      (d * a) * x + (d * b) * y;
      d * (a * x) + d * (b * y);
      d * (a * x + b * y);
    }
    MultipleDivides(d, a * x + b * y);
  }

  /** The greatest common divisor divides both numbers and is a combination of them. */
  lemma {:induction false} GcdSpec(a: nat, b: nat) returns (x: int, y: int)
    requires a > 0 || b > 0
    ensures Divides(Gcd(a, b), a) && Divides(Gcd(a, b), b)
    ensures a * x + b * y == Gcd(a, b)
    decreases b
  {
    if b == 0 {
      x, y := 1, 0;
      MultipleDivides(a, 1);
      MultipleDivides(a, 0);
    } else {
      var q, r := a / b, a % b;
      var u, v := GcdSpec(b, r);
      var g := Gcd(b, r);
      assert a == b * q + r;
      DividesSum(g, b, r, q, 1);
      assert b * q + r * 1 == a;
      x, y := v, u - q * v;
      Combine(a, b, q, r, u, v);
    }
  }

  lemma Combine(a: int, b: int, q: int, r: int, u: int, v: int)
    requires a == b * q + r
    ensures a * v + b * (u - q * v) == b * u + r * v
  {
    calc {
      a * v + b * (u - q * v);
      (b * q) * v + r * v + b * u - b * (q * v);
      { assert (b * q) * v == b * (q * v); }
      b * u + r * v;
    }
  }

  /** If d and n have no common factor, d divides n * k exactly when it divides k. */
  lemma CoprimeDivides(d: nat, n: nat, k: int, x: int, y: int)
    requires d > 0 && d * x + n * y == 1
    ensures Divides(d, k * n) <==> Divides(d, k)
  {
    hide Divides;
    if Divides(d, k * n) {
      MultipleDivides(d, 1);
      DividesSum(d, d, k * n, k * x, y);
      Regroup(d, n, k, x, y);
    }
    if Divides(d, k) {
      var q := Quotient(d, k);
      assert k * n == d * (q * n);
      MultipleDivides(d, q * n);
    }
  }

  lemma Regroup(d: int, n: int, k: int, x: int, y: int)
    requires d * x + n * y == 1
    ensures d * (k * x) + (k * n) * y == k
  {
    assert d * (k * x) == k * (d * x);
    assert (k * n) * y == k * (n * y);
    assert k * (d * x) + k * (n * y) == k * (d * x + n * y);
  }

  /** a divides k * b exactly when a / gcd(a, b) divides k. */
  lemma DividesProduct(a: nat, b: nat, k: int)
    requires a > 0
    ensures a / Gcd(a, b) > 0
    ensures Divides(a, k * b) <==> Divides(a / Gcd(a, b), k)
  {
    hide Divides;
    var g := Gcd(a, b);
    var x, y := GcdSpec(a, b);
    var a1 := Quotient(g, a);
    var b1 := Quotient(g, b);
    DividesReduced(g, a1, b1, k, x, y);
  }

  lemma DividesReduced(g: nat, a1: int, b1: int, k: int, x: int, y: int)
    requires g > 0 && g * a1 > 0 && g * b1 >= 0 && (g * a1) * x + (g * b1) * y == g
    ensures a1 > 0 && (Divides(g * a1, k * (g * b1)) <==> Divides(a1, k))
  {
    hide Divides;
    if a1 <= 0 { Monotone(g, a1, 0); }
    if b1 < 0 { Monotone(g, b1, -1); }
    CancelCombination(g, a1, b1, x, y);
    CoprimeDivides(a1, b1, k, x, y);
    CancelFactor(g, a1, k * b1);
    assert k * (g * b1) == g * (k * b1);
  }

  lemma CancelCombination(g: int, a: int, b: int, x: int, y: int)
    requires g > 0 && (g * a) * x + (g * b) * y == g
    ensures a * x + b * y == 1
  {
    var s := a * x + b * y;
    assert g * s == (g * a) * x + (g * b) * y;
    if s > 1 { Monotone(g, 2, s); }
    if s < 1 { Monotone(g, s, 0); }
  }

  lemma CancelFactor(g: int, d: int, n: int)
    requires g > 0 && d > 0
    ensures g * d > 0
    ensures Divides(g * d, g * n) <==> Divides(d, n)
  {
    Monotone(g, 1, d);
    if Divides(g * d, g * n) {
      var q := Quotient(g * d, g * n);
      assert g * n == g * (d * q);
      if n > d * q { Monotone(g, d * q + 1, n); }
      if n < d * q { Monotone(g, n + 1, d * q); }
      MultipleDivides(d, q);
    }
    if Divides(d, n) {
      var q := Quotient(d, n);
      assert g * n == (g * d) * q;
      MultipleDivides(g * d, q);
    }
  }
}
