/** Order, products, squares and square roots of reals. */
module Roots {

  function Min(a: real, b: real): real { if a <= b then a else b }

  function Max(a: real, b: real): real { if a >= b then a else b }

  function Abs(a: real): real { if a >= 0.0 then a else -a }

  /** The square root as an input: any function that squares back on the nonnegative reals. */
  ghost predicate IsRoot(root: real -> real) {
    forall x {:trigger root(x)} :: x >= 0.0 ==> root(x) >= 0.0 && root(x) * root(x) == x
  }

  /** Scaling keeps order. */
  lemma Scaled(a: real, b: real, step: real)
    requires step > 0.0
    ensures a <= b <==> a * step <= b * step
    ensures a < b <==> a * step < b * step
  {
    var d := b - a;
    assert b * step == a * step + d * step;
    if d > 0.0 {
      assert d * step > 0.0;
    } else if d < 0.0 {
      assert (-d) * step > 0.0;
    }
  }

  lemma Larger(a: real, b: real)
    requires a > b >= 0.0
    ensures a * a > b * b
  {
    var d := a - b;
    assert a * a == b * b + d * (a + b);
    Scaled(0.0, d, a + b);
  }

  lemma SquaresOrdered(a: real, b: real)
    requires a >= 0.0 && b >= 0.0
    ensures a * a <= b * b <==> a <= b
  {
    if a > b { Larger(a, b); } else if a < b { Larger(b, a); }
  }

  lemma Product(a: real, b: real) returns (p: real)
    requires a > 0.0 && b > 0.0
    ensures p == a * b && p > 0.0
  {
    p := a * b;
  }

  /** The square as a value of its own, so that its sign is a linear fact. */
  lemma SquareSign(a: real) returns (s: real)
    ensures s == a * a && s >= 0.0 && (a != 0.0 ==> s > 0.0)
  {
    if a > 0.0 {
      s := Product(a, a);
    } else if a < 0.0 {
      s := Product(-a, -a);
    } else {
      s := 0.0;
    }
  }
}
