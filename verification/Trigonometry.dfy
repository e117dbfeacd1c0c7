/** The laws of sine, cosine and polar coordinates that the collision bound needs, as a contract on
    functions given from outside; no angle is ever computed here. */
module Trigonometry {
  import opened Roots

  /** hypot and arctan2 of (x, z) as one pair. */
  datatype Polar = Polar(h: real, phi: real)

  datatype Trig = Trig(cos: real -> real, sin: real -> real, pi: real, polar: (real, real) -> Polar)

  predicate AdditionLaw(g: Trig, a: real, b: real) {
    && g.cos(a + b) == g.cos(a) * g.cos(b) - g.sin(a) * g.sin(b)
    && g.sin(a + b) == g.sin(a) * g.cos(b) + g.cos(a) * g.sin(b)
  }

  predicate ParityLaw(g: Trig, a: real) { g.cos(-a) == g.cos(a) && g.sin(-a) == -g.sin(a) }

  predicate UnitLaw(g: Trig, a: real) { g.cos(a) * g.cos(a) + g.sin(a) * g.sin(a) == 1.0 && -1.0 <= g.cos(a) <= 1.0 }

  predicate DecreasingLaw(g: Trig, a: real, b: real) { 0.0 <= a <= b <= g.pi ==> g.cos(b) <= g.cos(a) }

  predicate PolarLaw(g: Trig, x: real, z: real) {
    var p := g.polar(x, z);
    p.h >= 0.0 && x == p.h * g.cos(p.phi) && z == p.h * g.sin(p.phi)
  }

  ghost predicate IsTrig(g: Trig) {
    && g.pi > 0.0 && g.cos(0.0) == 1.0 && g.sin(0.0) == 0.0 && g.cos(g.pi) == -1.0
    && (forall a, b :: AdditionLaw(g, a, b))
    && (forall a :: ParityLaw(g, a))
    && (forall a :: UnitLaw(g, a))
    && (forall a, b :: DecreasingLaw(g, a, b))
    && (forall x, z :: PolarLaw(g, x, z))
  }

  lemma FullTurn(g: Trig)
    requires IsTrig(g)
    ensures g.sin(g.pi) == 0.0 && g.cos(2.0 * g.pi) == 1.0 && g.sin(2.0 * g.pi) == 0.0
  {
    assert UnitLaw(g, g.pi);
    var s := g.sin(g.pi);
    assert s * s == 0.0;
    NoSquare(s);
    assert AdditionLaw(g, g.pi, g.pi);
    assert g.pi + g.pi == 2.0 * g.pi;
  }

  lemma NoSquare(s: real)
    requires s * s == 0.0
    ensures s == 0.0
  {
    if s > 0.0 {
      var p := Product(s, s);
    } else if s < 0.0 {
      var p := Product(-s, -s);
    }
  }

  lemma OneTurn(g: Trig, a: real)
    requires IsTrig(g)
    ensures g.cos(a + 2.0 * g.pi) == g.cos(a)
  {
    FullTurn(g);
    assert AdditionLaw(g, a, 2.0 * g.pi);
  }

  /** Angles a whole number of turns apart have the same cosine. */
  lemma {:induction false} Turns(g: Trig, a: real, b: real, n: int, full: real)
    requires IsTrig(g) && full == 2.0 * g.pi && b == a + full * n as real
    ensures g.cos(b) == g.cos(a)
    decreases if n < 0 then -n else n
  {
    if n > 0 {
      NextAngle(full, n - 1, n);
      Turns(g, a + full, b, n - 1, full);
      OneTurn(g, a);
    } else if n < 0 {
      NextAngle(full, n, n + 1);
      Turns(g, a - full, b, n + 1, full);
      OneTurn(g, a - full);
    } else {
      NoAngle(full, n);
    }
  }

  lemma NextAngle(full: real, n: int, m: int)
    requires m == n + 1
    ensures full * m as real == full * n as real + full
  {
    var x, y := n as real, m as real;
    assert y == x + 1.0;
    assert full * y == full * x + full;
  }

  lemma NoAngle(full: real, n: int)
    requires n == 0
    ensures full * n as real == 0.0
  {
    var x := n as real;
    assert x == 0.0;
    assert full * x == 0.0;
  }

  lemma CosOfAbs(g: Trig, a: real)
    requires IsTrig(g)
    ensures g.cos(Abs(a)) == g.cos(a)
  {
    assert ParityLaw(g, a);
  }

  /** Within half a turn of the maximum the cosine is smallest at the ends of any interval. */
  lemma SmallestAtEnds(g: Trig, lower: real, upper: real, t: real)
    requires IsTrig(g) && -g.pi <= lower <= t <= upper <= g.pi
    ensures g.cos(t) >= g.cos(lower) || g.cos(t) >= g.cos(upper)
  {
    CosOfAbs(g, t);
    CosOfAbs(g, lower);
    CosOfAbs(g, upper);
    if Abs(t) <= Abs(lower) {
      assert DecreasingLaw(g, Abs(t), Abs(lower));
    } else {
      assert DecreasingLaw(g, Abs(t), Abs(upper));
    }
  }

  lemma DifferenceLaw(g: Trig, a: real, b: real)
    requires IsTrig(g)
    ensures g.cos(a - b) == g.cos(a) * g.cos(b) + g.sin(a) * g.sin(b)
  {
    assert AdditionLaw(g, a, -b) && ParityLaw(g, b);
    assert a + -b == a - b;
  }
}
