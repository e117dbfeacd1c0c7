/** Exact planar vectors. */
module Planar {
  import opened Roots

  datatype Vec = Vec(x: real, y: real)

  function Add(a: Vec, b: Vec): Vec { Vec(a.x + b.x, a.y + b.y) }

  function Sub(a: Vec, b: Vec): Vec { Vec(a.x - b.x, a.y - b.y) }

  function Scale(k: real, a: Vec): Vec { Vec(k * a.x, k * a.y) }

  function Dot(a: Vec, b: Vec): real { a.x * b.x + a.y * b.y }

  function Cross(a: Vec, b: Vec): real { a.x * b.y - a.y * b.x }

  /** The side of the line from a to b on which v lies: positive to the left. */
  function Side(a: Vec, b: Vec, v: Vec): real { Cross(Sub(b, a), Sub(v, a)) }

  const ZERO := Vec(0.0, 0.0)

  /** a e + b f. */
  function Sum2(a: real, e: Vec, b: real, f: Vec): Vec { Add(Scale(a, e), Scale(b, f)) }

  lemma Sum2Linear(e: Vec, f: Vec, a: real, b: real, s: real, c: real, d: real)
    ensures Sum2(a + s * c, e, b + s * d, f) == Add(Sum2(a, e, b, f), Scale(s, Sum2(c, e, d, f)))
  {
    Distribute(e.x, f.x, a, b, s, c, d);
    Distribute(e.y, f.y, a, b, s, c, d);
  }

  /** The same for weights given by name. */
  lemma Sum2Combined(e: Vec, f: Vec, m: real, n: real, a: real, b: real, s: real, c: real, d: real)
    requires m == a + s * c && n == b + s * d
    ensures Sum2(m, e, n, f) == Add(Sum2(a, e, b, f), Scale(s, Sum2(c, e, d, f)))
  {
    Sum2Linear(e, f, a, b, s, c, d);
  }

  lemma Distribute(e: real, f: real, a: real, b: real, s: real, c: real, d: real)
    ensures (a + s * c) * e + (b + s * d) * f == (a * e + b * f) + s * (c * e + d * f)
  {
  }

  lemma Factor(e: real, f: real, s: real, a: real, b: real)
    ensures (s * a) * e + (s * b) * f == s * (a * e + b * f)
  {
  }

  lemma Sum2Scale(e: Vec, f: Vec, s: real, a: real, b: real)
    ensures Sum2(s * a, e, s * b, f) == Scale(s, Sum2(a, e, b, f))
  {
    Factor(e.x, f.x, s, a, b);
    Factor(e.y, f.y, s, a, b);
  }

  /** A combination that reaches a multiple of d, taken m times. */
  lemma Sum2Reaches(e: Vec, f: Vec, m: real, a: real, b: real, s: real, d: Vec)
    requires Sum2(a, e, b, f) == Scale(s, d)
    ensures Sum2(m * a, e, m * b, f) == Scale(m * s, d)
  {
    Sum2Scale(e, f, m, a, b);
    ScaleTwice(m, s, d);
  }

  lemma Sum2Unit(e: Vec, f: Vec, a: real, b: real, s: real, d: Vec) returns (a': real, b': real)
    requires s > 0.0 && Sum2(a, e, b, f) == Scale(s, d)
    ensures Sum2(a', e, b', f) == d
  {
    var r := 1.0 / s;
    assert r * s == 1.0;
    Sum2Reaches(e, f, r, a, b, s, d);
    a', b' := r * a, r * b;
    assert Scale(1.0, d) == d;
  }

  lemma ScaleTwice(r: real, s: real, v: Vec)
    ensures Scale(r, Scale(s, v)) == Scale(r * s, v)
  {
    assert r * (s * v.x) == (r * s) * v.x && r * (s * v.y) == (r * s) * v.y;
  }

  lemma CrossScale(p: Vec, s: real, f: Vec)
    ensures Cross(p, Scale(s, f)) == s * Cross(p, f)
  {
    assert p.x * (s * f.y) == s * (p.x * f.y) && p.y * (s * f.x) == s * (p.y * f.x);
  }

  lemma CrossAdd(p: Vec, f: Vec, g: Vec)
    ensures Cross(p, Add(f, g)) == Cross(p, f) + Cross(p, g)
  {
  }

  lemma NonzeroSquare(n: Vec)
    requires n != ZERO
    ensures Dot(n, n) > 0.0
  {
    var x := SquareSign(n.x);
    var y := SquareSign(n.y);
    assert n == Vec(n.x, n.y);
  }
}
