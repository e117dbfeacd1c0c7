/** Segments, triangles and their sides. */
module Segments {
  import opened Roots
  import opened Planar
  import opened EarClipping

  function Along(x: real, y: real, t: real): real { x + t * (y - x) }

  function At(a: Vec, b: Vec, t: real): Vec { Vec(Along(a.x, b.x, t), Along(a.y, b.y, t)) }

  predicate Unit(t: real) { 0.0 <= t <= 1.0 }

  /** The closed segments have no point in common. */
  ghost predicate Apart(a: Vec, b: Vec, c: Vec, d: Vec) {
    forall t, u :: Unit(t) && Unit(u) ==> At(a, b, t) != At(c, d, u)
  }

  lemma ApartIsSymmetric(a: Vec, b: Vec, c: Vec, d: Vec)
    requires Apart(a, b, c, d)
    ensures Apart(c, d, a, b)
  {
  }

  /** The weighted mean of z and r. */
  function Mix(z: real, r: real, u: real): real { (1.0 - u) * z + u * r }

  lemma Mixed(x: real, y: real, t: real)
    ensures x + t * (y - x) == Mix(x, y, t)
  {
  }

  lemma SideAffine(a: Vec, b: Vec, p: Vec, q: Vec, t: real)
    ensures Side(a, b, At(p, q, t)) == Mix(Side(a, b, p), Side(a, b, q), t)
  {
    Bilinear(b.x - a.x, b.y - a.y, p.x - a.x, p.y - a.y, q.x - p.x, q.y - p.y, t);
    var z := At(p, q, t);
    assert z.x - a.x == (p.x - a.x) + t * (q.x - p.x) && z.y - a.y == (p.y - a.y) + t * (q.y - p.y);
    Mixed(Side(a, b, p), Side(a, b, q), t);
  }

  lemma Bilinear(e: real, f: real, x: real, y: real, g: real, h: real, t: real)
    ensures e * (y + t * h) - f * (x + t * g) == (e * y - f * x) + t * (e * h - f * g)
  {
  }

  lemma SidesOfVertices(a: Vec, b: Vec, c: Vec)
    ensures Side(a, b, a) == 0.0 && Side(a, b, b) == 0.0 && Side(a, b, c) == Turn([a, b, c])
  {
  }

  /** The triangle's vertices as weights. */
  lemma Weights(a: Vec, b: Vec, c: Vec, z: Vec, w: real, first: real, third: real)
    requires w == Turn([a, b, c]) && first == Side(a, b, z) && third == Side(c, a, z)
    ensures w * (z.x - a.x) == third * (b.x - a.x) + first * (c.x - a.x)
    ensures w * (z.y - a.y) == third * (b.y - a.y) + first * (c.y - a.y)
  {
    Cramer(b.x - a.x, b.y - a.y, c.x - a.x, c.y - a.y, z.x - a.x, z.y - a.y, w, first, third);
  }

  lemma Cramer(ex: real, ey: real, gx: real, gy: real, wx: real, wy: real, w: real, first: real, third: real)
    requires w == ex * gy - ey * gx && first == ex * wy - ey * wx && third == wx * gy - wy * gx
    ensures w * wx == third * ex + first * gx && w * wy == third * ey + first * gy
  {
  }

  lemma SidesAddUp(a: Vec, b: Vec, c: Vec, z: Vec)
    ensures Side(a, b, z) + Side(b, c, z) + Side(c, a, z) == Turn([a, b, c])
  {
  }

  /** A point of the triangle on the line of its first edge is on that edge. */
  lemma OnFirstEdge(a: Vec, b: Vec, c: Vec, z: Vec) returns (t: real)
    requires Turn([a, b, c]) > 0.0 && InTriangle([a, b, c], z) && Side(a, b, z) == 0.0
    ensures Unit(t) && z == At(a, b, t)
  {
    var w, third := Turn([a, b, c]), Side(c, a, z);
    t := third / w;
    assert t * w == third;
    Weights(a, b, c, z, w, 0.0, third);
    SidesAddUp(a, b, c, z);
    Quotient(t, w, third);
    Multiple(w, t, z.x - a.x, b.x - a.x, third);
    Multiple(w, t, z.y - a.y, b.y - a.y, third);
    assert z == Vec(z.x, z.y);
  }

  lemma Quotient(t: real, w: real, s: real)
    requires w > 0.0 && t * w == s && 0.0 <= s <= w
    ensures Unit(t)
  {
    Scaled(0.0, t, w);
    Scaled(t, 1.0, w);
  }

  lemma Multiple(w: real, t: real, z: real, e: real, s: real)
    requires w > 0.0 && t * w == s && w * z == s * e
    ensures z == t * e
  {
    assert w * (z - t * e) == w * z - (t * w) * e;
    assert w * (z - t * e) == 0.0;
    NoFactor(w, z - t * e);
  }

  lemma NoFactor(w: real, d: real)
    requires w > 0.0 && w * d == 0.0
    ensures d == 0.0
  {
    if d > 0.0 { var p := Product(w, d); } else if d < 0.0 { var p := Product(w, -d); }
  }

  // ----- leaving the triangle

  /** Where a decreasing quantity runs out on the way from z to r. */
  lemma RunsOut(z: real, r: real) returns (s: real)
    requires z >= 0.0 && r < 0.0
    ensures Unit(s) && Mix(z, r, s) == 0.0
    ensures forall u :: 0.0 <= u <= s ==> Mix(z, r, u) >= 0.0
  {
    var d := z - r;
    s := z / d;
    assert s * d == z;
    Quotient(s, d, z);
    forall u | 0.0 <= u <= s ensures Mix(z, r, u) >= 0.0 {
      Scaled(u, s, d);
      assert (1.0 - u) * z + u * r == z - u * d;
    }
    assert (1.0 - s) * z + s * r == z - s * d;
  }

  lemma StaysUp(z: real, r: real, u: real)
    requires z >= 0.0 && r >= 0.0 && Unit(u)
    ensures Mix(z, r, u) >= 0.0
  {
    Nonnegative(1.0 - u, z);
    Nonnegative(u, r);
  }

  lemma Nonnegative(x: real, y: real)
    requires x >= 0.0 && y >= 0.0
    ensures x * y >= 0.0
  {
    if x > 0.0 && y > 0.0 { var p := Product(x, y); }
  }

  /** Both first sides, taken from z in the triangle to r outside. */
  lemma FirstZero(z1: real, z2: real, r1: real, r2: real) returns (s: real, first: bool)
    requires z1 >= 0.0 && z2 >= 0.0 && (r1 < 0.0 || r2 < 0.0)
    ensures Unit(s) && Mix(z1, r1, s) >= 0.0 && Mix(z2, r2, s) >= 0.0
    ensures first ==> r1 < 0.0 && Mix(z1, r1, s) == 0.0
    ensures !first ==> r2 < 0.0 && Mix(z2, r2, s) == 0.0
  {
    if r1 >= 0.0 {
      s := RunsOut(z2, r2);
      first := false;
      StaysUp(z1, r1, s);
    } else if r2 >= 0.0 {
      s := RunsOut(z1, r1);
      first := true;
      StaysUp(z2, r2, s);
    } else {
      var s1 := RunsOut(z1, r1);
      var s2 := RunsOut(z2, r2);
      first := s1 <= s2;
      s := if first then s1 else s2;
    }
  }

  /** On the way from z in the triangle to r outside, but not beyond the third edge, the first or the second edge is
      met: one that has r on its right. */
  lemma MeetsEdge(a: Vec, b: Vec, c: Vec, z: Vec, r: Vec) returns (s: real, first: bool, t: real)
    requires Turn([a, b, c]) > 0.0 && InTriangle([a, b, c], z) && !InTriangle([a, b, c], r) && Side(c, a, r) >= 0.0
    ensures Unit(s) && Unit(t)
    ensures first ==> Side(a, b, r) < 0.0 && At(z, r, s) == At(a, b, t)
    ensures !first ==> Side(b, c, r) < 0.0 && At(z, r, s) == At(b, c, t)
  {
    s, first := FirstZero(Side(a, b, z), Side(b, c, z), Side(a, b, r), Side(b, c, r));
    var y := At(z, r, s);
    SideAffine(a, b, z, r, s);
    SideAffine(b, c, z, r, s);
    SideAffine(c, a, z, r, s);
    StaysUp(Side(c, a, z), Side(c, a, r), s);
    TurnRotates(a, b, c);
    if first {
      t := OnFirstEdge(a, b, c, y);
    } else {
      t := OnFirstEdge(b, c, a, y);
    }
  }

  lemma TowardsEnd(p: Vec, q: Vec, t: real, s: real) returns (u: real)
    requires Unit(t) && Unit(s)
    ensures Unit(u) && At(At(p, q, t), q, s) == At(p, q, u)
  {
    var w := Between(s, 1.0 - t);
    u := t + w;
    Onward(p.x, q.x, t, s, w);
    Onward(p.y, q.y, t, s, w);
  }

  lemma Between(s: real, d: real) returns (w: real)
    requires Unit(s) && d >= 0.0
    ensures w == s * d && 0.0 <= w <= d
  {
    w := s * d;
    Nonnegative(s, d);
    Nonnegative(1.0 - s, d);
    assert (1.0 - s) * d == d - s * d;
  }

  lemma Onward(p: real, q: real, t: real, s: real, w: real)
    requires w == s * (1.0 - t)
    ensures Along(Along(p, q, t), q, s) == Along(p, q, t + w)
  {
    var d := q - p;
    assert q - (p + t * d) == (1.0 - t) * d;
    assert s * ((1.0 - t) * d) == w * d;
    assert (t + w) * d == t * d + w * d;
  }

  lemma TowardsStart(p: Vec, q: Vec, t: real, s: real) returns (u: real)
    requires Unit(t) && Unit(s)
    ensures Unit(u) && At(At(p, q, t), p, s) == At(p, q, u)
  {
    var w := Between(s, t);
    u := t - w;
    Back(p.x, q.x, t, s, w);
    Back(p.y, q.y, t, s, w);
  }

  lemma Back(p: real, q: real, t: real, s: real, w: real)
    requires w == s * t
    ensures Along(Along(p, q, t), p, s) == Along(p, q, t - w)
  {
    var d := q - p;
    assert s * -(t * d) == -(w * d);
    assert (t - w) * d == t * d - w * d;
  }

  // ----- signs and quotients

  lemma Positive(d: real, s: real, x: real)
    requires d > 0.0 && d * s == x >= 0.0
    ensures s >= 0.0
  {
    Scaled(0.0, s, d);
  }

  lemma OneIsUp(x: real, y: real, t: real)
    requires Unit(t) && Mix(x, y, t) >= 0.0
    ensures x >= 0.0 || y >= 0.0
  {
    Negative(x, y, t);
  }

  lemma Negative(x: real, y: real, t: real)
    ensures Unit(t) && x < 0.0 && y < 0.0 ==> Mix(x, y, t) < 0.0
  {
    if Unit(t) && x < 0.0 && y < 0.0 {
      Nonnegative(1.0 - t, -x);
      Nonnegative(t, -y);
      if t > 0.0 { var p := Product(t, -y); } else { assert t == 0.0; }
      assert Mix(x, y, t) == -((1.0 - t) * -x) - t * -y;
    }
  }

  lemma StillPositive(x: real, y: real, s: real)
    requires x > 0.0 && y >= 0.0 && 0.0 <= s < 1.0
    ensures Mix(x, y, s) > 0.0
  {
    var p := Product(1.0 - s, x);
    Nonnegative(s, y);
  }

  lemma QuotientTimes(part: real, rise: real, t: real)
    requires rise != 0.0 && t == part / rise
    ensures t * rise == part
  {
  }

  lemma NegatedFactor(t: real, x: real, y: real)
    requires y == -x
    ensures t * y == -(t * x)
  {
    assert t * y + t * x == t * (x + y);
  }

  lemma SameQuotient(x: real, y: real, rise: real)
    requires rise != 0.0 && x * rise == y * rise
    ensures x == y
  {
    assert (x - y) * rise == 0.0;
    if rise > 0.0 { NoFactor(rise, x - y); } else { NoFactor(-rise, x - y); }
  }

  // ----- points off a segment

  ghost predicate NotOn(z: Vec, p: Vec, q: Vec) { forall s :: Unit(s) ==> At(p, q, s) != z }

  /** A linear quantity of a point. */
  function Level(n: Vec, c: real, v: Vec): real { Dot(n, v) + c }

  lemma LevelAlong(n: Vec, c: real, p: Vec, q: Vec, s: real)
    ensures Level(n, c, At(p, q, s)) == Mix(Level(n, c, p), Level(n, c, q), s)
  {
    var z := At(p, q, s);
    DotAlong(n.x, n.y, p.x, p.y, q.x, q.y, s);
    MixShift(Dot(n, p), Dot(n, q), c, s);
  }

  lemma DotAlong(e: real, f: real, x: real, y: real, x': real, y': real, s: real)
    ensures e * Along(x, x', s) + f * Along(y, y', s) == Mix(e * x + f * y, e * x' + f * y', s)
  {
    AlongTimes(e, x, x', s);
    AlongTimes(f, y, y', s);
    assert (1.0 - s) * (e * x + f * y) == (1.0 - s) * (e * x) + (1.0 - s) * (f * y);
    assert s * (e * x' + f * y') == s * (e * x') + s * (f * y');
  }

  lemma AlongTimes(e: real, x: real, x': real, s: real)
    ensures e * Along(x, x', s) == Mix(e * x, e * x', s)
  {
    var d := x' - x;
    assert e * (x + s * d) == e * x + s * (e * d);
    Mixed(e * x, e * x', s);
    assert e * x' - e * x == e * d;
  }

  lemma MixShift(x: real, y: real, c: real, s: real)
    ensures Mix(x, y, s) + c == Mix(x + c, y + c, s)
  {
    assert (1.0 - s) * (x + c) == (1.0 - s) * x + (1.0 - s) * c;
    assert s * (y + c) == s * y + s * c;
  }

  /** A line between a point and a segment it is not on. */
  lemma Separate(z: Vec, p: Vec, q: Vec) returns (n: Vec, c: real)
    requires NotOn(z, p, q)
    ensures Level(n, c, z) > 0.0 && Level(n, c, p) <= 0.0 && Level(n, c, q) <= 0.0
  {
    if Side(p, q, z) != 0.0 {
      n, c := SeparateAcross(z, p, q);
    } else if p == q {
      n, c := SeparatePoints(z, p);
    } else {
      n, c := SeparateAlong(z, p, q);
    }
  }

  lemma SeparateAcross(z: Vec, p: Vec, q: Vec) returns (n: Vec, c: real)
    requires Side(p, q, z) != 0.0
    ensures Level(n, c, z) > 0.0 && Level(n, c, p) <= 0.0 && Level(n, c, q) <= 0.0
  {
    var e := Sub(q, p);
    n := if Side(p, q, z) > 0.0 then Vec(-e.y, e.x) else Vec(e.y, -e.x);
    c := -Dot(n, p);
    SideAsLevel(p, q, z, n, c);
  }

  lemma Different(z: Vec, p: Vec)
    requires z != p
    ensures Sub(z, p) != ZERO
  {
    assert z == Vec(z.x, z.y) && p == Vec(p.x, p.y);
  }

  lemma SeparatePoints(z: Vec, p: Vec) returns (n: Vec, c: real)
    requires NotOn(z, p, p)
    ensures Level(n, c, z) > 0.0 && Level(n, c, p) <= 0.0
  {
    assert At(p, p, 0.0) == p by { assert p == Vec(p.x, p.y); }
    n := Sub(z, p);
    c := -Dot(n, p);
    Different(z, p);
    NonzeroSquare(n);
    Ahead(n, p, z);
  }

  lemma SeparateAlong(z: Vec, p: Vec, q: Vec) returns (n: Vec, c: real)
    requires NotOn(z, p, q) && Side(p, q, z) == 0.0 && p != q
    ensures Level(n, c, z) > 0.0 && Level(n, c, p) <= 0.0 && Level(n, c, q) <= 0.0
  {
    var e := Sub(q, p);
    var g, ee := Dot(e, Sub(z, p)), Dot(e, e);
    Different(q, p);
    NonzeroSquare(e);
    OnLine(z, p, q, g, ee);
    if g < 0.0 {
      n, c := Vec(-e.x, -e.y), Dot(e, p);
      Behind(e, p, z, q);
    } else {
      n, c := e, -Dot(e, q);
      Beyond(e, p, z, q);
    }
  }

  lemma SideAsLevel(p: Vec, q: Vec, z: Vec, n: Vec, c: real)
    requires c == -Dot(n, p)
    requires var e := Sub(q, p); n == Vec(-e.y, e.x) || n == Vec(e.y, -e.x)
    ensures Level(n, c, p) == Level(n, c, q) == 0.0
    ensures n == Vec(-(q.y - p.y), q.x - p.x) ==> Level(n, c, z) == Side(p, q, z)
    ensures n == Vec(q.y - p.y, -(q.x - p.x)) ==> Level(n, c, z) == -Side(p, q, z)
  {
  }

  lemma Ahead(n: Vec, p: Vec, z: Vec)
    requires n == Sub(z, p)
    ensures Level(n, -Dot(n, p), z) == Dot(n, n)
  {
  }

  lemma Behind(e: Vec, p: Vec, z: Vec, q: Vec)
    requires e == Sub(q, p)
    ensures var n, c := Vec(-e.x, -e.y), Dot(e, p);
      Level(n, c, z) == -Dot(e, Sub(z, p)) && Level(n, c, p) == 0.0 && Level(n, c, q) == -Dot(e, e)
  {
  }

  lemma Beyond(e: Vec, p: Vec, z: Vec, q: Vec)
    requires e == Sub(q, p)
    ensures var c := -Dot(e, q);
      Level(e, c, z) == Dot(e, Sub(z, p)) - Dot(e, e) && Level(e, c, q) == 0.0 && Level(e, c, p) == -Dot(e, e)
  {
  }

  /** On the line of a segment, but not on the segment: before or beyond it. */
  lemma OnLine(z: Vec, p: Vec, q: Vec, g: real, ee: real)
    requires NotOn(z, p, q) && Side(p, q, z) == 0.0
    requires g == Dot(Sub(q, p), Sub(z, p)) && ee == Dot(Sub(q, p), Sub(q, p)) && ee > 0.0
    ensures g < 0.0 || g > ee
  {
    if 0.0 <= g <= ee {
      var s := g / ee;
      assert s * ee == g;
      Quotient(s, ee, g);
      Projected(q.x - p.x, q.y - p.y, z.x - p.x, z.y - p.y, g, ee);
      Multiple(ee, s, z.x - p.x, q.x - p.x, g);
      Multiple(ee, s, z.y - p.y, q.y - p.y, g);
      IsAt(z, p, q, s);
    }
  }

  lemma IsAt(z: Vec, p: Vec, q: Vec, s: real)
    requires z.x - p.x == s * (q.x - p.x) && z.y - p.y == s * (q.y - p.y)
    ensures At(p, q, s) == z
  {
    assert z == Vec(z.x, z.y);
  }

  lemma Projected(ex: real, ey: real, fx: real, fy: real, g: real, ee: real)
    requires g == ex * fx + ey * fy && ee == ex * ex + ey * ey && ex * fy - ey * fx == 0.0
    ensures ee * fx == g * ex && ee * fy == g * ey
  {
    var c := ex * fy - ey * fx;
    assert ee * fx == g * ex - c * ey;
    assert ee * fy == g * ey + c * ex;
  }

  /** Close to a point off a segment, in a given direction, all is off the segment. */
  lemma Clearance(z: Vec, r: Vec, p: Vec, q: Vec) returns (eps: real)
    requires NotOn(z, p, q)
    ensures 0.0 < eps <= 1.0 && forall u :: 0.0 <= u <= eps ==> NotOn(At(z, r, u), p, q)
  {
    var n, c := Separate(z, p, q);
    eps := StaysPositive(Level(n, c, z), Level(n, c, r));
    forall u | 0.0 <= u <= eps ensures NotOn(At(z, r, u), p, q) {
      LevelAlong(n, c, z, r, u);
      forall s | Unit(s) ensures At(p, q, s) != At(z, r, u) {
        LevelAlong(n, c, p, q, s);
        StaysDown(Level(n, c, p), Level(n, c, q), s);
      }
    }
  }

  lemma StaysDown(x: real, y: real, s: real)
    requires x <= 0.0 && y <= 0.0 && Unit(s)
    ensures Mix(x, y, s) <= 0.0
  {
    Nonnegative(1.0 - s, -x);
    Nonnegative(s, -y);
    assert Mix(x, y, s) == -((1.0 - s) * -x) - s * -y;
  }

  lemma StaysPositive(x: real, y: real) returns (eps: real)
    requires x > 0.0
    ensures 0.0 < eps <= 1.0 && forall u :: 0.0 <= u <= eps ==> Mix(x, y, u) > 0.0
  {
    if y > 0.0 {
      eps := 1.0;
      forall u | 0.0 <= u <= eps ensures Mix(x, y, u) > 0.0 {
        if u < 1.0 { StillPositive(x, y, u); }
      }
    } else {
      eps := x / (2.0 * (x - y));
      QuotientTimes(x, 2.0 * (x - y), eps);
      Quotient(eps, 2.0 * (x - y), x);
      Scaled(0.0, eps, 2.0 * (x - y));
      forall u | 0.0 <= u <= eps ensures Mix(x, y, u) > 0.0 {
        HalfDown(x, y, x - y, eps, u);
      }
    }
  }

  lemma HalfDown(x: real, y: real, d: real, eps: real, u: real)
    requires x > 0.0 && d == x - y && d > 0.0 && eps * (2.0 * d) == x && u <= eps
    ensures Mix(x, y, u) > 0.0
  {
    Scaled(u, eps, d);
    assert eps * (2.0 * d) == 2.0 * (eps * d);
    assert Mix(x, y, u) == x - u * d;
  }
}
