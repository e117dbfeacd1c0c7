/** The distance between two segments is the least distance of their points (workbench/research/support/newhug.py,
    point_segment_distance and segment_distances). */
module ExactDistances {
  import opened Roots
  import opened Planar
  import opened Segments
  import opened SegmentDistances

  /** The squared distance of a point of one segment to a point of the other. */
  function Between2(a: Vec, b: Vec, c: Vec, d: Vec, s: real, u: real): real {
    var x := At(a, b, s).x - At(c, d, u).x;
    var y := At(a, b, s).y - At(c, d, u).y;
    x * x + y * y
  }

  // ----- a point and a segment

  lemma Parabola(wx: real, wy: real, ex: real, ey: real, ee: real, q: real, t: real)
    requires ee == ex * ex + ey * ey && q * ee == wx * ex + wy * ey
    ensures (wx - t * ex) * (wx - t * ex) + (wy - t * ey) * (wy - t * ey)
         == wx * wx + wy * wy - q * q * ee + ee * ((t - q) * (t - q))
  {
    var dot := wx * ex + wy * ey;
    assert t * (q * ee) == t * dot && q * (q * ee) == q * q * ee;
    assert ee * ((t - q) * (t - q)) == t * t * ee - 2.0 * (t * (q * ee)) + q * q * ee;
    assert (wx - t * ex) * (wx - t * ex) == wx * wx - 2.0 * (t * (wx * ex)) + t * t * (ex * ex);
    assert (wy - t * ey) * (wy - t * ey) == wy * wy - 2.0 * (t * (wy * ey)) + t * t * (ey * ey);
    assert t * dot == t * (wx * ex) + t * (wy * ey);
    assert t * t * ee == t * t * (ex * ex) + t * t * (ey * ey);
  }

  lemma ClipIsNear(q: real, t: real) returns (near: real, far: real)
    requires Unit(t)
    ensures near == (Clip(q) - q) * (Clip(q) - q) && far == (t - q) * (t - q) && near <= far
  {
    near, far := (Clip(q) - q) * (Clip(q) - q), (t - q) * (t - q);
    if q < 0.0 {
      SquaresOrdered(-q, t - q);
      assert (t - q) * (t - q) == far && (-q) * (-q) == near;
    } else if q > 1.0 {
      SquaresOrdered(q - 1.0, q - t);
      assert (q - t) * (q - t) == far && (q - 1.0) * (q - 1.0) == near;
    } else {
      var z := SquareSign(t - q);
    }
  }

  /** No point of the segment is nearer than the gap. */
  lemma GapIsLeast(p: Vec, a: Vec, b: Vec, t: real)
    requires Long(a, b) && Unit(t)
    ensures Gap2(p, a, b) <= Square(Sub(p, At(a, b, t)))
  {
    var e, w := Sub(b, a), Sub(p, a);
    var ee, dot := Square(e), Dot(w, e);
    var q := dot / Max(ee, TINY);
    var r := Fraction(p, a, b);
    var near, far := ClipIsNear(q, t);
    assert r == Clip(q) && q * ee == dot;
    GapIsParabola(p, a, b, e, w, ee, dot, q, t);
    GapIsParabola(p, a, b, e, w, ee, dot, q, r);
    Monotone(ee, near, far);
  }

  lemma Monotone(ee: real, near: real, far: real)
    requires ee > 0.0 && near <= far
    ensures ee * near <= ee * far
  {
    Scaled(near, far, ee);
  }

  lemma GapIsParabola(p: Vec, a: Vec, b: Vec, e: Vec, w: Vec, ee: real, dot: real, q: real, t: real)
    requires e == Sub(b, a) && w == Sub(p, a) && ee == Square(e) && dot == Dot(w, e) && q * ee == dot
    ensures Square(Sub(p, At(a, b, t))) == Square(w) - q * q * ee + ee * ((t - q) * (t - q))
  {
    Parabola(w.x, w.y, e.x, e.y, ee, q, t);
    var v := Sub(p, At(a, b, t));
    assert v.x == w.x - t * e.x && v.y == w.y - t * e.y;
  }

  // ----- the sides of the unit square

  predicate Edge(s: real, u: real) { s == 0.0 || s == 1.0 || u == 0.0 || u == 1.0 }

  function Gaps(a: Vec, b: Vec, c: Vec, d: Vec): real {
    Min(Min(Gap2(a, c, d), Gap2(b, c, d)), Min(Gap2(c, a, b), Gap2(d, a, b)))
  }

  lemma Ends(a: Vec, b: Vec)
    ensures At(a, b, 0.0) == a && At(a, b, 1.0) == b
  {
    assert a == Vec(a.x, a.y) && b == Vec(b.x, b.y);
  }

  lemma LeastOfFour(g: real, h: real, i: real, j: real)
    ensures var m := Min(Min(g, h), Min(i, j)); m <= g && m <= h && m <= i && m <= j
    ensures var m := Min(Min(g, h), Min(i, j)); m == g || m == h || m == i || m == j
  {
  }

  /** From an end of the first segment. */
  lemma FromEnd(a: Vec, b: Vec, c: Vec, d: Vec, s: real, u: real, p: Vec)
    requires (s == 0.0 && p == a) || (s == 1.0 && p == b)
    ensures Between2(a, b, c, d, s, u) == Square(Sub(p, At(c, d, u)))
  {
    Ends(a, b);
  }

  /** From an end of the second segment. */
  lemma FromOtherEnd(a: Vec, b: Vec, c: Vec, d: Vec, s: real, u: real, p: Vec)
    requires (u == 0.0 && p == c) || (u == 1.0 && p == d)
    ensures Between2(a, b, c, d, s, u) == Square(Sub(p, At(a, b, s)))
  {
    Ends(c, d);
    var x, y := At(a, b, s).x - p.x, At(a, b, s).y - p.y;
    assert (-x) * (-x) + (-y) * (-y) == x * x + y * y;
  }

  /** With one of the two points at an end the distance is at least one of the four gaps. */
  lemma EdgeIsAbove(a: Vec, b: Vec, c: Vec, d: Vec, s: real, u: real)
    requires Long(a, b) && Long(c, d) && Unit(s) && Unit(u) && Edge(s, u)
    ensures Gaps(a, b, c, d) <= Between2(a, b, c, d, s, u)
  {
    LeastOfFour(Gap2(a, c, d), Gap2(b, c, d), Gap2(c, a, b), Gap2(d, a, b));
    if s == 0.0 {
      EndGap(a, b, c, d, s, u, a);
    } else if s == 1.0 {
      EndGap(a, b, c, d, s, u, b);
    } else if u == 0.0 {
      OtherGap(a, b, c, d, s, u, c);
    } else {
      OtherGap(a, b, c, d, s, u, d);
    }
  }

  lemma EndGap(a: Vec, b: Vec, c: Vec, d: Vec, s: real, u: real, p: Vec)
    requires Long(c, d) && Unit(u) && ((s == 0.0 && p == a) || (s == 1.0 && p == b))
    ensures Gap2(p, c, d) <= Between2(a, b, c, d, s, u)
  {
    FromEnd(a, b, c, d, s, u, p);
    GapIsLeast(p, c, d, u);
  }

  lemma OtherGap(a: Vec, b: Vec, c: Vec, d: Vec, s: real, u: real, p: Vec)
    requires Long(a, b) && Unit(s) && ((u == 0.0 && p == c) || (u == 1.0 && p == d))
    ensures Gap2(p, a, b) <= Between2(a, b, c, d, s, u)
  {
    FromOtherEnd(a, b, c, d, s, u, p);
    GapIsLeast(p, a, b, s);
  }

  // ----- towards the edge

  /** How far one may go from a point of the unit interval towards a target before leaving it. */
  lemma Leave(s: real, target: real) returns (l: real)
    requires Unit(s)
    ensures Unit(l) && (Unit(target) ==> l == 1.0)
    ensures !Unit(target) ==> Along(s, target, l) == 0.0 || Along(s, target, l) == 1.0
    ensures forall k :: 0.0 <= k <= l ==> Unit(Along(s, target, k))
  {
    if target > 1.0 {
      l := (1.0 - s) / (target - s);
      assert l * (target - s) == 1.0 - s;
      UnitRatio(1.0 - s, target - s, l);
    } else if target < 0.0 {
      l := s / (s - target);
      assert l * (s - target) == s;
      UnitRatio(s, s - target, l);
      assert l * (target - s) == -(l * (s - target));
    } else {
      l := 1.0;
    }
    forall k | 0.0 <= k <= l ensures Unit(Along(s, target, k)) { Within(s, target, k, l); }
  }

  lemma UnitRatio(x: real, y: real, l: real)
    requires 0.0 <= x < y && l * y == x
    ensures 0.0 <= l < 1.0
  {
    if l < 0.0 {
      var n := Product(-l, y);
    } else if l >= 1.0 {
      Scaled(1.0, l, y);
    }
  }

  lemma Within(s: real, target: real, k: real, l: real)
    requires Unit(s) && 0.0 <= k <= l && Unit(Along(s, target, l))
    ensures Unit(Along(s, target, k))
  {
    var step := target - s;
    var near, far := k * step, l * step;
    assert Along(s, target, k) == s + near && Along(s, target, l) == s + far;
    PartOfStep(k, l, step, near, far);
  }

  lemma PartOfStep(k: real, l: real, step: real, near: real, far: real)
    requires 0.0 <= k <= l && near == k * step && far == l * step
    ensures 0.0 <= near <= far || far <= near <= 0.0
  {
    if step > 0.0 {
      Scaled(k, l, step);
      Scaled(0.0, k, step);
    } else if step < 0.0 {
      var back := -step;
      assert k * back == -near && l * back == -far;
      Scaled(k, l, back);
      Scaled(0.0, k, back);
    } else {
      assert near == k * 0.0 && far == l * 0.0;
    }
  }

  /** From a point of the unit square towards a target that is not inside it, the square's edge is reached. */
  lemma Reach(s: real, u: real, s': real, u': real) returns (l: real)
    requires Unit(s) && Unit(u) && (!Unit(s') || !Unit(u') || Edge(s', u'))
    ensures Unit(l) && Unit(Along(s, s', l)) && Unit(Along(u, u', l)) && Edge(Along(s, s', l), Along(u, u', l))
  {
    var m := Leave(s, s');
    var n := Leave(u, u');
    l := if m <= n then m else n;
    if Unit(s') && Unit(u') {
      assert Along(s, s', 1.0) == s' && Along(u, u', 1.0) == u';
    }
  }

  /** Going towards a point where the difference is k times as large shrinks the distance. */
  lemma Shrinks(a: Vec, b: Vec, c: Vec, d: Vec, s: real, u: real, s': real, u': real, k: real, l: real)
    requires Unit(l) && Unit(k) && Target(a, b, c, d, s, u, s', u', k)
    ensures Between2(a, b, c, d, Along(s, s', l), Along(u, u', l)) <= Between2(a, b, c, d, s, u)
  {
    var x, y := At(a, b, s).x - At(c, d, u).x, At(a, b, s).y - At(c, d, u).y;
    var f := 1.0 - l + l * k;
    Affine(a.x, b.x, c.x, d.x, s, u, s', u', k, l, x, f);
    Affine(a.y, b.y, c.y, d.y, s, u, s', u', k, l, y, f);
    UnitFactor(k, l, f);
    var x', y' := f * x, f * y;
    Smaller(f, x, x');
    Smaller(f, y, y');
    BetweenIs(a, b, c, d, s, u, x, y);
    BetweenIs(a, b, c, d, Along(s, s', l), Along(u, u', l), x', y');
  }

  lemma BetweenIs(a: Vec, b: Vec, c: Vec, d: Vec, s: real, u: real, x: real, y: real)
    requires Along(a.x, b.x, s) - Along(c.x, d.x, u) == x && Along(a.y, b.y, s) - Along(c.y, d.y, u) == y
    ensures Between2(a, b, c, d, s, u) == x * x + y * y
  {
  }

  lemma UnitFactor(k: real, l: real, f: real)
    requires Unit(l) && Unit(k) && f == 1.0 - l + l * k
    ensures Unit(f)
  {
    UnitProduct(l, 1.0 - k);
  }

  lemma UnitProduct(l: real, m: real)
    requires Unit(l) && Unit(m)
    ensures 0.0 <= l * m <= 1.0
  {
    var p := l * m;
    if l == 0.0 {
      assert p == 0.0 * m;
    } else if m == 0.0 {
      assert p == l * 0.0;
    } else {
      var z := Product(l, m);
      assert z == p && 1.0 * m == m;
      Scaled(l, 1.0, m);
    }
  }

  lemma Affine(a: real, b: real, c: real, d: real, s: real, u: real, s': real, u': real, k: real, l: real, x: real,
               f: real)
    requires x == Along(a, b, s) - Along(c, d, u) && Along(a, b, s') - Along(c, d, u') == k * x
    requires f == 1.0 - l + l * k
    ensures Along(a, b, Along(s, s', l)) - Along(c, d, Along(u, u', l)) == f * x
  {
    var e, g := b - a, d - c;
    var x' := k * x;
    assert x' - x == (s' - s) * e - (u' - u) * g;
    assert l * (x' - x) == l * ((s' - s) * e) - l * ((u' - u) * g);
    assert (s + l * (s' - s)) * e == s * e + l * ((s' - s) * e);
    assert (u + l * (u' - u)) * g == u * g + l * ((u' - u) * g);
    assert f * x == x + l * (k * x) - l * x;
  }

  lemma Smaller(f: real, x: real, y: real)
    requires Unit(f) && y == f * x
    ensures y * y <= x * x
  {
    var z := SquareSign(x);
    UnitProduct(f, f);
    assert y * y == (f * f) * z;
    if z > 0.0 {
      Scaled(f * f, 1.0, z);
    }
  }

  // ----- targets

  lemma CrossingCoordinate(a: Vec, b: Vec, c: Vec, d: Vec, den: real, s: real, u: real)
    requires den == Cross(Sub(b, a), Sub(d, c)) && den != 0.0
    requires s * den == Cross(Sub(c, a), Sub(d, c)) && u * den == Cross(Sub(c, a), Sub(b, a))
    ensures At(a, b, s).x == At(c, d, u).x && At(a, b, s).y == At(c, d, u).y
  {
    var e, f, g := Sub(b, a), Sub(d, c), Sub(c, a);
    Cramer(e.x, e.y, f.x, f.y, g.x, g.y, den, s, u);
  }

  lemma Cramer(ex: real, ey: real, fx: real, fy: real, gx: real, gy: real, den: real, s: real, u: real)
    requires den == ex * fy - ey * fx && den != 0.0
    requires s * den == gx * fy - gy * fx && u * den == gx * ey - gy * ex
    ensures s * ex - u * fx == gx && s * ey - u * fy == gy
  {
    assert (s * den) * ex - (u * den) * fx == gx * den;
    assert (s * den) * ey - (u * den) * fy == gy * den;
    assert (s * ex - u * fx - gx) * den == (s * den) * ex - (u * den) * fx - gx * den;
    assert (s * ey - u * fy - gy) * den == (s * den) * ey - (u * den) * fy - gy * den;
    NoFactor(s * ex - u * fx - gx, den);
    NoFactor(s * ey - u * fy - gy, den);
  }

  lemma NoFactor(x: real, den: real)
    requires x * den == 0.0 && den != 0.0
    ensures x == 0.0
  {
  }

  /** Along parallel segments one may move both points without changing their difference. */
  lemma SlideAlong(a: Vec, b: Vec, c: Vec, d: Vec, k: real, s: real, u: real)
    requires Sub(d, c) == Scale(k, Sub(b, a))
    ensures At(a, b, s + k * (1.0 - u)).x - At(c, d, 1.0).x == At(a, b, s).x - At(c, d, u).x
    ensures At(a, b, s + k * (1.0 - u)).y - At(c, d, 1.0).y == At(a, b, s).y - At(c, d, u).y
  {
    SlideCoordinate(a.x, b.x - a.x, c.x, d.x - c.x, k, s, u);
    SlideCoordinate(a.y, b.y - a.y, c.y, d.y - c.y, k, s, u);
  }

  lemma SlideCoordinate(a: real, e: real, c: real, f: real, k: real, s: real, u: real)
    requires f == k * e
    ensures a + (s + k * (1.0 - u)) * e - (c + 1.0 * f) == a + s * e - (c + u * f)
  {
    assert (k * (1.0 - u)) * e == (1.0 - u) * (k * e);
    assert (s + k * (1.0 - u)) * e == s * e + (k * (1.0 - u)) * e;
  }

  /** Two points further on, in or out of the segments, whose difference is k times that of the given ones. */
  ghost predicate Target(a: Vec, b: Vec, c: Vec, d: Vec, s: real, u: real, s': real, u': real, k: real) {
    && At(a, b, s').x - At(c, d, u').x == k * (At(a, b, s).x - At(c, d, u).x)
    && At(a, b, s').y - At(c, d, u').y == k * (At(a, b, s).y - At(c, d, u).y)
  }

  lemma ParallelTarget(a: Vec, b: Vec, c: Vec, d: Vec, s: real, u: real) returns (s': real)
    requires Long(a, b) && Cross(Sub(b, a), Sub(d, c)) == 0.0
    ensures Target(a, b, c, d, s, u, s', 1.0, 1.0)
  {
    var e, f := Sub(b, a), Sub(d, c);
    var k := Dot(f, e) / Square(e);
    QuotientTimes(Dot(f, e), Square(e), k);
    ParallelIsMultiple(e, f, Square(e), Dot(f, e), k);
    s' := s + k * (1.0 - u);
    SlideAlong(a, b, c, d, k, s, u);
  }

  lemma CrossingTarget(a: Vec, b: Vec, c: Vec, d: Vec, s: real, u: real) returns (s': real, u': real)
    requires Decided(a, b, c, d) && Cross(Sub(b, a), Sub(d, c)) != 0.0 && !Intersect(a, b, c, d)
    ensures Target(a, b, c, d, s, u, s', u', 0.0) && (!Unit(s') || !Unit(u'))
  {
    var den := Cross(Sub(b, a), Sub(d, c));
    s', u' := Cross(Sub(c, a), Sub(d, c)) / den, Cross(Sub(c, a), Sub(b, a)) / den;
    QuotientTimes(Cross(Sub(c, a), Sub(d, c)), den, s');
    QuotientTimes(Cross(Sub(c, a), Sub(b, a)), den, u');
    CrossingCoordinate(a, b, c, d, den, s', u');
  }

  /** Somewhere on the edge of the square the points are no further apart. */
  lemma ToTheEdge(a: Vec, b: Vec, c: Vec, d: Vec, s: real, u: real) returns (v: real, w: real)
    requires Long(a, b) && Unit(s) && Unit(u) && Decided(a, b, c, d) && !Intersect(a, b, c, d)
    ensures Unit(v) && Unit(w) && Edge(v, w) && Between2(a, b, c, d, v, w) <= Between2(a, b, c, d, s, u)
  {
    var s', u', k := 0.0, 1.0, 1.0;
    if Cross(Sub(b, a), Sub(d, c)) == 0.0 {
      s' := ParallelTarget(a, b, c, d, s, u);
    } else {
      k := 0.0;
      s', u' := CrossingTarget(a, b, c, d, s, u);
    }
    var l := Reach(s, u, s', u');
    Shrinks(a, b, c, d, s, u, s', u', k, l);
    v, w := Along(s, s', l), Along(u, u', l);
  }

  // ----- the distance

  /** segment_distances is a lower bound for the distance of any two points of the segments. */
  lemma DistanceIsBelow(a: Vec, b: Vec, c: Vec, d: Vec, s: real, u: real)
    requires Long(a, b) && Long(c, d) && Decided(a, b, c, d) && Unit(s) && Unit(u)
    ensures Distance2(a, b, c, d) <= Between2(a, b, c, d, s, u)
  {
    if Intersect(a, b, c, d) {
      var x := SquareSign(At(a, b, s).x - At(c, d, u).x);
      var y := SquareSign(At(a, b, s).y - At(c, d, u).y);
    } else {
      var v, w := ToTheEdge(a, b, c, d, s, u);
      EdgeIsAbove(a, b, c, d, v, w);
    }
  }

  /** It is the distance of some two points of them, or of points at most the slack of the crossing test past an end. */
  lemma DistanceIsAttained(a: Vec, b: Vec, c: Vec, d: Vec) returns (s: real, u: real)
    requires Long(a, b) && Long(c, d)
    ensures Distance2(a, b, c, d) == Between2(a, b, c, d, s, u)
    ensures -0.000000000001 <= s <= 1.000000000001 && -0.000000000001 <= u <= 1.000000000001
    ensures !Intersect(a, b, c, d) ==> Unit(s) && Unit(u)
  {
    if Intersect(a, b, c, d) {
      s, u := CrossingIsAttained(a, b, c, d);
    } else {
      s, u := GapIsAttained(a, b, c, d);
    }
  }

  lemma CrossingIsAttained(a: Vec, b: Vec, c: Vec, d: Vec) returns (s: real, u: real)
    requires Intersect(a, b, c, d)
    ensures -0.000000000001 <= s <= 1.000000000001 && -0.000000000001 <= u <= 1.000000000001
    ensures Between2(a, b, c, d, s, u) == 0.0
  {
    var den := Cross(Sub(b, a), Sub(d, c));
    s, u := Cross(Sub(c, a), Sub(d, c)) / den, Cross(Sub(c, a), Sub(b, a)) / den;
    CrossingCoordinate(a, b, c, d, den, s, u);
    BetweenIs(a, b, c, d, s, u, 0.0, 0.0);
  }

  lemma GapIsAttained(a: Vec, b: Vec, c: Vec, d: Vec) returns (s: real, u: real)
    ensures Unit(s) && Unit(u) && Gaps(a, b, c, d) == Between2(a, b, c, d, s, u)
  {
    LeastOfFour(Gap2(a, c, d), Gap2(b, c, d), Gap2(c, a, b), Gap2(d, a, b));
    if Gaps(a, b, c, d) == Gap2(a, c, d) {
      s, u := 0.0, Fraction(a, c, d);
      FromEnd(a, b, c, d, s, u, a);
    } else if Gaps(a, b, c, d) == Gap2(b, c, d) {
      s, u := 1.0, Fraction(b, c, d);
      FromEnd(a, b, c, d, s, u, b);
    } else if Gaps(a, b, c, d) == Gap2(c, a, b) {
      s, u := Fraction(c, a, b), 0.0;
      FromOtherEnd(a, b, c, d, s, u, c);
    } else {
      s, u := Fraction(d, a, b), 1.0;
      FromOtherEnd(a, b, c, d, s, u, d);
    }
  }
}
