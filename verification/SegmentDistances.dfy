/** Distances between planar segments, squared, and when a touch is seen (workbench/research/support/newhug.py,
    point_segment_distance and segment_distances). */
module SegmentDistances {
  import opened Roots
  import opened Planar
  import opened EarClipping
  import opened Segments
  import opened SimplePolygons
  import opened Triangulations

  const TINY := 0.000000000000000000000000000001

  const FLAT := 0.000000000000001

  const SLACK := 0.000000000001

  function Clip(x: real): (r: real)
    ensures Unit(r) && (Unit(x) ==> r == x)
  {
    if x < 0.0 then 0.0 else if x > 1.0 then 1.0 else x
  }

  function Square(v: Vec): real { Dot(v, v) }

  /** Where the point is nearest to the segment. */
  function Fraction(p: Vec, a: Vec, b: Vec): (t: real)
    ensures Unit(t)
  {
    Clip(Dot(Sub(p, a), Sub(b, a)) / Max(Square(Sub(b, a)), TINY))
  }

  /** point_segment_distance, squared. */
  function Gap2(p: Vec, a: Vec, b: Vec): real { Square(Sub(p, Nearest(p, a, b))) }

  function Nearest(p: Vec, a: Vec, b: Vec): Vec { At(a, b, Fraction(p, a, b)) }

  predicate AboutUnit(t: real) { -SLACK <= t <= 1.0 + SLACK }

  /** The lines are not taken for parallel and cross within both segments. */
  predicate Intersect(a: Vec, b: Vec, c: Vec, d: Vec) {
    var denominator := Cross(Sub(b, a), Sub(d, c));
    && Abs(denominator) > FLAT
    && AboutUnit(Cross(Sub(c, a), Sub(d, c)) / denominator) && AboutUnit(Cross(Sub(c, a), Sub(b, a)) / denominator)
  }

  /** segment_distances, squared. */
  function Distance2(a: Vec, b: Vec, c: Vec, d: Vec): real {
    if Intersect(a, b, c, d) then 0.0
    else Min(Min(Gap2(a, c, d), Gap2(b, c, d)), Min(Gap2(c, a, b), Gap2(d, a, b)))
  }

  /** Some end of one segment is on the other. */
  ghost predicate EndTouches(a: Vec, b: Vec, c: Vec, d: Vec) {
    !NotOn(a, c, d) || !NotOn(b, c, d) || !NotOn(c, a, b) || !NotOn(d, a, b)
  }

  predicate Long(a: Vec, b: Vec) { Square(Sub(b, a)) >= TINY }

  // ----- ends

  lemma SquareIsZero(v: Vec)
    ensures Square(v) >= 0.0 && (Square(v) == 0.0 <==> v == ZERO)
  {
    if v != ZERO {
      NonzeroSquare(v);
    }
  }

  lemma SamePoint(p: Vec, x: Vec)
    ensures Square(Sub(p, x)) >= 0.0 && (Square(Sub(p, x)) == 0.0 <==> p == x)
  {
    SquareIsZero(Sub(p, x));
    if p != x {
      Different(p, x);
    }
  }

  lemma NearestIsPoint(p: Vec, a: Vec, b: Vec, x: Vec)
    requires Long(a, b) && x == Nearest(p, a, b)
    ensures x == p <==> !NotOn(p, a, b)
  {
    if w :| Unit(w) && At(a, b, w) == p {
      FractionOfPoint(p, a, b, w);
    }
  }

  /** The gap vanishes exactly on the segment. */
  lemma GapVanishes(p: Vec, a: Vec, b: Vec)
    requires Long(a, b)
    ensures Gap2(p, a, b) >= 0.0 && (Gap2(p, a, b) == 0.0 <==> !NotOn(p, a, b))
  {
    NearestIsPoint(p, a, b, Nearest(p, a, b));
    SamePoint(p, Nearest(p, a, b));
  }

  lemma FractionOfPoint(p: Vec, a: Vec, b: Vec, w: real)
    requires Long(a, b) && Unit(w) && At(a, b, w) == p
    ensures Fraction(p, a, b) == w
  {
    var e, ee := Sub(b, a), Square(Sub(b, a));
    DotMultiple(w, e);
    assert Sub(p, a) == Scale(w, e);
    var q := Dot(Sub(p, a), e) / Max(ee, TINY);
    assert q * ee == w * ee;
    SameQuotient(q, w, ee);
  }

  // ----- crossing

  lemma Shared(a: Vec, b: Vec, c: Vec, d: Vec, s: real, u: real)
    requires At(a, b, s) == At(c, d, u)
    ensures var e, f, g := Sub(b, a), Sub(d, c), Sub(c, a);
      (Cross(g, f) == s * Cross(e, f) && Cross(g, e) == u * Cross(e, f))
  {
    var e, f, g := Sub(b, a), Sub(d, c), Sub(c, a);
    assert a.x + s * e.x == c.x + u * f.x && a.y + s * e.y == c.y + u * f.y;
    SharedParts(e.x, e.y, f.x, f.y, g.x, g.y, s, u);
  }

  lemma SharedParts(ex: real, ey: real, fx: real, fy: real, gx: real, gy: real, s: real, u: real)
    requires gx == s * ex - u * fx && gy == s * ey - u * fy
    ensures gx * fy - gy * fx == s * (ex * fy - ey * fx) && gx * ey - gy * ex == u * (ex * fy - ey * fx)
  {
  }

  lemma CrossingIsSeen(a: Vec, b: Vec, c: Vec, d: Vec)
    requires !Apart(a, b, c, d) && Abs(Cross(Sub(b, a), Sub(d, c))) > FLAT
    ensures Intersect(a, b, c, d)
  {
    var s, u :| Unit(s) && Unit(u) && At(a, b, s) == At(c, d, u);
    var den := Cross(Sub(b, a), Sub(d, c));
    Shared(a, b, c, d, s, u);
    RatiosAre(a, b, c, d, den, Cross(Sub(c, a), Sub(d, c)), Cross(Sub(c, a), Sub(b, a)), s, u);
  }

  lemma RatiosAre(a: Vec, b: Vec, c: Vec, d: Vec, den: real, x: real, y: real, s: real, u: real)
    requires den == Cross(Sub(b, a), Sub(d, c)) && x == Cross(Sub(c, a), Sub(d, c)) && y == Cross(Sub(c, a), Sub(b, a))
    requires Abs(den) > FLAT && x == s * den && y == u * den && Unit(s) && Unit(u)
    ensures Intersect(a, b, c, d)
  {
    RatioIs(x, den, s);
    RatioIs(y, den, u);
  }

  lemma RatioIs(x: real, y: real, r: real)
    requires y != 0.0 && x == r * y
    ensures x / y == r
  {
    SameQuotient(x / y, r, y);
  }

  // ----- parallel segments

  /** On one line, a segment that meets the unit interval has an end in it or covers it. */
  lemma OneLine(s: real, u: real, k: real) returns (end: bool, far: bool, w: real)
    requires Unit(s) && Unit(u)
    ensures end ==> Unit(if far then s + (1.0 - u) * k else s - u * k)
    ensures !end ==> Unit(w) && s - u * k + w * k == 0.0
  {
    var l, r := s - u * k, s + (1.0 - u) * k;
    assert r == l + k;
    far := !Unit(l);
    end := Unit(l) || Unit(r);
    w := 0.0;
    if !end {
      Straddled(s, u, k, l);
      w := -l / k;
      QuotientTimes(-l, k, w);
      if k > 0.0 {
        Quotient(w, k, -l);
      } else {
        assert w * -k == l;
        Quotient(w, -k, l);
      }
    }
  }

  lemma Straddled(s: real, u: real, k: real, l: real)
    requires Unit(s) && Unit(u) && l == s - u * k && !Unit(l) && !Unit(l + k)
    ensures (k > 0.0 && 0.0 <= -l <= k) || (k < 0.0 && 0.0 <= l <= -k)
  {
    if k >= 0.0 {
      var part := Between(u, k);
    } else {
      var part := Between(u, -k);
      assert u * -k == -(u * k);
    }
  }

  lemma OnLineOf(a: Vec, b: Vec, c: Vec, d: Vec, s: real, u: real, k: real)
    requires At(a, b, s) == At(c, d, u) && Sub(d, c) == Scale(k, Sub(b, a))
    ensures c == At(a, b, s - u * k) && d == At(a, b, s + (1.0 - u) * k)
  {
    OnLineCoordinate(a.x, b.x - a.x, c.x, d.x, s, u, k);
    OnLineCoordinate(a.y, b.y - a.y, c.y, d.y, s, u, k);
    assert c == Vec(c.x, c.y) && d == Vec(d.x, d.y);
  }

  lemma OnLineCoordinate(a: real, e: real, c: real, d: real, s: real, u: real, k: real)
    requires a + s * e == c + u * (d - c) && d - c == k * e
    ensures c == a + (s - u * k) * e && d == a + (s + (1.0 - u) * k) * e
  {
    assert u * (k * e) == (u * k) * e;
    assert (s - u * k) * e == s * e - (u * k) * e;
    assert (s + (1.0 - u) * k) * e == s * e + k * e - (u * k) * e;
  }

  lemma BackOnSegment(a: Vec, b: Vec, c: Vec, d: Vec, l: real, k: real, w: real)
    requires c == At(a, b, l) && Sub(d, c) == Scale(k, Sub(b, a)) && l + w * k == 0.0
    ensures At(c, d, w) == a
  {
    BackCoordinate(a.x, b.x - a.x, c.x, d.x, l, k, w);
    BackCoordinate(a.y, b.y - a.y, c.y, d.y, l, k, w);
    assert a == Vec(a.x, a.y);
  }

  lemma BackCoordinate(a: real, e: real, c: real, d: real, l: real, k: real, w: real)
    requires c == a + l * e && d - c == k * e && l + w * k == 0.0
    ensures c + w * (d - c) == a
  {
    assert w * (k * e) == (w * k) * e;
    assert (l + w * k) * e == l * e + (w * k) * e;
  }

  lemma ParallelTouch(a: Vec, b: Vec, c: Vec, d: Vec)
    requires !Apart(a, b, c, d) && Cross(Sub(b, a), Sub(d, c)) == 0.0 && Long(a, b)
    ensures EndTouches(a, b, c, d)
  {
    var s, u :| Unit(s) && Unit(u) && At(a, b, s) == At(c, d, u);
    var e, f := Sub(b, a), Sub(d, c);
    var k := Dot(f, e) / Square(e);
    QuotientTimes(Dot(f, e), Square(e), k);
    ParallelIsMultiple(e, f, Square(e), Dot(f, e), k);
    OnLineOf(a, b, c, d, s, u, k);
    var end, far, w := OneLine(s, u, k);
    if end {
      assert !NotOn(if far then d else c, a, b);
    } else {
      BackOnSegment(a, b, c, d, s - u * k, k, w);
      assert !NotOn(a, c, d);
    }
  }

  lemma ParallelIsMultiple(e: Vec, f: Vec, ee: real, ef: real, k: real)
    requires ee == Dot(e, e) && ef == Dot(f, e) && ee > 0.0 && k * ee == ef && Cross(e, f) == 0.0
    ensures f == Scale(k, e)
  {
    Projected(e.x, e.y, f.x, f.y, ef, ee);
    Multiple(ee, k, f.x, e.x, ef);
    Multiple(ee, k, f.y, e.y, ef);
    assert f == Vec(f.x, f.y);
  }

  // ----- what is seen

  lemma SomeGap(w: real, x: real, y: real, z: real)
    requires w >= 0.0 && x >= 0.0 && y >= 0.0 && z >= 0.0
    ensures Min(Min(w, x), Min(y, z)) == 0.0 <==> w == 0.0 || x == 0.0 || y == 0.0 || z == 0.0
  {
  }

  /** Of touching segments the distance is zero exactly when they are not taken for parallel or an end touches. */
  lemma TouchIsSeenIff(a: Vec, b: Vec, c: Vec, d: Vec)
    requires !Apart(a, b, c, d) && Long(a, b) && Long(c, d)
    ensures Distance2(a, b, c, d) == 0.0 <==> Abs(Cross(Sub(b, a), Sub(d, c))) > FLAT || EndTouches(a, b, c, d)
  {
    if Abs(Cross(Sub(b, a), Sub(d, c))) > FLAT {
      CrossingIsSeen(a, b, c, d);
    } else {
      GapVanishes(a, c, d);
      GapVanishes(b, c, d);
      GapVanishes(c, a, b);
      GapVanishes(d, a, b);
      SomeGap(Gap2(a, c, d), Gap2(b, c, d), Gap2(c, a, b), Gap2(d, a, b));
    }
  }

  /** Nothing is missed when the lines are parallel or not taken for it. */
  predicate Decided(a: Vec, b: Vec, c: Vec, d: Vec) {
    var denominator := Cross(Sub(b, a), Sub(d, c));
    denominator == 0.0 || Abs(denominator) > FLAT
  }

  lemma TouchIsSeen(a: Vec, b: Vec, c: Vec, d: Vec)
    requires !Apart(a, b, c, d) && Long(a, b) && Long(c, d) && Decided(a, b, c, d)
    ensures Distance2(a, b, c, d) == 0.0
  {
    TouchIsSeenIff(a, b, c, d);
    if Cross(Sub(b, a), Sub(d, c)) == 0.0 {
      ParallelTouch(a, b, c, d);
    }
  }
}
