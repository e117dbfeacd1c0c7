/** An outline that crosses itself and passes clean_polygon's check: its two crossing edges are so short that
    segment_distances takes them for parallel (workbench/research/support/newhug.py). */
module TinyCrossing {
  import opened Roots
  import opened Planar
  import opened EarClipping
  import opened Segments
  import opened SimplePolygons
  import opened AreaSign
  import opened SegmentDistances
  import opened Outlines

  /** The half length of the crossing edges, in metres. */
  const HALF := 0.00000001

  // ----- edges on both sides of a strip

  /** The first edge is beyond the strip of width e above h in one coordinate, the second before it. */
  predicate Beyond(a: Vec, b: Vec, c: Vec, d: Vec, first: bool, h: real, e: real) {
    && h + e <= Coordinate(a, first) <= 10.0 && h + e <= Coordinate(b, first) <= 10.0
    && -10.0 <= Coordinate(c, first) <= h && -10.0 <= Coordinate(d, first) <= h
  }

  lemma CoordinateAt(a: Vec, b: Vec, first: bool, t: real)
    ensures Coordinate(At(a, b, t), first) == Mix(Coordinate(a, first), Coordinate(b, first), t)
  {
    Mixed(a.x, b.x, t);
    Mixed(a.y, b.y, t);
  }

  lemma WideGap(p: Vec, x: Vec, first: bool, e: real)
    requires e > 0.0
    requires Coordinate(p, first) - Coordinate(x, first) >= e || Coordinate(x, first) - Coordinate(p, first) >= e
    ensures Square(Sub(p, x)) >= e * e
  {
    var v := Sub(p, x);
    var s := SquareSign(v.x);
    var t := SquareSign(v.y);
    var w := if first then v.x else v.y;
    if w < 0.0 {
      SquaresOrdered(e, -w);
      assert -w * -w == w * w;
    } else {
      SquaresOrdered(e, w);
    }
  }

  lemma MixWithin(x: real, y: real, lo: real, hi: real, t: real)
    requires lo <= x <= hi && lo <= y <= hi && Unit(t)
    ensures lo <= Mix(x, y, t) <= hi
  {
    StaysUp(x - lo, y - lo, t);
    StaysUp(hi - x, hi - y, t);
    assert Mix(x - lo, y - lo, t) == Mix(x, y, t) - lo && Mix(hi - x, hi - y, t) == hi - Mix(x, y, t);
  }

  lemma EndsFar(a: Vec, b: Vec, c: Vec, d: Vec, first: bool, h: real, e: real)
    requires Beyond(a, b, c, d, first, h, e) && e > 0.0
    ensures Gap2(a, c, d) >= e * e && Gap2(b, c, d) >= e * e && Gap2(c, a, b) >= e * e && Gap2(d, a, b) >= e * e
  {
    EndFar(a, c, d, first, h, e);
    EndFar(b, c, d, first, h, e);
    EndFar(c, a, b, first, h, e);
    EndFar(d, a, b, first, h, e);
  }

  lemma EndFar(p: Vec, c: Vec, d: Vec, first: bool, h: real, e: real)
    requires e > 0.0
    requires || (Coordinate(p, first) >= h + e && Coordinate(c, first) <= h && Coordinate(d, first) <= h)
             || (Coordinate(p, first) <= h && Coordinate(c, first) >= h + e && Coordinate(d, first) >= h + e)
    ensures Gap2(p, c, d) >= e * e
  {
    var t := Fraction(p, c, d);
    var x, y := Coordinate(c, first), Coordinate(d, first);
    CoordinateAt(c, d, first, t);
    MixWithin(x, y, Min(x, y), Max(x, y), t);
    WideGap(p, At(c, d, t), first, e);
  }

  /** The parameters that segment_distances computes are those of the lines' common point. */
  lemma CommonPoint(a: Vec, b: Vec, c: Vec, d: Vec, den: real, t: real, u: real)
    requires den == Cross(Sub(b, a), Sub(d, c)) && den != 0.0
    requires t * den == Cross(Sub(c, a), Sub(d, c)) && u * den == Cross(Sub(c, a), Sub(b, a))
    ensures At(a, b, t) == At(c, d, u)
  {
    var e, f, g := Sub(b, a), Sub(d, c), Sub(c, a);
    CommonCoordinate(e.x, e.y, f.x, f.y, g.x, g.y, den, t, u);
    CommonPlace(a.x, e.x, c.x, f.x, g.x, t, u);
    CommonPlace(a.y, e.y, c.y, f.y, g.y, t, u);
  }

  lemma CommonPlace(a: real, e: real, c: real, f: real, g: real, t: real, u: real)
    requires g == c - a && t * e - u * f == g
    ensures a + t * e == c + u * f
  {
  }

  lemma CommonCoordinate(ex: real, ey: real, fx: real, fy: real, gx: real, gy: real, den: real, t: real, u: real)
    requires den == ex * fy - ey * fx && den != 0.0 && t * den == gx * fy - gy * fx && u * den == gx * ey - gy * ex
    ensures t * ex - u * fx == gx && t * ey - u * fy == gy
  {
    assert (t * ex - u * fx) * den == (t * den) * ex - (u * den) * fx;
    assert (t * den) * ex - (u * den) * fx == gx * den;
    SameQuotient(t * ex - u * fx, gx, den);
    assert (t * ey - u * fy) * den == (t * den) * ey - (u * den) * fy;
    assert (t * den) * ey - (u * den) * fy == gy * den;
    SameQuotient(t * ey - u * fy, gy, den);
  }

  lemma AboutWithin(x: real, y: real, lo: real, hi: real, t: real)
    requires lo <= x <= hi && lo <= y <= hi && AboutUnit(t)
    ensures lo - SLACK * (hi - lo) <= Mix(x, y, t) <= hi + SLACK * (hi - lo)
  {
    if Unit(t) {
      MixWithin(x, y, lo, hi, t);
      Nonnegative(SLACK, hi - lo);
    } else if t < 0.0 {
      Overshoot(x, y, lo, hi, -t);
    } else {
      Overshoot(y, x, lo, hi, t - 1.0);
    }
  }

  /** A little beyond x, seen from y. */
  lemma Overshoot(x: real, y: real, lo: real, hi: real, r: real)
    requires lo <= x <= hi && lo <= y <= hi && 0.0 <= r <= SLACK
    ensures var z := x + r * (x - y); lo - SLACK * (hi - lo) <= z <= hi + SLACK * (hi - lo)
    ensures Mix(x, y, -r) == x + r * (x - y) && Mix(y, x, 1.0 + r) == x + r * (x - y)
  {
    Nonnegative(r, hi - lo - (x - y));
    Nonnegative(r, hi - lo + (x - y));
    Nonnegative(SLACK - r, hi - lo);
  }

  lemma StripIsUncrossed(a: Vec, b: Vec, c: Vec, d: Vec, first: bool, h: real)
    requires Beyond(a, b, c, d, first, h, HALF) && -1.0 <= h <= 1.0
    ensures !Intersect(a, b, c, d) && !Intersect(c, d, a, b)
  {
    NoCommonPoint(a, b, c, d, first, h);
    NoCommonPoint(c, d, a, b, first, h);
  }

  lemma NoCommonPoint(a: Vec, b: Vec, c: Vec, d: Vec, first: bool, h: real)
    requires (Beyond(a, b, c, d, first, h, HALF) || Beyond(c, d, a, b, first, h, HALF)) && -1.0 <= h <= 1.0
    ensures !Intersect(a, b, c, d)
  {
    var den := Cross(Sub(b, a), Sub(d, c));
    if Intersect(a, b, c, d) {
      var t, u := Cross(Sub(c, a), Sub(d, c)) / den, Cross(Sub(c, a), Sub(b, a)) / den;
      QuotientTimes(Cross(Sub(c, a), Sub(d, c)), den, t);
      QuotientTimes(Cross(Sub(c, a), Sub(b, a)), den, u);
      CommonPoint(a, b, c, d, den, t, u);
      ApartInCoordinate(a, b, c, d, first, h, t, u);
    }
  }

  lemma ApartInCoordinate(a: Vec, b: Vec, c: Vec, d: Vec, first: bool, h: real, t: real, u: real)
    requires (Beyond(a, b, c, d, first, h, HALF) || Beyond(c, d, a, b, first, h, HALF)) && -1.0 <= h <= 1.0
    requires AboutUnit(t) && AboutUnit(u)
    ensures At(a, b, t) != At(c, d, u)
  {
    CoordinateAt(a, b, first, t);
    CoordinateAt(c, d, first, u);
    var x, y, z, w := Coordinate(a, first), Coordinate(b, first), Coordinate(c, first), Coordinate(d, first);
    if Beyond(a, b, c, d, first, h, HALF) {
      AboutWithin(x, y, h + HALF, 10.0, t);
      AboutWithin(z, w, -10.0, h, u);
    } else {
      AboutWithin(z, w, h + HALF, 10.0, u);
      AboutWithin(x, y, -10.0, h, t);
    }
  }

  lemma StripIsFar(a: Vec, b: Vec, c: Vec, d: Vec, first: bool, h: real)
    requires Beyond(a, b, c, d, first, h, HALF) && -1.0 <= h <= 1.0
    ensures !Near(a, b, c, d) && !Near(c, d, a, b)
  {
    EndsFar(a, b, c, d, first, h, HALF);
    StripIsUncrossed(a, b, c, d, first, h);
  }

  // ----- the two crossing edges

  /** Level and upright through the origin, both of length twice HALF. */
  predicate IsCross(a: Vec, b: Vec, c: Vec, d: Vec) {
    a == Vec(-HALF, 0.0) && b == Vec(HALF, 0.0) && c == Vec(0.0, -HALF) && d == Vec(0.0, HALF)
  }

  lemma CrossTouches(a: Vec, b: Vec, c: Vec, d: Vec)
    requires IsCross(a, b, c, d)
    ensures !Apart(a, b, c, d)
  {
    assert At(a, b, 0.5) == Vec(0.0, 0.0) && At(c, d, 0.5) == Vec(0.0, 0.0);
  }

  lemma FarByEnds(a: Vec, b: Vec, c: Vec, d: Vec)
    requires !Intersect(a, b, c, d) && Gap2(a, c, d) >= HALF * HALF && Gap2(b, c, d) >= HALF * HALF
    requires Gap2(c, a, b) >= HALF * HALF && Gap2(d, a, b) >= HALF * HALF
    ensures !Near(a, b, c, d)
  {
  }

  lemma CrossIsFlat(a: Vec, b: Vec, c: Vec, d: Vec)
    requires IsCross(a, b, c, d)
    ensures 0.0 < Abs(Cross(Sub(b, a), Sub(d, c))) <= FLAT
  {
    assert Cross(Sub(b, a), Sub(d, c)) == 4.0 * HALF * HALF;
  }

  lemma LevelEnds(a: Vec, c: Vec, d: Vec)
    requires c.x == 0.0 && d.x == 0.0 && (a.x == -HALF || a.x == HALF)
    ensures Gap2(a, c, d) >= HALF * HALF
  {
    EndFar(a, c, d, true, if a.x < 0.0 then -HALF else 0.0, HALF);
  }

  lemma UprightEnds(c: Vec, a: Vec, b: Vec)
    requires a.y == 0.0 && b.y == 0.0 && (c.y == -HALF || c.y == HALF)
    ensures Gap2(c, a, b) >= HALF * HALF
  {
    EndFar(c, a, b, false, if c.y < 0.0 then -HALF else 0.0, HALF);
  }

  lemma CrossIsMissed(a: Vec, b: Vec, c: Vec, d: Vec)
    requires a.x == -HALF && b.x == HALF && a.y == 0.0 && b.y == 0.0
    requires c.x == 0.0 && d.x == 0.0 && c.y == -HALF && d.y == HALF
    requires Abs(Cross(Sub(b, a), Sub(d, c))) <= FLAT
    ensures !Near(a, b, c, d)
  {
    LevelEnds(a, c, d);
    LevelEnds(b, c, d);
    UprightEnds(c, a, b);
    UprightEnds(d, a, b);
    FarByEnds(a, b, c, d);
  }

  // ----- the outline

  /** Along one short edge, far down to the right, along the other, and back from the left. */
  predicate IsLoop(p: seq<Vec>) {
    |p| == 6 && IsCross(p[0], p[1], p[3], p[4]) && p[2] == Vec(5.0, -5.0) && p[5] == Vec(-1.0, 1.0)
  }

  /** The edges that begin at i and j are on both sides of a strip, upright or level. */
  predicate Strip(p: seq<Vec>, i: nat, j: nat, first: bool, h: real)
    requires i < 6 && j < 6 && |p| == 6
  {
    -1.0 <= h <= 1.0 && Beyond(p[i], p[Next(i, 6)], p[j], p[Next(j, 6)], first, h, HALF)
  }

  lemma LoopStrips(p: seq<Vec>)
    requires IsLoop(p)
    ensures Strip(p, 0, 2, false, -HALF) && Strip(p, 4, 0, false, 0.0) && Strip(p, 4, 2, false, -HALF)
    ensures Strip(p, 5, 2, false, -HALF) && Strip(p, 1, 3, true, 0.0) && Strip(p, 1, 4, true, 0.0)
    ensures Strip(p, 1, 5, true, 0.0) && Strip(p, 3, 5, true, -HALF)
  {
  }

  lemma StripPair(p: seq<Vec>, i: nat, j: nat, first: bool, h: real)
    requires |p| == 6 && i < 6 && j < 6 && (Strip(p, i, j, first, h) || Strip(p, j, i, first, h))
    ensures !Near(p[i], p[Next(i, 6)], p[j], p[Next(j, 6)])
  {
    if Strip(p, i, j, first, h) {
      StripIsFar(p[i], p[Next(i, 6)], p[j], p[Next(j, 6)], first, h);
    } else {
      StripIsFar(p[j], p[Next(j, 6)], p[i], p[Next(i, 6)], first, h);
    }
  }

  /** Which strip parts the two edges, for all pairs the check takes but the crossing one. */
  function Parting(i: nat, j: nat): (bool, real) {
    if i == 1 then (true, 0.0)
    else if i == 3 then (true, -HALF)
    else if i == 0 && j == 4 then (false, 0.0)
    else (false, -HALF)
  }

  lemma PairIsParted(p: seq<Vec>, i: nat, j: nat)
    requires IsLoop(p) && Checked(i, j, 6) && !(i == 0 && j == 3)
    ensures var (first, h) := Parting(i, j); Strip(p, i, j, first, h) || Strip(p, j, i, first, h)
  {
    LoopStrips(p);
  }

  lemma PairIsFar(p: seq<Vec>, i: nat, j: nat)
    requires IsLoop(p) && Checked(i, j, 6) && !(i == 0 && j == 3)
    ensures !Near(p[i], p[Next(i, 6)], p[j], p[Next(j, 6)])
  {
    PairIsParted(p, i, j);
    StripPair(p, i, j, Parting(i, j).0, Parting(i, j).1);
  }

  lemma LoopIsFar(p: seq<Vec>)
    requires IsLoop(p)
    ensures NoneNear(p)
  {
    forall i: nat, j: nat | i < |p| && j < |p| && Checked(i, j, |p|)
      ensures !Near(p[i], p[Next(i, |p|)], p[j], p[Next(j, |p|)])
    {
      if i == 0 && j == 3 {
        CrossIsFlat(p[0], p[1], p[3], p[4]);
        CrossIsMissed(p[0], p[1], p[3], p[4]);
      } else {
        PairIsFar(p, i, j);
      }
    }
  }

  lemma LoopArea(p: seq<Vec>)
    requires IsLoop(p)
    ensures Area2(p) == -8.0 * HALF
  {
    var s := Around(Crossed(), p);
    LoopCrosses(p);
    assert Sum(s, 1) == 0.0;
    assert Sum(s, 2) == -5.0 * HALF;
    assert Sum(s, 3) == -10.0 * HALF;
    assert Sum(s, 4) == -10.0 * HALF;
    assert Sum(s, 5) == -9.0 * HALF;
  }

  lemma LoopCrosses(p: seq<Vec>)
    requires IsLoop(p)
    ensures var s := Around(Crossed(), p);
      (s[0] == 0.0 && s[1] == -5.0 * HALF && s[2] == -5.0 * HALF && s[3] == 0.0 && s[4] == HALF && s[5] == HALF)
  {
    assert Next(0, 6) == 1 && Next(1, 6) == 2 && Next(2, 6) == 3;
    assert Next(3, 6) == 4 && Next(4, 6) == 5 && Next(5, 6) == 0;
  }

  lemma LoopEdges(p: seq<Vec>)
    requires IsLoop(p)
    ensures Opened(p) == p && LongEdges(p)
  {
  }

  /** An outline of six vertices that clean_polygon lets pass although two of its edges cross. */
  lemma SelfCrossingPasses() returns (p: seq<Vec>)
    ensures IsLoop(p) && Passes(p) && Opened(p) == p && !Simple(p)
  {
    p := [Vec(-HALF, 0.0), Vec(HALF, 0.0), Vec(5.0, -5.0), Vec(0.0, -HALF), Vec(0.0, HALF), Vec(-1.0, 1.0)];
    LoopEdges(p);
    LoopArea(p);
    LoopIsFar(p);
    CrossTouches(p[0], p[1], p[3], p[4]);
    assert Strangers(0, 3, 6);
  }
}
