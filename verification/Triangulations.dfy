/** Ear clipping of a simple polygon winds one way only: around every point off its edges the polygon winds zero times,
    or once in the direction the last triangle turns (workbench/research/support/newhug.py, convex_parts). */
module Triangulations {
  import opened Roots
  import opened Planar
  import opened EarClipping
  import opened Notches
  import opened Segments
  import opened SimplePolygons
  import opened Windings

  /** A point on no edge. */
  ghost predicate Free(v: Vec, p: seq<Vec>) { forall i: nat :: i < |p| ==> NotOn(v, p[i], p[Next(i, |p|)]) }

  // ----- outside a triangle

  lemma VerticalBalance(a: Vec, b: Vec, c: Vec, v: Vec)
    ensures Side(a, b, v) * (c.y - v.y) + Side(b, c, v) * (a.y - v.y) + Side(c, a, v) * (b.y - v.y) == 0.0
  {
  }

  /** Met rightwards by a rising edge and leftwards by a falling one, the point is on the inner side of both, and then
      of the third edge, which lies above or below it. */
  lemma ThirdSide(a: Vec, b: Vec, c: Vec, v: Vec)
    requires Side(b, c, v) >= 0.0 && Side(c, a, v) >= 0.0 && Side(b, c, v) + Side(c, a, v) > 0.0
    requires (a.y > v.y && b.y > v.y && c.y <= v.y) || (a.y <= v.y && b.y <= v.y && c.y > v.y)
    ensures Side(a, b, v) >= 0.0
  {
    VerticalBalance(a, b, c, v);
    BalancedSide(Side(a, b, v), Side(b, c, v), Side(c, a, v), c.y - v.y, a.y - v.y, b.y - v.y);
  }

  lemma BalancedSide(s: real, t: real, u: real, x: real, y: real, z: real)
    requires t >= 0.0 && u >= 0.0 && t + u > 0.0 && s * x + t * y + u * z == 0.0
    requires (x <= 0.0 && y > 0.0 && z > 0.0) || (x > 0.0 && y <= 0.0 && z <= 0.0)
    ensures s >= 0.0
  {
    SignRule(s, x);
    if x <= 0.0 {
      Nonnegative(t, y);
      Nonnegative(u, z);
      if t > 0.0 { var p := Product(t, y); } else { var p := Product(u, z); }
    } else {
      Nonnegative(t, -y);
      Nonnegative(u, -z);
      assert t * -y == -(t * y) && u * -z == -(u * z);
    }
  }

  lemma SignRule(s: real, x: real)
    ensures s < 0.0 && x <= 0.0 ==> s * x >= 0.0
    ensures s < 0.0 && x > 0.0 ==> s * x < 0.0
  {
    if s < 0.0 && x <= 0.0 {
      Nonnegative(-s, -x);
      assert -s * -x == s * x;
    } else if s < 0.0 {
      var p := Product(-s, x);
      assert -s * x == -(s * x);
    }
  }

  lemma SideOfCrossing(v: Vec, a: Vec, b: Vec)
    requires Straddles(v, a, b)
    ensures Crossing(v, a, b) == 1 ==> Side(a, b, v) > 0.0
    ensures b.y <= v.y && Crossing(v, a, b) == 0 ==> Side(a, b, v) >= 0.0
  {
    HitsBySide(v, a, b);
  }

  /** The first edge passes the height, the two others do not miss it. */
  lemma TwoMet(a: Vec, b: Vec, c: Vec, v: Vec)
    requires !Straddles(v, a, b) && Crossing(v, b, c) + Crossing(v, c, a) == 1
    ensures InTriangle([a, b, c], v)
  {
    assert Straddles(v, b, c) && Straddles(v, c, a);
    SideOfCrossing(v, b, c);
    SideOfCrossing(v, c, a);
    ThirdSide(a, b, c, v);
  }

  /** What the triangle winds around is in it. */
  lemma WoundIsInside(a: Vec, b: Vec, c: Vec, v: Vec)
    requires Crossing(v, a, b) + Crossing(v, b, c) + Crossing(v, c, a) == 1
    ensures InTriangle([a, b, c], v)
  {
    if !Straddles(v, a, b) {
      TwoMet(a, b, c, v);
    } else if !Straddles(v, b, c) {
      TwoMet(b, c, a, v);
    } else {
      TwoMet(c, a, b, v);
    }
  }

  lemma OutsideIsUnwound(v: Vec, t: seq<Vec>)
    requires |t| == 3 && Turn(t) > 0.0 && !InTriangle(t, v)
    ensures Loop(From(v), t).winding == 0
  {
    var a, b, c := t[0], t[1], t[2];
    assert t == [a, b, c];
    TriangleLoop(From(v), a, b, c);
    TriangleWinding(v, t);
    if Loop(From(v), t).winding == 1 {
      WoundIsInside(a, b, c, v);
    }
  }

  // ----- out of an ear

  /** In the triangle and off its first two edges, all is free: no other edge comes in. */
  lemma InnerIsFree(p: seq<Vec>, k: nat, x: Vec, a: Vec, b: Vec, c: Vec)
    requires Simple(p) && |p| >= 4 && k < |p| && OpenEar(p, k) && Corner(p, k) == [a, b, c]
    requires InTriangle([a, b, c], x) && Side(a, b, x) > 0.0 && Side(b, c, x) > 0.0
    ensures Free(x, p)
  {
    var n := |p|;
    SidesOfVertices(a, b, c);
    SidesOfVertices(b, c, a);
    EarStrangersPrev(n, k);
    forall i: nat, t | i < n && Unit(t) ensures At(p[i], p[Next(i, n)], t) != x {
      if i == Prev(k, n) {
        OnOwnEdge(a, b, t);
      } else if i == k {
        OnOwnEdge(b, c, t);
      } else {
        EndsOfEdge(p[i], p[Next(i, n)], t);
        if (i == Next(k, n) ==> t > 0.0) && (Next(i, n) == Prev(k, n) ==> t < 1.0) {
          EarUncrossed(p, k, i, t);
        }
      }
    }
  }

  lemma EarStrangersPrev(n: nat, k: nat)
    requires k < n
    ensures Next(Prev(k, n), n) == k
  {
  }

  lemma OnOwnEdge(a: Vec, b: Vec, t: real)
    ensures Side(a, b, At(a, b, t)) == 0.0
  {
    SideAffine(a, b, a, b, t);
    SidesOfVertices(a, b, a);
  }

  lemma EndsOfEdge(a: Vec, b: Vec, t: real)
    ensures t == 0.0 ==> At(a, b, t) == a
    ensures t == 1.0 ==> At(a, b, t) == b
  {
    assert a == Vec(a.x, a.y) && b == Vec(b.x, b.y);
  }

  /** A free point of the triangle is off its first two edges, to their left. */
  lemma FreeIsInner(p: seq<Vec>, k: nat, v: Vec, a: Vec, b: Vec, c: Vec)
    requires k < |p| && Corner(p, k) == [a, b, c] && Turn([a, b, c]) > 0.0 && InTriangle([a, b, c], v) && Free(v, p)
    ensures Side(a, b, v) > 0.0 && Side(b, c, v) > 0.0
  {
    var n := |p|;
    EarStrangersPrev(n, k);
    TurnRotates(a, b, c);
    assert NotOn(v, p[Prev(k, n)], p[k]) && NotOn(v, p[k], p[Next(k, n)]);
    if Side(a, b, v) == 0.0 {
      var t := OnFirstEdge(a, b, c, v);
    }
    if Side(b, c, v) == 0.0 {
      var t := OnFirstEdge(b, c, a, v);
    }
  }

  lemma FreeSegment(p: seq<Vec>, v: Vec, w: Vec)
    requires forall u :: Unit(u) ==> Free(At(v, w, u), p)
    ensures Untouched(p, v, w)
  {
    forall i: nat, t, u | i < |p| && Unit(t) && Unit(u) ensures At(p[i], p[Next(i, |p|)], t) != At(v, w, u) {
      assert Free(At(v, w, u), p);
    }
  }

  /** From a free point of an ear to the middle of its third edge nothing is touched. */
  lemma ToMiddle(p: seq<Vec>, k: nat, v: Vec, a: Vec, b: Vec, c: Vec, z: Vec)
    requires Simple(p) && |p| >= 4 && k < |p| && OpenEar(p, k) && Corner(p, k) == [a, b, c]
    requires InTriangle([a, b, c], v) && Side(a, b, v) > 0.0 && Side(b, c, v) > 0.0 && z == At(a, c, 0.5)
    ensures Untouched(p, v, z) && Free(z, p)
  {
    MiddleSides(a, b, c, z);
    forall u | Unit(u) ensures Free(At(v, z, u), p) {
      var x := At(v, z, u);
      SideAffine(a, b, v, z, u);
      SideAffine(b, c, v, z, u);
      SideAffine(c, a, v, z, u);
      BothPositive(Side(a, b, v), Side(a, b, z), u);
      BothPositive(Side(b, c, v), Side(b, c, z), u);
      StaysUp(Side(c, a, v), Side(c, a, z), u);
      InnerIsFree(p, k, x, a, b, c);
    }
    FreeSegment(p, v, z);
    InnerIsFree(p, k, z, a, b, c);
  }

  lemma MiddleSides(a: Vec, b: Vec, c: Vec, z: Vec)
    requires Turn([a, b, c]) > 0.0 && z == At(a, c, 0.5)
    ensures Side(a, b, z) > 0.0 && Side(b, c, z) > 0.0 && Side(c, a, z) == 0.0
  {
    TurnRotates(a, b, c);
    SideAffine(a, b, a, c, 0.5);
    SideAffine(b, c, a, c, 0.5);
    SideAffine(c, a, a, c, 0.5);
    SidesOfVertices(a, b, c);
    SidesOfVertices(b, c, a);
    SidesOfVertices(c, a, b);
  }

  lemma BothPositive(x: real, y: real, u: real)
    requires x > 0.0 && y > 0.0 && Unit(u)
    ensures Mix(x, y, u) > 0.0
  {
    if u < 1.0 { StillPositive(x, y, u); }
  }

  /** In a given direction from a free point, a stretch that touches nothing. */
  lemma {:induction false} FreeStretch(p: seq<Vec>, z: Vec, r: Vec, n: nat) returns (eps: real)
    requires Free(z, p) && n <= |p|
    ensures 0.0 < eps <= 1.0
    ensures forall i: nat, u :: i < n && 0.0 <= u <= eps ==> NotOn(At(z, r, u), p[i], p[Next(i, |p|)])
  {
    if n == 0 {
      eps := 1.0;
    } else {
      var before := FreeStretch(p, z, r, n - 1);
      var last := Clearance(z, r, p[n - 1], p[Next(n - 1, |p|)]);
      eps := if before <= last then before else last;
    }
  }

  lemma PartOfStretch(z: Vec, r: Vec, eps: real, u: real) returns (w: real)
    requires Unit(u) && eps >= 0.0
    ensures 0.0 <= w <= eps && At(z, At(z, r, eps), u) == At(z, r, w)
  {
    w := Between(u, eps);
    PartAlong(z.x, r.x, eps, u, w);
    PartAlong(z.y, r.y, eps, u, w);
  }

  lemma PartAlong(x: real, y: real, eps: real, u: real, w: real)
    requires w == u * eps
    ensures Along(x, Along(x, y, eps), u) == Along(x, y, w)
  {
    assert u * (eps * (y - x)) == w * (y - x);
  }

  /** Out of the ear across its third edge: a point outside, around which the polygon winds as around v. */
  lemma Escape(p: seq<Vec>, k: nat, v: Vec) returns (w: Vec)
    requires Simple(p) && |p| >= 4 && k < |p| && OpenEar(p, k) && InTriangle(Corner(p, k), v) && Free(v, p)
    ensures !InTriangle(Corner(p, k), w) && Free(w, p) && Loop(From(v), p).winding == Loop(From(w), p).winding
  {
    var a, b, c := p[Prev(k, |p|)], p[k], p[Next(k, |p|)];
    assert Corner(p, k) == [a, b, c];
    var z := At(a, c, 0.5);
    FreeIsInner(p, k, v, a, b, c);
    ToMiddle(p, k, v, a, b, c, z);
    SameWinding(p, v, z);
    w := StepOut(p, z, a, b, c);
    SameWinding(p, z, w);
  }

  lemma StepOut(p: seq<Vec>, z: Vec, a: Vec, b: Vec, c: Vec) returns (w: Vec)
    requires Turn([a, b, c]) > 0.0 && z == At(a, c, 0.5) && Free(z, p)
    ensures !InTriangle([a, b, c], w) && Free(w, p) && Untouched(p, z, w)
  {
    var r := At(b, z, 2.0);
    var eps := FreeStretch(p, z, r, |p|);
    w := At(z, r, eps);
    forall u | Unit(u) ensures Free(At(z, w, u), p) {
      var part := PartOfStretch(z, r, eps, u);
    }
    FreeSegment(p, z, w);
    MiddleSides(a, b, c, z);
    SidesOfVertices(c, a, b);
    TurnRotates(a, b, c);
    SideAffine(c, a, b, z, 2.0);
    SideAffine(c, a, z, r, eps);
    var out := Product(eps, Turn([a, b, c]));
    assert Side(c, a, r) == -Turn([a, b, c]);
    assert eps * -Turn([a, b, c]) == -out;
  }

  // ----- one direction

  /** Around free points the polygon winds zero times or s times. */
  ghost predicate Winds(p: seq<Vec>, s: int) {
    forall v {:trigger Free(v, p)} :: Free(v, p) ==> Loop(From(v), p).winding == 0 || Loop(From(v), p).winding == s
  }

  /** Off the ear a free point is free of the new edge too. */
  lemma FreeOfClipped(p: seq<Vec>, k: nat, v: Vec)
    requires |p| >= 4 && k < |p| && Turn(Corner(p, k)) > 0.0 && Free(v, p) && !InTriangle(Corner(p, k), v)
    ensures Free(v, Without(p, k))
  {
    var n, q := |p|, Without(p, k);
    var a, b, c := p[Prev(k, n)], p[k], p[Next(k, n)];
    assert Corner(p, k) == [a, b, c];
    forall i: nat | i < n - 1 ensures NotOn(v, q[i], q[Next(i, n - 1)]) {
      OldEdge(p, k, i);
      if Old(i, k) == Prev(k, n) {
        forall t | Unit(t) ensures At(a, c, t) != v { ThirdEdgeInside(a, b, c, t); }
      } else {
        assert NotOn(v, p[Old(i, k)], p[Next(Old(i, k), n)]);
      }
    }
  }

  /** Putting an ear back changes the direction of nothing. */
  lemma EarKeepsDirection(p: seq<Vec>, k: nat, s: int)
    requires Simple(p) && |p| >= 4 && k < |p| && OpenEar(p, k) && Winds(Without(p, k), s)
    ensures Winds(p, s)
  {
    forall v | Free(v, p) ensures Loop(From(v), p).winding == 0 || Loop(From(v), p).winding == s {
      var w := v;
      if InTriangle(Corner(p, k), v) {
        w := Escape(p, k, v);
      }
      FreeOfClipped(p, k, w);
      FromIsAntisymmetric(w);
      CutCorner(From(w), p, k);
      OutsideIsUnwound(w, Corner(p, k));
    }
  }

  lemma TriangleWinds(t: seq<Vec>)
    requires |t| == 3
    ensures Winds(t, if Turn(t) < 0.0 then -1 else 1)
  {
    forall v ensures var w := Loop(From(v), t).winding; w == 0 || w == if Turn(t) < 0.0 then -1 else 1 {
      if Turn(t) >= 0.0 {
        LastCountedRight(v, t);
      } else {
        assert t == [t[0], t[1], t[2]];
        TurnReverses(t[0], t[1], t[2]);
        ThreeCrossings(v, t[2], t[1], t[0]);
        WindsBack(v, t[0], t[1], t[2]);
      }
    }
  }

  /** A clipped simple polygon winds as its last triangle turns. */
  lemma {:induction false} LastGivesDirection(p: seq<Vec>, ids: seq<nat>, tris: seq<seq<Vec>>)
    requires Indices(p, ids) && DistinctIds(ids) && Clips(p, ids, tris) && Simple(Points(p, ids))
    ensures tris != [] && |Last(tris)| == 3
    ensures Winds(Points(p, ids), if Turn(Last(tris)) < 0.0 then -1 else 1)
    decreases |ids|
  {
    if |ids| > 3 {
      var k := SomeClip(p, ids, tris);
      EarIsOpen(p, ids, k);
      EarIsShortcut(Points(p, ids), k);
      ClippedIsSimple(Points(p, ids), k);
      WithoutKeepsIndices(p, ids, k);
      StillDistinct(ids, k);
      LastGivesDirection(p, Without(ids, k), tris[1..]);
      EarKeepsDirection(Points(p, ids), k, if Turn(Last(tris)) < 0.0 then -1 else 1);
    } else {
      TriangleWinds(tris[0]);
    }
  }
}
