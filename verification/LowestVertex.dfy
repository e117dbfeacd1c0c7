/** The lowest vertex of a simple polygon: what is around it, and which way the polygon turns there. */
module LowestVertex {
  import opened Roots
  import opened Planar
  import opened EarClipping
  import opened Notches
  import opened Segments
  import opened SimplePolygons
  import opened Windings
  import opened Triangulations
  import opened PolygonTurns

  /** Lower, or as low and further right. */
  predicate Below(a: Vec, b: Vec) { a.y < b.y || (a.y == b.y && a.x > b.x) }

  /** The polygon begins at its lowest vertex. */
  ghost predicate LowFirst(p: seq<Vec>) { p != [] && forall i :: 0 < i < |p| ==> Below(p[0], p[i]) }

  // ----- distinct vertices

  /** A vertex is on no edge but its own two. */
  lemma VertexOff(p: seq<Vec>, i: nat, e: nat)
    requires Simple(p) && |p| >= 4 && i < |p| && e < |p| && i != e && i != Next(e, |p|)
    ensures NotOn(p[i], p[e], p[Next(e, |p|)])
  {
    var n := |p|;
    forall t | Unit(t) ensures At(p[e], p[Next(e, n)], t) != p[i] {
      if e != Next(i, n) {
        assert Strangers(e, i, n) && Apart(p[e], p[Next(e, n)], p[i], p[Next(i, n)]);
        EndsOfEdge(p[i], p[Next(i, n)], 0.0);
      } else {
        var h := Prev(i, n);
        assert Next(h, n) == i && Strangers(e, h, n) && Apart(p[e], p[Next(e, n)], p[h], p[Next(h, n)]);
        EndsOfEdge(p[h], p[i], 1.0);
      }
    }
  }

  lemma VerticesDiffer(p: seq<Vec>, i: nat, j: nat)
    requires Simple(p) && |p| >= 4 && i < |p| && j < |p| && i != j
    ensures p[i] != p[j]
  {
    var n := |p|;
    if i != Next(j, n) {
      VertexOff(p, i, j);
      EndsOfEdge(p[j], p[Next(j, n)], 0.0);
    } else {
      VertexOff(p, j, i);
      EndsOfEdge(p[i], p[Next(i, n)], 0.0);
    }
  }

  lemma {:induction false} LowestOf(p: seq<Vec>, n: nat) returns (k: nat)
    requires 0 < n <= |p| && forall i, j :: 0 <= i < j < |p| ==> p[i] != p[j]
    ensures k < n && forall i :: 0 <= i < n && i != k ==> Below(p[k], p[i])
  {
    if n == 1 {
      k := 0;
    } else {
      k := LowestOf(p, n - 1);
      DifferentPoints(p[k], p[n - 1]);
      if Below(p[n - 1], p[k]) {
        k := n - 1;
      }
    }
  }

  lemma DifferentPoints(a: Vec, b: Vec)
    requires a != b
    ensures Below(a, b) || Below(b, a)
  {
    assert a == Vec(a.x, a.y) && b == Vec(b.x, b.y);
  }

  /** A simple polygon may be begun at its lowest vertex. */
  lemma BeginLow(p: seq<Vec>) returns (r: nat)
    requires Simple(p) && |p| >= 4
    ensures r < |p| && LowFirst(Begun(p, r)) && Simple(Begun(p, r))
  {
    forall i, j | 0 <= i < j < |p| ensures p[i] != p[j] { VerticesDiffer(p, i, j); }
    r := LowestOf(p, |p|);
    BegunAt(p, r);
    BegunIsSimple(p, r);
  }

  // ----- all is above

  /** A segment between two points above is above. */
  lemma AboveOnSegment(m: Vec, a: Vec, b: Vec)
    requires Below(m, a) && Below(m, b)
    ensures NotOn(m, a, b)
  {
    forall t | Unit(t) ensures At(a, b, t) != m {
      Mixed(a.y, b.y, t);
      Mixed(a.x, b.x, t);
      StillAbove(a.y - m.y, b.y - m.y, m.x - a.x, m.x - b.x, t);
      MixMinus(a.y, b.y, m.y, t);
      MinusMix(m.x, a.x, b.x, t);
    }
  }

  lemma StillAbove(y: real, y': real, x: real, x': real, t: real)
    requires y >= 0.0 && y' >= 0.0 && (y == 0.0 ==> x > 0.0) && (y' == 0.0 ==> x' > 0.0) && Unit(t)
    ensures Mix(y, y', t) > 0.0 || Mix(x, x', t) > 0.0
  {
    if y == 0.0 && y' == 0.0 {
      BothPositive(x, x', t);
    } else if t == 0.0 || t == 1.0 {
    } else if y > 0.0 {
      StillPositive(y, y', t);
    } else {
      StillPositive(y', y, 1.0 - t);
    }
  }

  lemma MixMinus(a: real, b: real, c: real, t: real)
    ensures Mix(a, b, t) - c == Mix(a - c, b - c, t)
  {
  }

  lemma MinusMix(c: real, a: real, b: real, t: real)
    ensures c - Mix(a, b, t) == Mix(c - a, c - b, t)
  {
  }

  /** Around the lowest point a polygon of higher vertices does not wind. */
  lemma {:induction false} NothingToTheRight(m: Vec, q: seq<Vec>, n: nat)
    requires n <= |q| && forall i :: 0 <= i < |q| ==> Below(m, q[i])
    ensures WindSum(m, q, n) == 0
  {
    if n > 0 {
      NothingToTheRight(m, q, n - 1);
      LowIsUncrossed(m, q[n - 1], q[Next(n - 1, |q|)]);
    }
  }

  lemma LowIsUncrossed(m: Vec, a: Vec, b: Vec)
    requires Below(m, a) && Below(m, b)
    ensures Crossing(m, a, b) == 0
  {
    CrossingAtHeight(m, a, b);
    if Straddles(m, a, b) {
      MeetAtEnds(a, b);
    }
  }

  // ----- around the lowest vertex

  lemma RestIsAbove(p: seq<Vec>)
    requires LowFirst(p)
    ensures Without(p, 0) == p[1..] && forall i :: 0 <= i < |p| - 1 ==> Below(p[0], Without(p, 0)[i])
  {
    assert p[..0] == [];
  }

  /** A stretch from the lowest vertex in any direction that is off the rest of the polygon. */
  lemma NearLowest(p: seq<Vec>, r: Vec) returns (s: Vec, eps: real)
    requires LowFirst(p) && |p| >= 3
    ensures 0.0 < eps <= 1.0 && s == At(p[0], r, eps) && Free(s, Without(p, 0))
    ensures Loop(From(s), p).winding == Loop(From(s), Corner(p, 0)).winding
  {
    var m, q := p[0], Without(p, 0);
    RestIsAbove(p);
    forall i: nat | i < |q| ensures NotOn(m, q[i], q[Next(i, |q|)]) {
      AboveOnSegment(m, q[i], q[Next(i, |q|)]);
    }
    eps := FreeStretch(q, m, r, |q|);
    s := At(m, r, eps);
    forall u | Unit(u) ensures Free(At(m, s, u), q) {
      var part := PartOfStretch(m, r, eps, u);
    }
    FreeSegment(q, m, s);
    EndsOfEdge(m, s, 1.0);
    SameWinding(q, m, s);
    NothingToTheRight(m, q, |q|);
    LoopIsWindSum(m, q);
    FromIsAntisymmetric(s);
    CutCorner(From(s), p, 0);
  }

  /** Strictly inside, the triangle winds once. */
  lemma StrictlyWound(v: Vec, a: Vec, b: Vec, c: Vec)
    requires StrictlyInside(a, b, c, v)
    ensures Loop(From(v), [a, b, c]).winding == 1
  {
    TriangleLoop(From(v), a, b, c);
    StrictlyStraddled(v, a, b, c);
    InteriorWinding(v, a, b, c);
  }

  lemma StrictlyStraddled(v: Vec, a: Vec, b: Vec, c: Vec)
    requires StrictlyInside(a, b, c, v)
    ensures Straddles(v, a, b) || Straddles(v, b, c)
  {
    VerticalBalance(a, b, c, v);
    NotAllAbove(Side(a, b, v), Side(b, c, v), Side(c, a, v), c.y - v.y, a.y - v.y, b.y - v.y);
    LevelSide(a, b, v);
  }

  lemma LevelSide(a: Vec, b: Vec, v: Vec)
    ensures a.y == v.y && b.y == v.y ==> Side(a, b, v) == 0.0
  {
  }

  lemma NotAllAbove(s: real, t: real, u: real, x: real, y: real, z: real)
    requires s > 0.0 && t > 0.0 && u > 0.0 && s * x + t * y + u * z == 0.0
    ensures !(x > 0.0 && y > 0.0 && z > 0.0)
    ensures x <= 0.0 && y <= 0.0 && z <= 0.0 ==> x == 0.0 && y == 0.0 && z == 0.0
  {
    ProductSign(s, x);
    ProductSign(t, y);
    ProductSign(u, z);
  }

  lemma ProductSign(s: real, x: real)
    requires s > 0.0
    ensures x > 0.0 ==> s * x > 0.0
    ensures x < 0.0 ==> s * x < 0.0
  {
    if x > 0.0 { var p := Product(s, x); } else if x < 0.0 { var p := Product(s, -x); }
  }

  /** A point strictly inside a triangle, towards its middle vertex. */
  lemma InnerPoint(a: Vec, b: Vec, c: Vec) returns (r: Vec)
    requires Turn([a, b, c]) > 0.0
    ensures StrictlyInside(a, b, c, r)
  {
    var z := At(a, c, 0.5);
    r := At(b, z, 0.5);
    MiddleSides(a, b, c, z);
    SidesOfVertices(a, b, c);
    SidesOfVertices(b, c, a);
    SidesOfVertices(c, a, b);
    TurnRotates(a, b, c);
    SideAffine(a, b, b, z, 0.5);
    SideAffine(b, c, b, z, 0.5);
    SideAffine(c, a, b, z, 0.5);
  }

  /** From the middle vertex towards an inner point all is strictly inside. */
  lemma InwardIsInner(a: Vec, b: Vec, c: Vec, r: Vec, u: real)
    requires Turn([a, b, c]) > 0.0 && StrictlyInside(a, b, c, r) && 0.0 < u <= 1.0
    ensures StrictlyInside(a, b, c, At(b, r, u))
  {
    SidesOfVertices(a, b, c);
    SidesOfVertices(b, c, a);
    SidesOfVertices(c, a, b);
    TurnRotates(a, b, c);
    SideAffine(a, b, b, r, u);
    SideAffine(b, c, b, r, u);
    SideAffine(c, a, b, r, u);
    var p := Product(u, Side(a, b, r));
    var q := Product(u, Side(b, c, r));
    BothPositive(Turn([a, b, c]), Side(c, a, r), u);
  }

  lemma FreeAtCorner(p: seq<Vec>, v: Vec)
    requires |p| >= 3 && Free(v, Without(p, 0))
    requires Side(p[|p| - 1], p[0], v) != 0.0 && Side(p[0], p[1], v) != 0.0
    ensures Free(v, p)
  {
    var n, q := |p|, Without(p, 0);
    forall i: nat, t | i < n && Unit(t) ensures At(p[i], p[Next(i, n)], t) != v {
      if 0 < i < n - 1 {
        assert NotOn(v, q[i - 1], q[Next(i - 1, n - 1)]);
      } else {
        OnOwnEdge(p[i], p[Next(i, n)], t);
      }
    }
  }

  /** Turning left at its lowest vertex, a polygon winds once around something. */
  lemma HasInside(p: seq<Vec>) returns (v: Vec)
    requires LowFirst(p) && |p| >= 3 && Turn(Corner(p, 0)) > 0.0
    ensures Free(v, p) && Loop(From(v), p).winding == 1
  {
    var a, b, c := p[|p| - 1], p[0], p[1];
    assert Corner(p, 0) == [a, b, c];
    var r := InnerPoint(a, b, c);
    var eps;
    v, eps := NearLowest(p, r);
    InwardIsInner(a, b, c, r, eps);
    StrictlyWound(v, a, b, c);
    FreeAtCorner(p, v);
  }

  /** Beside the corner at its lowest vertex a polygon does not wind. */
  lemma UnwoundBeside(p: seq<Vec>, r: Vec) returns (s: Vec, eps: real)
    requires LowFirst(p) && |p| >= 3 && Turn(Corner(p, 0)) > 0.0
    requires Side(p[|p| - 1], p[0], r) < 0.0 || Side(p[0], p[1], r) < 0.0
    ensures 0.0 < eps <= 1.0 && s == At(p[0], r, eps) && Loop(From(s), p).winding == 0
  {
    var a, b, c := p[|p| - 1], p[0], p[1];
    assert Corner(p, 0) == [a, b, c];
    s, eps := NearLowest(p, r);
    SidesOfVertices(a, b, c);
    SidesOfVertices(b, c, a);
    SideAffine(a, b, b, r, eps);
    SideAffine(b, c, b, r, eps);
    if Side(a, b, r) < 0.0 {
      var q := Product(eps, -Side(a, b, r));
    } else {
      var q := Product(eps, -Side(b, c, r));
    }
    OutsideIsUnwound(s, [a, b, c]);
  }

  // ----- the lowest corner is not flat

  /** Of two points on a ray from m the nearer is on the way to the farther. */
  lemma OnTheWay(m: Vec, a: Vec, c: Vec, f: real, g: real) returns (t: real)
    requires 0.0 < f <= g && Side(m, c, a) == 0.0
    requires (f == a.y - m.y && g == c.y - m.y)
          || (a.y == m.y == c.y && f == m.x - a.x && g == m.x - c.x)
    ensures Unit(t) && a == At(m, c, t)
  {
    t := f / g;
    QuotientTimes(f, g, t);
    Quotient(t, g, f);
    if a.y == m.y {
      assert t * (c.x - m.x) == -(t * g);
      assert t * (c.y - m.y) == 0.0;
    } else {
      Proportional(c.x - m.x, g, a.x - m.x, f, t);
    }
    assert a == Vec(a.x, a.y);
  }

  lemma Proportional(ex: real, g: real, fx: real, f: real, t: real)
    requires g > 0.0 && t * g == f && ex * f - g * fx == 0.0
    ensures fx == t * ex
  {
    assert g * (fx - t * ex) == g * fx - (t * g) * ex;
    NoFactor(g, fx - t * ex);
  }

  lemma SameLevel(m: Vec, a: Vec, c: Vec)
    requires Below(m, a) && Below(m, c) && Side(m, c, a) == 0.0
    ensures a.y == m.y <==> c.y == m.y
  {
    LevelCrossing(c.x - m.x, c.y - m.y, a.x - m.x, a.y - m.y);
  }

  lemma LevelCrossing(ex: real, ey: real, fx: real, fy: real)
    requires ex * fy - ey * fx == 0.0 && (ey == 0.0 ==> ex < 0.0) && (fy == 0.0 ==> fx < 0.0)
    ensures fy == 0.0 <==> ey == 0.0
  {
    ZeroFactor(ex, fy);
    ZeroFactor(fx, ey);
  }

  lemma ZeroFactor(x: real, y: real)
    ensures x < 0.0 && x * y == 0.0 ==> y == 0.0
  {
    if x < 0.0 && x * y == 0.0 {
      assert -x * y == 0.0;
      NoFactor(-x, y);
    }
  }

  lemma LowestTurns(p: seq<Vec>)
    requires Simple(p) && |p| >= 4 && LowFirst(p)
    ensures Turn(Corner(p, 0)) != 0.0
  {
    var n := |p|;
    var a, m, c := p[n - 1], p[0], p[1];
    assert Corner(p, 0) == [a, m, c];
    if Turn([a, m, c]) == 0.0 {
      TurnRotates(a, m, c);
      SidesOfVertices(m, c, a);
      SameLevel(m, a, c);
      SameLevelSides(m, a, c);
      var f := if a.y == m.y then m.x - a.x else a.y - m.y;
      var g := if c.y == m.y then m.x - c.x else c.y - m.y;
      if f <= g {
        var t := OnTheWay(m, a, c, f, g);
        VertexOff(p, n - 1, 0);
      } else {
        var t := OnTheWay(m, c, a, g, f);
        VertexOff(p, 1, n - 1);
        FlipAlong(m, a, 1.0 - t);
      }
    }
  }

  lemma SameLevelSides(m: Vec, a: Vec, c: Vec)
    ensures Side(m, a, c) == -Side(m, c, a)
  {
  }
}
