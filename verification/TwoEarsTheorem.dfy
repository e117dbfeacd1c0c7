/** A simple polygon that runs counterclockwise has two ears that are not neighbours, so convex_parts never gets stuck
    on one (workbench/research/support/newhug.py, clean_polygon and convex_parts). */
module TwoEarsTheorem {
  import opened Roots
  import opened Planar
  import opened EarClipping
  import opened Notches
  import opened Segments
  import opened SimplePolygons
  import opened Windings
  import opened Triangulations
  import opened AreaSign
  import opened CleanPolygons
  import opened PolygonTurns
  import opened LowestVertex
  import opened Diagonals
  import opened CutParts

  /** Begun at its lowest vertex the polygon turns left there. */
  ghost predicate Counterclockwise(p: seq<Vec>) {
    if |p| == 3 then Turn(p) > 0.0
    else p != [] && exists r: nat :: LowFirst(Begun(p, r)) && Turn(Corner(Begun(p, r), 0)) > 0.0
  }

  // ----- ears of a part

  lemma StrictlyFree(q: seq<Vec>, e: nat, x: Vec)
    requires |q| >= 4 && e < |q| && Free(x, q)
    requires Side(q[Next(e, |q|)], q[Prev(e, |q|)], x) != 0.0
    ensures Free(x, Without(q, e))
  {
    var n, rest := |q|, Without(q, e);
    forall i: nat, t | i < n - 1 && Unit(t) ensures At(rest[i], rest[Next(i, n - 1)], t) != x {
      OldEdge(q, e, i);
      if Old(i, e) == Prev(e, n) {
        FlipAlong(q[Next(e, n)], q[Prev(e, n)], t);
        OnOwnEdge(q[Next(e, n)], q[Prev(e, n)], 1.0 - t);
        FlipAlong(q[Prev(e, n)], q[Next(e, n)], 1.0 - t);
      } else {
        assert NotOn(x, q[Old(i, e)], q[Next(Old(i, e), n)]);
      }
    }
  }

  /** Strictly inside an ear the polygon winds once more than without it. */
  lemma InsideEar(q: seq<Vec>, e: nat, v: Vec) returns (x: Vec)
    requires Simple(q) && |q| >= 4 && e < |q| && OpenEar(q, e) && Free(v, q) && InTriangle(Corner(q, e), v)
    ensures Loop(From(v), q).winding == Loop(From(x), Without(q, e)).winding + 1 && Free(x, Without(q, e))
  {
    var a, b, c := q[Prev(e, |q|)], q[e], q[Next(e, |q|)];
    assert Corner(q, e) == [a, b, c];
    FreeIsInner(q, e, v, a, b, c);
    x := At(v, b, 0.5);
    TowardsMiddle(a, b, c, v, 0.5);
    forall u | Unit(u) ensures Free(At(v, x, u), q) {
      TowardsMiddle(a, b, c, v, u * 0.5);
      HalfWay(v, b, u);
      InnerIsFree(q, e, At(v, x, u), a, b, c);
    }
    FreeSegment(q, v, x);
    EndsOfEdge(v, x, 1.0);
    SameWinding(q, v, x);
    StrictlyFree(q, e, x);
    FromIsAntisymmetric(x);
    CutCorner(From(x), q, e);
    StrictlyWound(x, a, b, c);
  }

  lemma HalfWay(v: Vec, b: Vec, u: real)
    ensures At(v, At(v, b, 0.5), u) == At(v, b, u * 0.5)
  {
    PartAlong(v.x, b.x, 0.5, u, u * 0.5);
    PartAlong(v.y, b.y, 0.5, u, u * 0.5);
  }

  lemma TowardsMiddle(a: Vec, b: Vec, c: Vec, v: Vec, u: real)
    requires Side(a, b, v) > 0.0 && Side(b, c, v) > 0.0 && Side(c, a, v) >= 0.0 && Turn([a, b, c]) > 0.0
    requires 0.0 <= u <= 0.5
    ensures var x := At(v, b, u);
      (Side(a, b, x) > 0.0 && Side(b, c, x) > 0.0 && Side(c, a, x) >= 0.0 && (u > 0.0 ==> Side(c, a, x) > 0.0))
  {
    SideAffine(a, b, v, b, u);
    SideAffine(b, c, v, b, u);
    SideAffine(c, a, v, b, u);
    SidesOfVertices(a, b, c);
    SidesOfVertices(b, c, a);
    SidesOfVertices(c, a, b);
    TurnRotates(a, b, c);
    StillPositive(Side(a, b, v), 0.0, u);
    StillPositive(Side(b, c, v), 0.0, u);
    if u > 0.0 {
      StillPositive(Turn([a, b, c]), Side(c, a, v), 1.0 - u);
    }
  }

  /** A point around which a part does not wind is in no ear of it. */
  lemma UnwoundOffEar(q: seq<Vec>, e: nat, v: Vec)
    requires Simple(q) && |q| >= 3 && e < |q| && OpenEar(q, e) && Free(v, q) && Loop(From(v), q).winding == 0
    requires |q| >= 4 ==> Winds(Without(q, e), 1)
    ensures !InTriangle(Corner(q, e), v)
  {
    if InTriangle(Corner(q, e), v) {
      if |q| >= 4 {
        var x := InsideEar(q, e, v);
      } else {
        InsideTriangle(q, v);
      }
    }
  }

  lemma InsideTriangle(q: seq<Vec>, v: Vec)
    requires |q| == 3 && Turn(q) > 0.0 && Free(v, q)
    ensures InTriangle(q, v) ==> Loop(From(v), q).winding == 1
  {
    var a, b, c := q[0], q[1], q[2];
    assert q == [a, b, c];
    TurnRotates(a, b, c);
    assert NotOn(v, q[0], q[Next(0, 3)]) && NotOn(v, q[1], q[Next(1, 3)]) && NotOn(v, q[2], q[Next(2, 3)]);
    if InTriangle(q, v) {
      if Side(a, b, v) == 0.0 { var t := OnFirstEdge(a, b, c, v); }
      if Side(b, c, v) == 0.0 { var t := OnFirstEdge(b, c, a, v); }
      if Side(c, a, v) == 0.0 { var t := OnFirstEdge(c, a, b, v); }
      StrictlyWound(v, a, b, c);
    }
  }

  // ----- above the lowest point

  lemma HorizontalBalance(a: Vec, b: Vec, c: Vec, v: Vec)
    ensures Side(a, b, v) * (v.x - c.x) + Side(b, c, v) * (v.x - a.x) + Side(c, a, v) * (v.x - b.x) == 0.0
  {
  }

  /** A triangle of higher vertices does not contain the lowest one. */
  lemma NotInUpperTriangle(m: Vec, a: Vec, b: Vec, c: Vec)
    requires Below(m, a) && Below(m, b) && Below(m, c) && Turn([a, b, c]) > 0.0
    ensures !InTriangle([a, b, c], m)
  {
    if InTriangle([a, b, c], m) {
      var s, t, u := Side(a, b, m), Side(b, c, m), Side(c, a, m);
      SidesAddUp(a, b, c, m);
      VerticalBalance(a, b, c, m);
      HorizontalBalance(a, b, c, m);
      Unbalanced(s, t, u, c.y - m.y, a.y - m.y, b.y - m.y, m.x - c.x, m.x - a.x, m.x - b.x);
    }
  }

  lemma Unbalanced(s: real, t: real, u: real, y1: real, y2: real, y3: real, x1: real, x2: real, x3: real)
    requires s >= 0.0 && t >= 0.0 && u >= 0.0 && s + t + u > 0.0 && y1 >= 0.0 && y2 >= 0.0 && y3 >= 0.0
    requires (y1 == 0.0 ==> x1 > 0.0) && (y2 == 0.0 ==> x2 > 0.0) && (y3 == 0.0 ==> x3 > 0.0)
    ensures s * y1 + t * y2 + u * y3 > 0.0 || s * x1 + t * x2 + u * x3 > 0.0
  {
    OneWeight(s, y1, x1);
    OneWeight(t, y2, x2);
    OneWeight(u, y3, x3);
  }

  lemma OneWeight(s: real, y: real, x: real)
    requires s >= 0.0 && y >= 0.0 && (y == 0.0 ==> x > 0.0)
    ensures s * y >= 0.0 && (s * y == 0.0 ==> s * x >= 0.0) && (s > 0.0 && s * y == 0.0 ==> s * x > 0.0)
  {
    Nonnegative(s, y);
    if s > 0.0 && y > 0.0 {
      var p := Product(s, y);
    } else if s > 0.0 {
      var p := Product(s, x);
    } else {
      assert s == 0.0;
    }
  }

  // ----- the theorem

  /** A polygon that does not run counterclockwise winds backwards. */
  lemma OtherwiseBackwards(p: seq<Vec>)
    requires Simple(p) && |p| >= 3 && !Counterclockwise(p)
    ensures Winds(p, -1)
    decreases |p|, 4
  {
    if |p| == 3 {
      TriangleWinds(p);
      if Turn(p) == 0.0 {
        forall v ensures Loop(From(v), p).winding == 0 { FlatWinding(v, p); }
      }
    } else {
      var r := BeginLow(p);
      var q := Begun(p, r);
      LowestTurns(q);
      BackwardsIsSimple(q);
      BackwardsCorner(q);
      assert LowFirst(Backwards(q)) && Begun(Backwards(q), 0) == Backwards(q);
      WindsOnce(Backwards(q));
      BackwardsWinds(q);
      BegunWinds(p, r, -1);
    }
  }

  /** Clipping an ear leaves a polygon that runs the same way. */
  lemma RestIsCounterclockwise(p: seq<Vec>, k: nat)
    requires Simple(p) && |p| >= 4 && Counterclockwise(p) && k < |p| && OpenEar(p, k)
    ensures Simple(Without(p, k)) && Counterclockwise(Without(p, k))
    decreases |p|, 0
  {
    EarIsShortcut(p, k);
    ClippedIsSimple(p, k);
    if !Counterclockwise(Without(p, k)) {
      OtherwiseBackwards(Without(p, k));
      EarKeepsDirection(p, k, -1);
      var r: nat :| LowFirst(Begun(p, r)) && Turn(Corner(Begun(p, r), 0)) > 0.0;
      var v := HasInside(Begun(p, r));
      BegunWinding(p, r, v);
    }
  }

  /** A simple polygon that runs counterclockwise winds once around what it winds around. */
  lemma WindsOnce(p: seq<Vec>)
    requires Simple(p) && |p| >= 3 && Counterclockwise(p)
    ensures Winds(p, 1)
    decreases |p|, 3
  {
    if |p| == 3 {
      TriangleWinds(p);
    } else {
      TwoEarsOf(p);
      var e: nat :| e < |p| && OpenEar(p, e);
      RestIsCounterclockwise(p, e);
      WindsOnce(Without(p, e));
      EarKeepsDirection(p, e, 1);
    }
  }

  /** A simple polygon of more than three vertices that runs counterclockwise has two ears that are not neighbours. */
  lemma TwoEarsOf(p: seq<Vec>)
    requires Simple(p) && |p| >= 4 && Counterclockwise(p)
    ensures TwoEars(p)
    decreases |p|, 2
  {
    var r: nat :| LowFirst(Begun(p, r)) && Turn(Corner(Begun(p, r), 0)) > 0.0;
    var q := Begun(p, r);
    BegunIsSimple(p, r);
    if OpenEar(q, 0) {
      EarAtLowest(q);
    } else {
      var j := SomeDeepest(q);
      var e := LeftEar(q, j);
      var f := RightEar(q, j);
      assert Strangers(e, f, |q|);
    }
    BegunTwoEars(p, r);
  }

  /** An ear of the rest that is not beside the lowest vertex is an ear with it. */
  lemma EarWithLowest(q: seq<Vec>, e: nat)
    requires Set(q) && 0 < e < |q| - 2 && OpenEar(Without(q, 0), e)
    ensures OpenEar(q, e + 1)
  {
    var n, rest := |q|, Without(q, 0);
    RestIsAbove(q);
    assert Corner(q, e + 1) == Corner(rest, e) == [q[e], q[e + 1], q[e + 2]];
    NotInUpperTriangle(q[0], q[e], q[e + 1], q[e + 2]);
    forall m: nat | m < n && m != e && m != e + 1 && m != e + 2 ensures !InTriangle(Corner(q, e + 1), q[m]) {
      if m > 0 {
        assert !InTriangle(Corner(rest, e), rest[m - 1]);
      }
    }
  }

  lemma TriangleIsEar(t: seq<Vec>)
    requires |t| == 3 && Turn(t) > 0.0
    ensures OpenEar(t, 1)
  {
    assert Corner(t, 1) == t;
  }

  /** Of two ears that are not neighbours one is off the last edge. */
  lemma OffLastEdge(q: seq<Vec>) returns (e: nat)
    requires TwoEars(q)
    ensures 0 < e < |q| - 1 && OpenEar(q, e)
  {
    var n := |q|;
    var i: nat, j: nat :| i < n && j < n && Strangers(i, j, n) && OpenEar(q, i) && OpenEar(q, j);
    e := if 0 < i < n - 1 then i else j;
  }

  lemma EarAtLowest(q: seq<Vec>)
    requires Set(q) && OpenEar(q, 0)
    ensures TwoEars(q)
    decreases |q|, 1
  {
    var rest := Without(q, 0);
    assert Begun(q, 0) == q && Counterclockwise(q);
    RestIsCounterclockwise(q, 0);
    var e: nat := 1;
    if |q| == 4 {
      TriangleIsEar(rest);
    } else {
      TwoEarsOf(rest);
      e := OffLastEdge(rest);
    }
    EarWithLowest(q, e);
    assert Strangers(0, e + 1, |q|);
  }

  /** An ear of the part that is not at the lowest vertex, nor at the other one given beside it. */
  lemma PartEar(q: seq<Vec>, other: nat) returns (e: nat)
    requires Simple(q) && |q| >= 3 && LowFirst(q) && Turn(Corner(q, 0)) > 0.0 && (other == 1 || other == |q| - 1)
    ensures 0 < e < |q| && e != other && OpenEar(q, e) && (|q| >= 4 ==> Winds(Without(q, e), 1))
    decreases |q|, 4
  {
    if |q| == 3 {
      e := 3 - other;
      TurnRotates(q[0], q[1], q[2]);
    } else {
      assert Begun(q, 0) == q && Counterclockwise(q);
      TwoEarsOf(q);
      var i: nat, j: nat :| i < |q| && j < |q| && Strangers(i, j, |q|) && OpenEar(q, i) && OpenEar(q, j);
      e := if i != 0 && i != other then i else j;
      RestIsCounterclockwise(q, e);
      WindsOnce(Without(q, e));
    }
  }

  lemma LeftEar(p: seq<Vec>, j: nat) returns (e: nat)
    requires Set(p) && Deepest(p, j)
    ensures 0 < e < j && OpenEar(p, e)
    decreases |p|, 1
  {
    var q := LeftPart(p, j);
    PartsAreSet(p, j);
    e := PartEar(q, j);
    assert Corner(p, e) == Corner(q, e);
    forall m: nat | m < |p| && m != e - 1 && m != e && m != e + 1 ensures !InTriangle(Corner(p, e), p[m]) {
      if m > j {
        LeftFree(p, j, m);
        LeftUnwound(p, j, m);
        UnwoundOffEar(q, e, p[m]);
      } else {
        assert !InTriangle(Corner(q, e), q[m]);
      }
    }
  }

  lemma RightCorner(p: seq<Vec>, j: nat, e: nat)
    requires 0 < j < |p| && 2 <= e <= |p| - j
    ensures Corner(p, j + e - 1) == Corner(RightPart(p, j), e)
  {
    RightEdge(p, j, e);
    RightEdge(p, j, e - 1);
  }

  /** Where a vertex that is not on the left chain is in the right part. */
  function InRight(j: nat, m: nat): nat
    requires m == 0 || m >= j
  {
    if m == 0 then 0 else m - j + 1
  }

  lemma RightVertex(p: seq<Vec>, j: nat, e: nat, m: nat)
    requires 0 < j < |p| && 2 <= e <= |p| - j && m < |p| && (m == 0 || m >= j)
    requires m != j + e - 2 && m != j + e - 1 && m != Next(j + e - 1, |p|)
    ensures var q, i := RightPart(p, j), InRight(j, m);
      (i < |q| && q[i] == p[m] && i != Prev(e, |q|) && i != e && i != Next(e, |q|))
  {
  }

  lemma RightVertexOff(p: seq<Vec>, j: nat, e: nat, m: nat)
    requires 0 < j < |p| && 2 <= e <= |p| - j && m < |p| && (m == 0 || m >= j) && OpenEar(RightPart(p, j), e)
    requires m != j + e - 2 && m != j + e - 1 && m != Next(j + e - 1, |p|)
    ensures !InTriangle(Corner(RightPart(p, j), e), p[m])
  {
    RightVertex(p, j, e, m);
  }

  lemma LeftVertexOff(p: seq<Vec>, j: nat, e: nat, m: nat)
    requires Set(p) && Deepest(p, j) && 0 < m < j && e < |p| - j + 1 && OpenEar(RightPart(p, j), e)
    requires |RightPart(p, j)| >= 4 ==> Winds(Without(RightPart(p, j), e), 1)
    ensures !InTriangle(Corner(RightPart(p, j), e), p[m])
  {
    PartsAreSet(p, j);
    RightFree(p, j, m);
    RightUnwound(p, j, m);
    UnwoundOffEar(RightPart(p, j), e, p[m]);
  }

  lemma RightEar(p: seq<Vec>, j: nat) returns (k: nat)
    requires Set(p) && Deepest(p, j)
    ensures j < k < |p| && OpenEar(p, k)
    decreases |p|, 1
  {
    PartsAreSet(p, j);
    var e := PartEar(RightPart(p, j), 1);
    k := j + e - 1;
    RightCorner(p, j, e);
    forall m: nat | m < |p| && m != Prev(k, |p|) && m != k && m != Next(k, |p|)
      ensures !InTriangle(Corner(p, k), p[m])
    {
      if 0 < m < j {
        LeftVertexOff(p, j, e, m);
      } else {
        RightVertexOff(p, j, e, m);
      }
    }
  }
}
