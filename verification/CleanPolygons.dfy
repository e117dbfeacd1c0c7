/** What clean_polygon hands to convex_parts is triangulated soundly: a simple polygon of positive area whose ears come
    off is covered by its triangles once where it is and nowhere else
    (workbench/research/support/newhug.py, clean_polygon and convex_parts). */
module CleanPolygons {
  import opened Roots
  import opened Planar
  import opened EarClipping
  import opened Notches
  import opened Segments
  import opened SimplePolygons
  import opened Windings
  import opened Triangulations
  import opened AreaSign

  // ----- free points at a height of no vertex

  /** A stretch to the right of x where no edge is met. */
  lemma {:induction false} GapAbove(p: seq<Vec>, h: real, x: real, n: nat) returns (right: real)
    requires n <= |p|
    ensures right > x
    ensures forall i: nat :: i < n ==> Meet(h, p[i], p[Next(i, |p|)]) <= x || Meet(h, p[i], p[Next(i, |p|)]) > right
  {
    if n == 0 {
      right := x + 1.0;
    } else {
      right := GapAbove(p, h, x, n - 1);
      var y := Meet(h, p[n - 1], p[Next(n - 1, |p|)]);
      right := if x < y <= right then (x + y) / 2.0 else right;
    }
  }

  lemma OnEdgeIsMet(a: Vec, b: Vec, t: real, x: real, h: real)
    requires a.y != h && Unit(t) && At(a, b, t) == Vec(x, h)
    ensures a.y != b.y && Meet(h, a, b) == x
  {
    LevelStays(a.y, b.y, t);
    var k := MeetBySlope(a, b);
    OnSlope(a.x, a.y, b.x, b.y, k, t, x, h);
  }

  lemma OnSlope(x0: real, y0: real, x1: real, y1: real, k: real, t: real, x: real, h: real)
    requires k * (y1 - y0) == x1 - x0 && Along(x0, x1, t) == x && Along(y0, y1, t) == h
    ensures x == x0 + k * (h - y0)
  {
    assert h - y0 == t * (y1 - y0);
    SlopeAlong(k, y1 - y0, x1 - x0, t);
    assert k * (h - y0) == k * (t * (y1 - y0));
  }

  lemma LevelStays(x: real, y: real, t: real)
    ensures x == y ==> Along(x, y, t) == x
  {
  }

  lemma SlopeAlong(k: real, rise: real, run: real, t: real)
    requires k * rise == run
    ensures k * (t * rise) == t * run
  {
    assert k * (t * rise) == t * (k * rise);
  }

  lemma UnmetIsFree(p: seq<Vec>, h: real, x: real)
    requires Generic(h, p) && forall i: nat :: i < |p| ==> Meet(h, p[i], p[Next(i, |p|)]) != x
    ensures Free(Vec(x, h), p)
  {
    forall i: nat, t | i < |p| && Unit(t) ensures At(p[i], p[Next(i, |p|)], t) != Vec(x, h) {
      if At(p[i], p[Next(i, |p|)], t) == Vec(x, h) {
        OnEdgeIsMet(p[i], p[Next(i, |p|)], t, x, h);
      }
    }
  }

  lemma {:induction false} SameSum(p: seq<Vec>, v: Vec, w: Vec, n: nat)
    requires n <= |p| && v.y == w.y && v.x <= w.x
    requires forall i: nat ::
      i < |p| ==> Meet(v.y, p[i], p[Next(i, |p|)]) <= v.x || Meet(v.y, p[i], p[Next(i, |p|)]) > w.x
    ensures WindSum(v, p, n) == WindSum(w, p, n)
  {
    if n > 0 {
      SameSum(p, v, w, n - 1);
      CrossingAtHeight(v, p[n - 1], p[Next(n - 1, |p|)]);
      CrossingAtHeight(w, p[n - 1], p[Next(n - 1, |p|)]);
    }
  }

  /** Winding backwards around its free points a polygon winds nowhere positively at the heights of no vertex. */
  lemma BackwardsIsNonpositive(p: seq<Vec>, h: real)
    requires p != [] && Winds(p, -1) && Generic(h, p)
    ensures NonpositiveAt(h, p)
  {
    forall x: real ensures WindSum(Vec(x, h), p, |p|) <= 0 {
      var right := GapAbove(p, h, x, |p|);
      UnmetIsFree(p, h, right);
      SameSum(p, Vec(x, h), Vec(right, h), |p|);
      LoopIsWindSum(Vec(right, h), p);
    }
  }

  lemma BackwardsHasNoArea(p: seq<Vec>, v: Vec)
    requires p != [] && Winds(p, -1)
    ensures Loop(From(v), p).area2 <= 0.0
  {
    forall h | Generic(h, p) ensures NonpositiveAt(h, p) { BackwardsIsNonpositive(p, h); }
    AreaNonpositive(p, v);
  }

  // ----- the theorem

  lemma AllIds(p: seq<Vec>, ids: seq<nat>)
    requires ids == seq(|p|, k => k)
    ensures Indices(p, ids) && DistinctIds(ids) && Points(p, ids) == p
  {
  }

  /** Clipped with positive area, a simple polygon winds once around what is inside and its last triangle turns left. */
  lemma PositiveAreaTurnsLeft(p: seq<Vec>, ids: seq<nat>, tris: seq<seq<Vec>>, v: Vec)
    requires ids == seq(|p|, k => k) && Simple(p) && Clips(p, ids, tris) && Loop(From(v), p).area2 > 0.0
    ensures tris != [] && |Last(tris)| == 3 && Turn(Last(tris)) >= 0.0 && Winds(p, 1)
  {
    AllIds(p, ids);
    LastGivesDirection(p, ids, tris);
    if Turn(Last(tris)) < 0.0 {
      BackwardsHasNoArea(p, v);
    }
  }

  /** A simple polygon of positive area is cut into triangles that cover it exactly: every point lies in as many of them
      as the polygon winds around it, and off its edges that is once inside and never outside. */
  lemma CleanPolygonIsPartitioned(vertices: seq<Vec>, tris: seq<seq<Vec>>)
    requires Simple(vertices) && Loop(From(ZERO), vertices).area2 > 0.0
    requires Clips(Cleaned(vertices), seq(|Cleaned(vertices)|, k => k), tris)
    ensures CoversExactly(vertices, tris)
    ensures forall v {:trigger Free(v, Cleaned(vertices))} ::
      Free(v, Cleaned(vertices)) ==> Cover(v, tris) == if Inside(v, vertices) then 1 else 0
  {
    var p := Cleaned(vertices);
    CleanedIsSimple(vertices);
    CleanedKeepsRegion(vertices);
    assert Loop(From(ZERO), p) == Loop(From(ZERO), vertices);
    PositiveAreaTurnsLeft(p, seq(|p|, k => k), tris, ZERO);
    CoversExactlyIffLastTurnsLeft(vertices, p, tris);
    forall v | Free(v, p) ensures Cover(v, tris) == if Inside(v, vertices) then 1 else 0 {
      CoveredOnce(vertices, p, tris, v);
    }
  }

  lemma CoveredOnce(vertices: seq<Vec>, p: seq<Vec>, tris: seq<seq<Vec>>, v: Vec)
    requires Winds(p, 1) && Free(v, p) && CoversExactly(vertices, tris) && Loop(From(v), p) == Loop(From(v), vertices)
    ensures Cover(v, tris) == if Inside(v, vertices) then 1 else 0
  {
    InsideIsOddWinding(v, vertices);
    assert Cover(v, tris) == Loop(From(v), vertices).winding;
  }

  /** A triangle's signed area is its turn. */
  lemma TriangleArea(v: Vec, t: seq<Vec>)
    requires |t| == 3
    ensures Loop(From(v), t).area2 == Turn(t)
  {
    assert t == [t[0], t[1], t[2]];
    TriangleLoop(From(v), t[0], t[1], t[2]);
    ShoelaceTurn(t[0], t[1], t[2]);
  }

  lemma ShoelaceTurn(a: Vec, b: Vec, c: Vec)
    ensures Cross(a, b) + Cross(b, c) + Cross(c, a) == Cross(Sub(b, a), Sub(c, b))
  {
  }

  /** Triangles that turn left, the last perhaps flat, have area together unless they are one flat one. */
  lemma {:induction false} LeftTurnsHaveArea(v: Vec, tris: seq<seq<Vec>>)
    requires tris != [] && forall i :: 0 <= i < |tris| ==> |tris[i]| == 3 && Turn(tris[i]) >= 0.0
    requires forall i :: 0 <= i < |tris| - 1 ==> Turn(tris[i]) > 0.0
    ensures Total(From(v), tris).area2 >= 0.0 && (|tris| > 1 ==> Total(From(v), tris).area2 > 0.0)
  {
    TriangleArea(v, tris[0]);
    if |tris| == 1 {
      assert tris[1..] == [];
    } else {
      var rest := tris[1..];
      assert forall i :: 0 <= i < |rest| ==> rest[i] == tris[i + 1];
      LeftTurnsHaveArea(v, rest);
    }
  }

  /** The triangles of any polygon can only cover it exactly when it has area, or is one flat triangle. */
  lemma ExactCoverHasArea(vertices: seq<Vec>, tris: seq<seq<Vec>>)
    requires Clips(Cleaned(vertices), seq(|Cleaned(vertices)|, k => k), tris) && CoversExactly(vertices, tris)
    ensures var area2 := Loop(From(ZERO), vertices).area2;
      (area2 > 0.0 || (area2 == 0.0 && |Cleaned(vertices)| == 3))
  {
    var p := Cleaned(vertices);
    CleanedKeepsRegion(vertices);
    CoversExactlyIffLastTurnsLeft(vertices, p, tris);
    EarsTurnLeft(p, seq(|p|, k => k), tris);
    TrianglesKeepRegion(vertices, p, tris, ZERO);
    LeftTurnsHaveArea(ZERO, tris);
  }

  /** Three vertices without area are one flat triangle, which covers nothing. */
  lemma FlatIsCovered(vertices: seq<Vec>, tris: seq<seq<Vec>>)
    requires Clips(Cleaned(vertices), seq(|Cleaned(vertices)|, k => k), tris)
    requires |Cleaned(vertices)| == 3 && Loop(From(ZERO), vertices).area2 == 0.0
    ensures CoversExactly(vertices, tris)
  {
    var p := Cleaned(vertices);
    CleanedKeepsRegion(vertices);
    CoversExactlyIffLastTurnsLeft(vertices, p, tris);
    AllIds(p, seq(|p|, k => k));
    assert Loop(From(ZERO), p) == Loop(From(ZERO), vertices);
    TriangleArea(ZERO, p);
  }

  /** A simple polygon that is clipped at all is covered exactly by its triangles if and only if its vertices run
      counterclockwise, or are three without area: what reversing the polygon by the sign of its area secures. */
  lemma CoversExactlyIffCounterclockwise(vertices: seq<Vec>, tris: seq<seq<Vec>>)
    requires Simple(vertices) && Clips(Cleaned(vertices), seq(|Cleaned(vertices)|, k => k), tris)
    ensures var area2 := Loop(From(ZERO), vertices).area2;
      (CoversExactly(vertices, tris) <==> area2 > 0.0 || (area2 == 0.0 && |Cleaned(vertices)| == 3))
  {
    if Loop(From(ZERO), vertices).area2 > 0.0 {
      CleanPolygonIsPartitioned(vertices, tris);
    } else if Loop(From(ZERO), vertices).area2 == 0.0 && |Cleaned(vertices)| == 3 {
      FlatIsCovered(vertices, tris);
    }
    if CoversExactly(vertices, tris) {
      ExactCoverHasArea(vertices, tris);
    }
  }

  lemma WholeIsCoveredOnce(vertices: seq<Vec>, p: seq<Vec>, v: Vec)
    requires SameRegion(p, vertices)
    ensures Cover(v, [p]) == if Inside(v, vertices) then 1 else 0
  {
    InsideIsOddWinding(v, vertices);
    InsideIsOddWinding(v, p);
    assert Loop(From(v), p) == Loop(From(v), vertices);
    CoverOfOne(v, p);
  }

  /** Whatever convex_parts returns for a polygon that clean_polygon let pass: off its edges every point is in exactly
      one part when it is inside the polygon, and in none when it is outside. */
  lemma PartsCoverOnce(vertices: seq<Vec>, parts: seq<seq<Vec>>, v: Vec)
    requires Simple(vertices) && Loop(From(ZERO), vertices).area2 > 0.0 && Free(v, Cleaned(vertices))
    requires parts == [Cleaned(vertices)] || Clips(Cleaned(vertices), seq(|Cleaned(vertices)|, k => k), parts)
    ensures Cover(v, parts) == if Inside(v, vertices) then 1 else 0
  {
    if parts == [Cleaned(vertices)] {
      CleanedKeepsRegion(vertices);
      WholeIsCoveredOnce(vertices, Cleaned(vertices), v);
    } else {
      CleanPolygonIsPartitioned(vertices, parts);
    }
  }
}
