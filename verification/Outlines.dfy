/** clean_polygon: the checks on a target outline, its orientation and its centring
    (workbench/research/support/newhug.py). */
module Outlines {
  import opened Roots
  import opened InputErrors
  import opened Planar
  import opened EarClipping
  import opened Segments
  import opened SimplePolygons
  import opened Windings
  import opened Triangulations
  import opened AreaSign
  import opened PolygonTurns
  import opened SegmentDistances

  // ----- sums over the edges

  type EdgeValue = (Vec, Vec) -> real

  function Around(e: EdgeValue, p: seq<Vec>): (s: seq<real>)
    ensures |s| == |p|
  {
    seq(|p|, i requires 0 <= i < |p| => e(p[i], p[Next(i, |p|)]))
  }

  function EdgeSum(e: EdgeValue, p: seq<Vec>): real { Sum(Around(e, p), |p|) }

  function Crossed(): EdgeValue { (a: Vec, b: Vec) => Cross(a, b) }

  /** Twice the signed area. */
  function Area2(p: seq<Vec>): real { EdgeSum(Crossed(), p) }

  lemma AreaOfLoop(v: Vec, p: seq<Vec>)
    ensures Loop(From(v), p).area2 == Area2(p)
  {
    if p != [] {
      LoopIsCrosses(v, p);
      assert Crosses(p) == Around(Crossed(), p);
    }
  }

  // ----- reversing

  function Reversed(p: seq<Vec>): (q: seq<Vec>)
    ensures |q| == |p|
  {
    seq(|p|, i requires 0 <= i < |p| => p[|p| - 1 - i])
  }

  lemma ReversedIsTurned(p: seq<Vec>)
    requires p != []
    ensures Reversed(p) == Shifted(Backwards(p))
  {
    var n := |p|;
    forall i | 0 <= i < n ensures Reversed(p)[i] == Shifted(Backwards(p))[i] {
      assert Shifted(Backwards(p))[i] == Backwards(p)[Next(i, n)];
    }
  }

  lemma ReversedWinding(p: seq<Vec>, v: Vec)
    requires p != []
    ensures Loop(From(v), Reversed(p)).winding == -Loop(From(v), p).winding
  {
    ReversedIsTurned(p);
    ShiftedWinding(Backwards(p), v);
    LoopIsWindSum(v, p);
    LoopIsWindSum(v, Backwards(p));
    BackwardsSum(p, v, |p|);
  }

  lemma ReversedInside(p: seq<Vec>, v: Vec)
    requires p != []
    ensures Inside(v, Reversed(p)) <==> Inside(v, p)
  {
    ReversedWinding(p, v);
    InsideIsOddWinding(v, p);
    InsideIsOddWinding(v, Reversed(p));
    OppositeParity(Loop(From(v), p).winding, Loop(From(v), Reversed(p)).winding);
  }

  lemma OppositeParity(x: int, y: int)
    requires y == -x
    ensures x % 2 == y % 2
  {
  }

  lemma ReversedIsSimple(p: seq<Vec>)
    requires p != [] && Simple(p)
    ensures Simple(Reversed(p))
  {
    ReversedIsTurned(p);
    BackwardsIsSimple(p);
    ShiftedIsSimple(Backwards(p));
  }

  ghost predicate FlipsSign(e: EdgeValue) { forall a, b {:trigger e(a, b)} :: e(a, b) == -e(b, a) }

  lemma AroundAt(e: EdgeValue, p: seq<Vec>, i: nat)
    requires i < |p|
    ensures Around(e, p)[i] == e(p[i], p[if i + 1 == |p| then 0 else i + 1])
  {
    assert Next(i, |p|) == if i + 1 == |p| then 0 else i + 1;
  }

  lemma {:induction false} ReversedPart(e: EdgeValue, p: seq<Vec>, i: nat)
    requires FlipsSign(e) && i < |p|
    ensures Sum(Around(e, Reversed(p)), i) == Sum(Around(e, p), |p| - 1 - i) - Sum(Around(e, p), |p| - 1)
  {
    if i > 0 {
      var n, q := |p|, Reversed(p);
      ReversedPart(e, p, i - 1);
      AroundAt(e, q, i - 1);
      AroundAt(e, p, n - 1 - i);
      assert q[i - 1] == p[n - i] && q[i] == p[n - 1 - i];
    }
  }

  lemma ReversedSum(e: EdgeValue, p: seq<Vec>)
    requires FlipsSign(e)
    ensures EdgeSum(e, Reversed(p)) == -EdgeSum(e, p)
  {
    if p != [] {
      var n, q := |p|, Reversed(p);
      ReversedPart(e, p, n - 1);
      AroundAt(e, q, n - 1);
      AroundAt(e, p, n - 1);
      assert q[n - 1] == p[0] && q[0] == p[n - 1];
    }
  }

  // ----- moving

  function Moved(p: seq<Vec>, c: Vec): (q: seq<Vec>)
    ensures |q| == |p|
  {
    seq(|p|, i requires 0 <= i < |p| => Sub(p[i], c))
  }

  lemma MovedAt(a: Vec, b: Vec, c: Vec, t: real)
    ensures At(Sub(a, c), Sub(b, c), t) == Sub(At(a, b, t), c)
  {
  }

  lemma SameMove(a: Vec, b: Vec, c: Vec)
    requires Sub(a, c) == Sub(b, c)
    ensures a == b
  {
    assert a == Vec(a.x, a.y) && b == Vec(b.x, b.y);
  }

  lemma MovedIsSimple(p: seq<Vec>, c: Vec)
    requires Simple(p)
    ensures Simple(Moved(p, c))
  {
    var n, q := |p|, Moved(p, c);
    forall i: nat, j: nat, t, u | i < n && j < n && Strangers(i, j, n) && Unit(t) && Unit(u)
      ensures At(q[i], q[Next(i, n)], t) != At(q[j], q[Next(j, n)], u)
    {
      assert Apart(p[i], p[Next(i, n)], p[j], p[Next(j, n)]);
      MovedAt(p[i], p[Next(i, n)], c, t);
      MovedAt(p[j], p[Next(j, n)], c, u);
      if Sub(At(p[i], p[Next(i, n)], t), c) == Sub(At(p[j], p[Next(j, n)], u), c) {
        SameMove(At(p[i], p[Next(i, n)], t), At(p[j], p[Next(j, n)], u), c);
      }
    }
  }

  lemma MovedCrossing(v: Vec, a: Vec, b: Vec, c: Vec)
    ensures Crossing(Sub(v, c), Sub(a, c), Sub(b, c)) == Crossing(v, a, b)
  {
    if Straddles(v, a, b) {
      HitsBySide(v, a, b);
      HitsBySide(Sub(v, c), Sub(a, c), Sub(b, c));
      MovedSide(v, a, b, c);
    }
  }

  lemma MovedSide(v: Vec, a: Vec, b: Vec, c: Vec)
    ensures Side(Sub(a, c), Sub(b, c), Sub(v, c)) == Side(a, b, v)
  {
    assert Sub(Sub(b, c), Sub(a, c)) == Sub(b, a) && Sub(Sub(v, c), Sub(a, c)) == Sub(v, a);
  }

  lemma {:induction false} MovedWindSum(v: Vec, p: seq<Vec>, c: Vec, n: nat)
    requires n <= |p|
    ensures WindSum(Sub(v, c), Moved(p, c), n) == WindSum(v, p, n)
  {
    if n > 0 {
      MovedWindSum(v, p, c, n - 1);
      MovedCrossing(v, p[n - 1], p[Next(n - 1, |p|)], c);
    }
  }

  lemma MovedInside(v: Vec, p: seq<Vec>, c: Vec)
    requires p != []
    ensures Inside(Sub(v, c), Moved(p, c)) <==> Inside(v, p)
  {
    MovedWindSum(v, p, c, |p|);
    LoopIsWindSum(v, p);
    LoopIsWindSum(Sub(v, c), Moved(p, c));
    InsideIsOddWinding(v, p);
    InsideIsOddWinding(Sub(v, c), Moved(p, c));
  }

  /** A quantity of the vertices, the first once more at the end. */
  function Closed(f: Vec -> real, p: seq<Vec>): (s: seq<real>)
    requires p != []
    ensures |s| == |p| + 1 && s[|p|] == s[0]
  {
    seq(|p| + 1, i requires 0 <= i <= |p| => if i == |p| then f(p[0]) else f(p[i]))
  }

  /** Edge values that differ by the steps of a quantity of the vertices have the same sum. */
  lemma SameSum(e: EdgeValue, p: seq<Vec>, g: EdgeValue, q: seq<Vec>, f: Vec -> real)
    requires |p| == |q|
    requires forall i: nat :: i < |p| ==>
      e(p[i], p[Next(i, |p|)]) == g(q[i], q[Next(i, |q|)]) + f(q[Next(i, |q|)]) - f(q[i])
    ensures EdgeSum(e, p) == EdgeSum(g, q)
  {
    if p != [] {
      var b, c, s := Around(e, p), Around(g, q), Closed(f, q);
      forall i: nat | i < |b| ensures StepsAt(b, c, s, i) {
        assert s[i + 1] == f(q[Next(i, |q|)]) && s[i] == f(q[i]);
      }
      AreaSign.SumTelescopes(b, c, s, |p|);
    }
  }

  lemma MovedArea(p: seq<Vec>, c: Vec)
    ensures Area2(Moved(p, c)) == Area2(p)
  {
    var f := (x: Vec) => Cross(x, c);
    forall i: nat | i < |p|
      ensures Cross(Moved(p, c)[i], Moved(p, c)[Next(i, |p|)])
           == Cross(p[i], p[Next(i, |p|)]) + f(p[Next(i, |p|)]) - f(p[i])
    {
      MovedCross(p[i], p[Next(i, |p|)], c);
    }
    SameSum(Crossed(), Moved(p, c), Crossed(), p, f);
  }

  lemma MovedCross(a: Vec, b: Vec, c: Vec)
    ensures Cross(Sub(a, c), Sub(b, c)) == Cross(a, b) + Cross(b, c) - Cross(a, c)
  {
  }

  // ----- centring

  function Coordinate(v: Vec, first: bool): real { if first then v.x else v.y }

  /** One edge's share of the first moment. */
  function Moment(first: bool): EdgeValue {
    (a: Vec, b: Vec) => (Coordinate(a, first) + Coordinate(b, first)) * Cross(a, b)
  }

  /** polygon_area_centroid's centroid. */
  function Centroid(p: seq<Vec>): Vec
    requires Area2(p) != 0.0
  {
    Vec(EdgeSum(Moment(true), p) / (3.0 * Area2(p)), EdgeSum(Moment(false), p) / (3.0 * Area2(p)))
  }

  lemma ReversedCentroid(p: seq<Vec>)
    requires Area2(p) != 0.0
    ensures Area2(Reversed(p)) == -Area2(p) && Centroid(Reversed(p)) == Centroid(p)
  {
    MomentFlips(true);
    MomentFlips(false);
    CrossedFlips();
    ReversedSum(Crossed(), p);
    ReversedSum(Moment(true), p);
    ReversedSum(Moment(false), p);
    SameRatio(EdgeSum(Moment(true), p), Area2(p));
    SameRatio(EdgeSum(Moment(false), p), Area2(p));
  }

  lemma SameRatio(x: real, a: real)
    requires a != 0.0
    ensures (-x) / (3.0 * -a) == x / (3.0 * a)
  {
    var r := x / (3.0 * a);
    assert r * (3.0 * a) == x;
    assert r * (3.0 * -a) == -x;
  }

  // ----- the centroid as a mean

  function AsQuantity(e: EdgeValue): EdgeQuantity { (a: Vec, b: Vec) => Tally(e(a, b), 0) }

  lemma {:induction false} PathIsSum(e: EdgeValue, p: seq<Vec>, n: nat)
    requires n < |p|
    ensures Path(AsQuantity(e), p[..n + 1]).area2 == Sum(Around(e, p), n)
  {
    if n > 0 {
      PathIsSum(e, p, n - 1);
      PathSnoc(AsQuantity(e), p, n);
      AroundAt(e, p, n - 1);
    }
  }

  lemma LoopIsSum(e: EdgeValue, p: seq<Vec>)
    ensures Loop(AsQuantity(e), p).area2 == EdgeSum(e, p)
  {
    if p != [] {
      PathIsSum(e, p, |p| - 1);
      LoopCloses(AsQuantity(e), p);
      AroundAt(e, p, |p| - 1);
    }
  }

  /** Cutting a corner off splits every sum of an edge value that changes sign with the edge. */
  lemma SumSplits(e: EdgeValue, p: seq<Vec>, k: nat)
    requires FlipsSign(e) && k < |p| && |p| >= 3
    ensures EdgeSum(e, p) == EdgeSum(e, Without(p, k)) + EdgeSum(e, Corner(p, k))
  {
    var g := AsQuantity(e);
    forall a, b ensures Plus(g(a, b), g(b, a)) == NOTHING { assert e(a, b) == -e(b, a); }
    CutCorner(g, p, k);
    LoopIsSum(e, p);
    LoopIsSum(e, Without(p, k));
    LoopIsSum(e, Corner(p, k));
  }

  lemma MomentFlips(first: bool)
    ensures FlipsSign(Moment(first))
  {
    forall a, b ensures Moment(first)(a, b) == -Moment(first)(b, a) {
      CrossFlip(a, b);
      NegatedFactor(Coordinate(a, first) + Coordinate(b, first), Cross(b, a), Cross(a, b));
    }
  }

  lemma CrossedFlips()
    ensures FlipsSign(Crossed())
  {
    forall a, b ensures Crossed()(a, b) == -Crossed()(b, a) { CrossFlip(a, b); }
  }

  lemma ThreeEdges(e: EdgeValue, a: Vec, b: Vec, c: Vec)
    ensures EdgeSum(e, [a, b, c]) == e(a, b) + e(b, c) + e(c, a)
  {
    var p := [a, b, c];
    var s := Around(e, p);
    AroundAt(e, p, 0);
    AroundAt(e, p, 1);
    AroundAt(e, p, 2);
    assert Sum(s, 0) == 0.0 && Sum(s, 1) == s[0] && Sum(s, 2) == s[0] + s[1];
  }

  /** A triangle's centroid is the mean of its vertices. */
  lemma TriangleCentroid(a: Vec, b: Vec, c: Vec)
    requires Area2([a, b, c]) != 0.0
    ensures Centroid([a, b, c]) == Vec((a.x + b.x + c.x) / 3.0, (a.y + b.y + c.y) / 3.0)
  {
    var area2 := Area2([a, b, c]);
    ThreeEdges(Crossed(), a, b, c);
    TriangleMoment(true, a, b, c, area2);
    TriangleMoment(false, a, b, c, area2);
    MeanOfThree(EdgeSum(Moment(true), [a, b, c]), area2, a.x + b.x + c.x);
    MeanOfThree(EdgeSum(Moment(false), [a, b, c]), area2, a.y + b.y + c.y);
  }

  lemma TriangleMoment(first: bool, a: Vec, b: Vec, c: Vec, area2: real)
    requires area2 == Cross(a, b) + Cross(b, c) + Cross(c, a)
    ensures EdgeSum(Moment(first), [a, b, c])
         == (Coordinate(a, first) + Coordinate(b, first) + Coordinate(c, first)) * area2
  {
    var x, y, z := Coordinate(a, first), Coordinate(b, first), Coordinate(c, first);
    var u, v, w := Cross(a, b), Cross(b, c), Cross(c, a);
    ThreeEdges(Moment(first), a, b, c);
    MomentOf(first, a, b, x, y, u);
    MomentOf(first, b, c, y, z, v);
    MomentOf(first, c, a, z, x, w);
    ThreePoints(first, a, b, c);
    CrossFlip(b, c);
    TriangleMoments(x, y, z, u, v, w, Cross(c, b), area2);
  }

  lemma MomentOf(first: bool, a: Vec, b: Vec, x: real, y: real, u: real)
    requires x == Coordinate(a, first) && y == Coordinate(b, first) && u == Cross(a, b)
    ensures Moment(first)(a, b) == (x + y) * u
  {
  }

  lemma TriangleMoments(x: real, y: real, z: real, u: real, v: real, w: real, t: real, sum: real)
    requires sum == u + v + w && t == -v && x * t - y * w == z * u
    ensures (x + y) * u + (y + z) * v + (z + x) * w == (x + y + z) * sum
  {
    NegatedFactor(x, v, t);
    assert z * u + x * v + y * w == 0.0;
  }

  lemma MeanOfThree(m: real, a: real, s: real)
    requires a != 0.0 && m == s * a
    ensures m / (3.0 * a) == s / 3.0
  {
    var q, r := m / (3.0 * a), s / 3.0;
    assert q * (3.0 * a) == m;
    assert r * (3.0 * a) == (r * 3.0) * a;
    assert (q - r) * (3.0 * a) == 0.0;
    SameQuotient(q, r, 3.0 * a);
  }

  /** Weighted by area, a polygon's centroid is that of a corner and of what is left of it together. */
  lemma CentroidSplits(p: seq<Vec>, k: nat)
    requires k < |p| && |p| >= 3
    requires Area2(p) != 0.0 && Area2(Without(p, k)) != 0.0 && Area2(Corner(p, k)) != 0.0
    ensures Area2(p) == Area2(Without(p, k)) + Area2(Corner(p, k))
    ensures Scale(Area2(p), Centroid(p))
         == Add(Scale(Area2(Without(p, k)), Centroid(Without(p, k))),
                Scale(Area2(Corner(p, k)), Centroid(Corner(p, k))))
  {
    CrossedFlips();
    MomentFlips(true);
    MomentFlips(false);
    SumSplits(Crossed(), p, k);
    SumSplits(Moment(true), p, k);
    SumSplits(Moment(false), p, k);
    AreaTimesCentroid(p);
    AreaTimesCentroid(Without(p, k));
    AreaTimesCentroid(Corner(p, k));
  }

  lemma AreaTimesCentroid(p: seq<Vec>)
    requires Area2(p) != 0.0
    ensures Scale(Area2(p), Centroid(p)) == Vec(EdgeSum(Moment(true), p) / 3.0, EdgeSum(Moment(false), p) / 3.0)
  {
    ThirdOf(Area2(p), EdgeSum(Moment(true), p));
    ThirdOf(Area2(p), EdgeSum(Moment(false), p));
  }

  lemma ThirdOf(a: real, m: real)
    requires a != 0.0
    ensures a * (m / (3.0 * a)) == m / 3.0
  {
    var q := m / (3.0 * a);
    assert q * (3.0 * a) == m;
    assert q * (3.0 * a) == 3.0 * (a * q);
  }

  /** One edge's moment after the move: the moment before, less three times its share of the area, and a step. */
  lemma MovedMoment(first: bool, a: Vec, b: Vec, c: Vec, k: real)
    requires k == Coordinate(c, first)
    ensures Moment(first)(Sub(a, c), Sub(b, c)) == Moment(first)(a, b) + (-3.0 * k) * Cross(a, b)
                                                 + MomentStep(first, c, b) - MomentStep(first, c, a)
  {
    var x, y, w, f, g := Coordinate(a, first), Coordinate(b, first), Cross(a, b), Cross(c, a), Cross(c, b);
    MovedCrossBy(a, b, c, w, f, g);
    MomentIs(first, a, b, c, x, y, k, w - g + f);
    MomentsAre(first, a, b, c, x, y, k, w, f, g);
    ThreePoints(first, a, b, c);
    Expanded(x, y, k, w, f, g);
  }

  lemma MomentsAre(first: bool, a: Vec, b: Vec, c: Vec, x: real, y: real, k: real, w: real, f: real, g: real)
    requires x == Coordinate(a, first) && y == Coordinate(b, first) && k == Coordinate(c, first)
    requires w == Cross(a, b) && f == Cross(c, a) && g == Cross(c, b)
    ensures Moment(first)(a, b) == (x + y) * w
    ensures MomentStep(first, c, b) == 2.0 * k * g - y * g && MomentStep(first, c, a) == 2.0 * k * f - x * f
  {
  }

  lemma MovedCrossBy(a: Vec, b: Vec, c: Vec, w: real, f: real, g: real)
    requires w == Cross(a, b) && f == Cross(c, a) && g == Cross(c, b)
    ensures Cross(Sub(a, c), Sub(b, c)) == w - g + f
  {
    MovedCross(a, b, c);
    CrossFlip(a, c);
    CrossFlip(b, c);
  }

  lemma MomentIs(first: bool, a: Vec, b: Vec, c: Vec, x: real, y: real, k: real, z: real)
    requires x == Coordinate(a, first) && y == Coordinate(b, first) && k == Coordinate(c, first)
    requires z == Cross(Sub(a, c), Sub(b, c))
    ensures Moment(first)(Sub(a, c), Sub(b, c)) == ((x - k) + (y - k)) * z
  {
  }

  function MomentStep(first: bool, c: Vec, x: Vec): real {
    2.0 * Coordinate(c, first) * Cross(c, x) - Coordinate(x, first) * Cross(c, x)
  }

  lemma ThreePoints(first: bool, a: Vec, b: Vec, c: Vec)
    ensures Coordinate(a, first) * Cross(c, b) - Coordinate(b, first) * Cross(c, a)
         == Coordinate(c, first) * Cross(a, b)
  {
  }

  lemma Expanded(x: real, y: real, k: real, w: real, f: real, g: real)
    requires x * g - y * f == k * w
    ensures ((x - k) + (y - k)) * (w - g + f)
         == (x + y) * w + (-3.0 * k) * w + (2.0 * k * g - y * g) - (2.0 * k * f - x * f)
  {
  }

  lemma LessShare(first: bool, p: seq<Vec>, k: real)
    ensures EdgeSum((a: Vec, b: Vec) => Moment(first)(a, b) + (-3.0 * k) * Cross(a, b), p)
         == EdgeSum(Moment(first), p) - 3.0 * k * Area2(p)
  {
    var e: EdgeValue := (a: Vec, b: Vec) => Moment(first)(a, b) + (-3.0 * k) * Cross(a, b);
    SumCombines(Around(e, p), Around(Moment(first), p), Around(Crossed(), p), -3.0 * k, |p|);
  }

  lemma MovedMoments(first: bool, p: seq<Vec>, c: Vec, k: real)
    requires k == Coordinate(c, first)
    ensures EdgeSum(Moment(first), Moved(p, c)) == EdgeSum(Moment(first), p) - 3.0 * k * Area2(p)
  {
    var g: EdgeValue := (a: Vec, b: Vec) => Moment(first)(a, b) + (-3.0 * k) * Cross(a, b);
    var f := (x: Vec) => MomentStep(first, c, x);
    var q := Moved(p, c);
    forall i: nat | i < |q|
      ensures Moment(first)(q[i], q[Next(i, |q|)])
           == g(p[i], p[Next(i, |p|)]) + f(p[Next(i, |p|)]) - f(p[i])
    {
      MovedEdge(first, p, c, k, i);
    }
    SameSum(Moment(first), q, g, p, f);
    LessShare(first, p, k);
  }

  lemma MovedEdge(first: bool, p: seq<Vec>, c: Vec, k: real, i: nat)
    requires k == Coordinate(c, first) && i < |p|
    ensures var q, h := Moved(p, c), Next(i, |p|);
      (Moment(first)(q[i], q[h]) == Moment(first)(p[i], p[h]) + (-3.0 * k) * Cross(p[i], p[h])
                                    + MomentStep(first, c, p[h]) - MomentStep(first, c, p[i]))
  {
    MovedMoment(first, p[i], p[Next(i, |p|)], c, k);
  }

  /** Moved by its centroid, a polygon has its centroid at the origin. */
  lemma MovedCentroid(p: seq<Vec>)
    requires Area2(p) != 0.0
    ensures var q := Moved(p, Centroid(p)); Area2(q) == Area2(p) && Centroid(q) == ZERO
  {
    var c, area2 := Centroid(p), Area2(p);
    MovedArea(p, c);
    MovedMoments(true, p, c, c.x);
    MovedMoments(false, p, c, c.y);
    NothingLeft(EdgeSum(Moment(true), p), area2, c.x, EdgeSum(Moment(true), Moved(p, c)));
    NothingLeft(EdgeSum(Moment(false), p), area2, c.y, EdgeSum(Moment(false), Moved(p, c)));
  }

  lemma NothingLeft(m: real, a: real, k: real, rest: real)
    requires a != 0.0 && k == m / (3.0 * a) && rest == m - 3.0 * k * a
    ensures rest / (3.0 * a) == 0.0
  {
    assert k * (3.0 * a) == m;
    assert 3.0 * k * a == k * (3.0 * a);
    assert rest == 0.0;
  }

  // ----- the checks

  /** The distance between two points is less than the tolerance. */
  predicate Closer(a: Vec, b: Vec, tolerance: real) { Dot(Sub(a, b), Sub(a, b)) < tolerance * tolerance }

  /** A closing vertex repeats the first one. */
  function Opened(p: seq<Vec>): seq<Vec> {
    if p != [] && Closer(p[0], p[|p| - 1], 0.0000000001) then p[..|p| - 1] else p
  }

  predicate InRange(p: seq<Vec>) { forall i :: 0 <= i < |p| ==> Abs(p[i].x) <= 10.0 && Abs(p[i].y) <= 10.0 }

  predicate LongEdges(p: seq<Vec>) {
    forall i: nat :: i < |p| ==> !Closer(p[Next(i, |p|)], p[i], 0.00000001)
  }

  /** Closer than the tolerance, as segment_distances has it. */
  predicate Near(a: Vec, b: Vec, c: Vec, d: Vec) {
    Distance2(a, b, c, d) < 0.0000000001 * 0.0000000001
  }

  /** The index pairs the check takes: i before j, not neighbours. */
  predicate Checked(i: nat, j: nat, n: nat) { i < j < n && j != i + 1 && !(i == 0 && j == n - 1) }

  predicate NoneNear(p: seq<Vec>) {
    forall i: nat, j: nat {:trigger Checked(i, j, |p|)} ::
      i < |p| && j < |p| && Checked(i, j, |p|) ==> !Near(p[i], p[Next(i, |p|)], p[j], p[Next(j, |p|)])
  }

  /** Every two edges that are not neighbours are parallel, or not taken for it. */
  predicate AllDecided(p: seq<Vec>) {
    forall i: nat, j: nat {:trigger Checked(i, j, |p|)} ::
      i < |p| && j < |p| && Checked(i, j, |p|) ==> Decided(p[i], p[Next(i, |p|)], p[j], p[Next(j, |p|)])
  }

  lemma EdgesAreLong(p: seq<Vec>, i: nat)
    requires LongEdges(p) && i < |p|
    ensures Long(p[i], p[Next(i, |p|)])
  {
  }

  /** The check lets only simple polygons pass when none of its distances is undecided. */
  lemma NoneNearIsSimple(p: seq<Vec>)
    requires LongEdges(p) && NoneNear(p) && AllDecided(p)
    ensures Simple(p)
  {
    forall i: nat, j: nat | i < |p| && j < |p| && Strangers(i, j, |p|)
      ensures Apart(p[i], p[Next(i, |p|)], p[j], p[Next(j, |p|)])
    {
      if i < j {
        CheckedIsApart(p, i, j);
      } else {
        CheckedIsApart(p, j, i);
        ApartIsSymmetric(p[j], p[Next(j, |p|)], p[i], p[Next(i, |p|)]);
      }
    }
  }

  lemma CheckedIsApart(p: seq<Vec>, i: nat, j: nat)
    requires LongEdges(p) && NoneNear(p) && AllDecided(p) && i < j < |p| && Strangers(i, j, |p|)
    ensures Apart(p[i], p[Next(i, |p|)], p[j], p[Next(j, |p|)])
  {
    assert Checked(i, j, |p|);
    if !Apart(p[i], p[Next(i, |p|)], p[j], p[Next(j, |p|)]) {
      EdgesAreLong(p, i);
      EdgesAreLong(p, j);
      TouchIsSeen(p[i], p[Next(i, |p|)], p[j], p[Next(j, |p|)]);
    }
  }

  /** What the checks say of the outline without its closing vertex. */
  predicate Sturdy(p: seq<Vec>) {
    |p| >= 3 && LongEdges(p) && NoneNear(p) && Abs(Area2(p) / 2.0) >= 0.000000001
  }

  /** What clean_polygon lets pass. */
  predicate Passes(vertices: seq<Vec>) {
    3 <= |vertices| <= 128 && InRange(vertices) && Sturdy(Opened(vertices))
  }

  /** A clean outline of a given one: the same region moved by the centroid, run counterclockwise. */
  ghost predicate IsClean(p: seq<Vec>, given: seq<Vec>) {
    && Simple(p) && |p| >= 3 && Area2(p) == Abs(Area2(given)) && Area2(p) > 0.0 && Centroid(p) == ZERO
    && forall v :: Inside(Sub(v, Centroid(given)), p) <==> Inside(v, given)
  }

  /** The outline counterclockwise, moved by its centroid. */
  function Tidied(p: seq<Vec>): seq<Vec>
    requires Area2(p) != 0.0
  {
    Moved(if Area2(p) < 0.0 then Reversed(p) else p, Centroid(p))
  }

  method CleanPolygon(vertices: seq<Vec>) returns (r: Result<seq<Vec>>)
    ensures r.Ok? <==> Passes(vertices)
    ensures r.Ok? ==> r.value == Tidied(Opened(vertices))
    ensures r.Ok? && Simple(Opened(vertices)) ==> IsClean(r.value, Opened(vertices))
  {
    if !(3 <= |vertices| <= 128) || !InRange(vertices) {
      return InputError;
    }
    var p := Opened(vertices);
    if |p| < 3 || !LongEdges(p) {
      return InputError;
    }
    if !NoneNear(p) {
      return InputError;
    }
    var area := Area2(p) / 2.0;
    if Abs(area) < 0.000000001 {
      return InputError;
    }
    var center := Centroid(p);
    ghost var given := p;
    if area < 0.0 {
      p := Reversed(p);
    }
    if Simple(given) {
      CleanIsClean(given, p);
    }
    r := Ok(Moved(p, center));
  }

  lemma CleanIsClean(given: seq<Vec>, p: seq<Vec>)
    requires |given| >= 3 && Simple(given) && Area2(given) != 0.0
    requires p == if Area2(given) < 0.0 then Reversed(given) else given
    ensures IsClean(Moved(p, Centroid(given)), given)
  {
    var c := Centroid(given);
    ReversedCentroid(given);
    ReversedIsSimple(given);
    MovedIsSimple(p, c);
    MovedCentroid(p);
    forall v ensures Inside(Sub(v, c), Moved(p, c)) <==> Inside(v, given) {
      ReversedInside(given, v);
      MovedInside(v, p, c);
    }
  }

  // ----- what passes

  /** The distance between the two points is at least the tolerance. */
  ghost predicate AtLeast(a: Vec, b: Vec, tolerance: real) {
    (a.x - b.x) * (a.x - b.x) + (a.y - b.y) * (a.y - b.y) >= tolerance * tolerance
  }

  /** An outline whose last vertex does not repeat its first one. */
  ghost predicate Open(p: seq<Vec>) { p != [] && AtLeast(p[0], p[|p| - 1], 0.0000000001) }

  lemma CloserIsLess(a: Vec, b: Vec, tolerance: real)
    ensures Closer(a, b, tolerance) <==> !AtLeast(a, b, tolerance)
  {
  }

  lemma OpenStays(p: seq<Vec>)
    requires Open(p)
    ensures Opened(p) == p && Opened(p + [p[0]]) == p
  {
    CloserIsLess(p[0], p[|p| - 1], 0.0000000001);
    CloserIsLess(p[0], p[0], 0.0000000001);
    assert (p + [p[0]])[..|p|] == p;
  }

  /** An open outline passes exactly when it has 3 to 128 vertices within 10 m of the axes, no edge shorter than 1e-8 m,
      no two edges but neighbours closer than 1e-10 m, and an area of at least 1e-9 square metres. */
  lemma OpenPassesIff(p: seq<Vec>)
    requires Open(p)
    ensures Passes(p) <==>
      && 3 <= |p| <= 128
      && (forall i :: 0 <= i < |p| ==> -10.0 <= p[i].x <= 10.0 && -10.0 <= p[i].y <= 10.0)
      && (forall i: nat :: i < |p| ==> AtLeast(p[i], p[Next(i, |p|)], 0.00000001))
      && (forall i: nat, j: nat :: i < |p| && j < |p| && Strangers(i, j, |p|) && i < j ==>
            Distance2(p[i], p[Next(i, |p|)], p[j], p[Next(j, |p|)]) >= 0.0000000001 * 0.0000000001)
      && (Loop(From(ZERO), p).area2 >= 0.000000002 || Loop(From(ZERO), p).area2 <= -0.000000002)
  {
    OpenStays(p);
    AreaOfLoop(ZERO, p);
    forall i: nat | i < |p|
      ensures !Closer(p[Next(i, |p|)], p[i], 0.00000001) <==> AtLeast(p[i], p[Next(i, |p|)], 0.00000001)
    {
      CloserIsLess(p[Next(i, |p|)], p[i], 0.00000001);
      AtLeastIsSymmetric(p[i], p[Next(i, |p|)], 0.00000001);
    }
    forall i: nat, j: nat | i < |p| && j < |p| ensures Checked(i, j, |p|) <==> Strangers(i, j, |p|) && i < j {
      CheckedAreStrangers(i, j, |p|);
    }
  }

  lemma AtLeastIsSymmetric(a: Vec, b: Vec, tolerance: real)
    ensures AtLeast(a, b, tolerance) <==> AtLeast(b, a, tolerance)
  {
    assert (a.x - b.x) * (a.x - b.x) == (b.x - a.x) * (b.x - a.x);
    assert (a.y - b.y) * (a.y - b.y) == (b.y - a.y) * (b.y - a.y);
  }

  lemma CheckedAreStrangers(i: nat, j: nat, n: nat)
    requires i < n && j < n
    ensures Checked(i, j, n) <==> Strangers(i, j, n) && i < j
  {
  }

  /** Repeating the first vertex at the end of an open outline changes nothing, and what is cleaned is that outline. */
  method CleanClosed(p: seq<Vec>) returns (open: Result<seq<Vec>>, closed: Result<seq<Vec>>)
    requires Open(p) && 3 <= |p| <= 127
    ensures closed == open
    ensures open.Ok? && Simple(p) ==> IsClean(open.value, p)
  {
    open := CleanPolygon(p);
    closed := CleanPolygon(p + [p[0]]);
    OpenStays(p);
    ClosedPasses(p);
  }

  lemma ClosedPasses(p: seq<Vec>)
    requires Open(p) && 3 <= |p| <= 127
    ensures Passes(p + [p[0]]) <==> Passes(p)
  {
    OpenStays(p);
    ClosedInRange(p);
  }

  lemma ClosedInRange(p: seq<Vec>)
    requires p != []
    ensures InRange(p + [p[0]]) <==> InRange(p)
  {
    var q := p + [p[0]];
    if InRange(q) {
      forall i | 0 <= i < |p| ensures Abs(p[i].x) <= 10.0 && Abs(p[i].y) <= 10.0 { assert q[i] == p[i]; }
    }
  }
}
