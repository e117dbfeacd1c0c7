/** When the triangles of a clipped polygon cover exactly what the polygon winds around, so that its notches stay
    empty (workbench/research/support/newhug.py, convex_parts). */
module Notches {
  import opened Roots
  import opened Planar
  import opened EarClipping

  // ----- points inside a triangle

  /** All three sides positive: v is strictly inside. */
  predicate StrictlyInside(a: Vec, b: Vec, c: Vec, v: Vec) {
    Side(a, b, v) > 0.0 && Side(b, c, v) > 0.0 && Side(c, a, v) > 0.0
  }

  /** An edge that has v on its left is met to the right of v exactly when it goes up. */
  lemma LeftOfEdge(v: Vec, a: Vec, b: Vec)
    requires Side(a, b, v) > 0.0
    ensures Crossing(v, a, b) == if Straddles(v, a, b) && b.y > a.y then 1 else 0
  {
    if Straddles(v, a, b) {
      HitsBySide(v, a, b);
    }
  }

  /** The triangle winds once around what is strictly inside at the height of its edges. */
  lemma InteriorWinding(v: Vec, a: Vec, b: Vec, c: Vec)
    requires StrictlyInside(a, b, c, v)
    requires Straddles(v, a, b) || Straddles(v, b, c) || Straddles(v, c, a)
    ensures Crossing(v, a, b) + Crossing(v, b, c) + Crossing(v, c, a) == 1
  {
    LeftOfEdge(v, a, b);
    LeftOfEdge(v, b, c);
    LeftOfEdge(v, c, a);
  }

  function Centroid(a: Vec, b: Vec, c: Vec): Vec { Vec((a.x + b.x + c.x) / 3.0, (a.y + b.y + c.y) / 3.0) }

  lemma CentroidSide(a: Vec, b: Vec, c: Vec)
    ensures 3.0 * Side(a, b, Centroid(a, b, c)) == Turn([a, b, c])
  {
    var v := Centroid(a, b, c);
    ThirdOfTurn(a, b, c, v.x, v.y);
  }

  lemma ThirdOfTurn(a: Vec, b: Vec, c: Vec, x: real, y: real)
    requires 3.0 * x == a.x + b.x + c.x && 3.0 * y == a.y + b.y + c.y
    ensures 3.0 * Side(a, b, Vec(x, y)) == Turn([a, b, c])
  {
    var e, f := b.x - a.x, b.y - a.y;
    assert 3.0 * (e * (y - a.y) - f * (x - a.x)) == e * (3.0 * y - 3.0 * a.y) - f * (3.0 * x - 3.0 * a.x);
    assert e * (b.y + c.y - 2.0 * a.y) - f * (b.x + c.x - 2.0 * a.x) == e * (c.y - b.y) - f * (c.x - b.x) by {
      assert e * (2.0 * f) - f * (2.0 * e) == 0.0;
    }
  }

  lemma CentroidIsInside(a: Vec, b: Vec, c: Vec)
    requires Turn([a, b, c]) > 0.0
    ensures StrictlyInside(a, b, c, Centroid(a, b, c))
  {
    TurnRotates(a, b, c);
    CentroidSide(a, b, c);
    CentroidSide(b, c, a);
    CentroidSide(c, a, b);
  }

  lemma LevelIsFlat(a: Vec, b: Vec, c: Vec)
    ensures a.y == b.y == c.y ==> Turn([a, b, c]) == 0.0
  {
  }

  /** The centroid's height separates the vertices. */
  lemma CentroidSeparates(a: Vec, b: Vec, c: Vec)
    requires Turn([a, b, c]) != 0.0
    ensures var v := Centroid(a, b, c); Straddles(v, a, b) || Straddles(v, b, c) || Straddles(v, c, a)
    ensures exists w :: w in [a, b, c] && w.y > Centroid(a, b, c).y
  {
    var m := Centroid(a, b, c).y;
    assert 3.0 * m == a.y + b.y + c.y;
    LevelIsFlat(a, b, c);
    assert a.y > m || b.y > m || c.y > m;
    assert a in [a, b, c] && b in [a, b, c] && c in [a, b, c];
  }

  /** A right-turning triangle winds backwards around its centroid. */
  lemma RightTurnWindsBack(a: Vec, b: Vec, c: Vec)
    requires Turn([a, b, c]) < 0.0
    ensures Loop(From(Centroid(a, b, c)), [a, b, c]).winding == -1
  {
    var v := Centroid(c, b, a);
    assert v == Centroid(a, b, c);
    TurnReverses(a, b, c);
    CentroidIsInside(c, b, a);
    CentroidSeparates(c, b, a);
    InteriorWinding(v, c, b, a);
    WindsBack(v, a, b, c);
  }

  lemma TurnReverses(a: Vec, b: Vec, c: Vec)
    ensures Turn([c, b, a]) == -Turn([a, b, c])
  {
  }

  lemma WindsBack(v: Vec, a: Vec, b: Vec, c: Vec)
    ensures Loop(From(v), [a, b, c]).winding == -(Crossing(v, c, b) + Crossing(v, b, a) + Crossing(v, a, c))
  {
    TriangleLoop(From(v), a, b, c);
    Reversed(v, a, b);
    Reversed(v, b, c);
    Reversed(v, c, a);
  }

  // ----- flat triangles

  lemma OppositeSides(s: real, t: real, d: real, e: real)
    requires d > 0.0 && e > 0.0 && s * d + t * e == 0.0
    ensures s > 0.0 <==> t < 0.0
    ensures s < 0.0 <==> t > 0.0
  {
    Scaled(0.0, s, d);
    Scaled(s, 0.0, d);
    Scaled(0.0, t, e);
    Scaled(t, 0.0, e);
  }

  /** On one line the two edges that pass the height are met at the same point. */
  lemma FlatPair(v: Vec, a: Vec, b: Vec, c: Vec)
    requires Turn([a, b, c]) == 0.0 && Straddles(v, a, b) && Straddles(v, b, c)
    ensures Crossing(v, a, b) + Crossing(v, b, c) == 0
  {
    var s, t := Side(a, b, v), Side(b, c, v);
    HitsBySide(v, a, b);
    HitsBySide(v, b, c);
    FlatIdentity(v, a, b, c, s, t);
    if b.y > v.y {
      OppositeSides(s, t, b.y - c.y, b.y - a.y);
    } else {
      assert s * (c.y - b.y) + t * (a.y - b.y) == 0.0 by { assert s * (c.y - b.y) == -(s * (b.y - c.y)); }
      OppositeSides(s, t, c.y - b.y, a.y - b.y);
    }
  }

  lemma FlatIdentity(v: Vec, a: Vec, b: Vec, c: Vec, s: real, t: real)
    requires s == Side(a, b, v) && t == Side(b, c, v) && Turn([a, b, c]) == 0.0
    ensures s * (b.y - c.y) + t * (b.y - a.y) == 0.0
  {
    var turn := Turn([a, b, c]);
    assert s * (b.y - c.y) + t * (b.y - a.y) == turn * (b.y - v.y);
  }

  lemma FlatWinding(v: Vec, t: seq<Vec>)
    requires |t| == 3 && Turn(t) == 0.0
    ensures Loop(From(v), t).winding == 0 && !Inside(v, t)
  {
    var a, b, c := t[0], t[1], t[2];
    assert t == [a, b, c];
    TriangleLoop(From(v), a, b, c);
    TurnRotates(a, b, c);
    if Straddles(v, a, b) && Straddles(v, b, c) { FlatPair(v, a, b, c); }
    if Straddles(v, b, c) && Straddles(v, c, a) { FlatPair(v, b, c, a); }
    if Straddles(v, c, a) && Straddles(v, a, b) { FlatPair(v, c, a, b); }
    InsideIsOddWinding(v, t);
  }

  // ----- cover and winding

  /** Every point lies in as many of the triangles as the polygon winds around it. */
  ghost predicate CoversExactly(vertices: seq<Vec>, tris: seq<seq<Vec>>) {
    forall v :: Cover(v, tris) == Loop(From(v), vertices).winding
  }

  function Last(tris: seq<seq<Vec>>): seq<Vec>
    requires tris != []
  {
    tris[|tris| - 1]
  }

  lemma {:induction false} CoverOfLast(v: Vec, tris: seq<seq<Vec>>)
    requires tris != []
    ensures Cover(v, tris) == Cover(v, tris[..|tris| - 1]) + Cover(v, [Last(tris)])
  {
    if |tris| == 1 {
      assert tris == [Last(tris)];
      assert tris[..0] == [];
    } else {
      var front, rest := tris[..|tris| - 1], tris[1..];
      CoverOfLast(v, rest);
      assert front[1..] == rest[..|rest| - 1];
      assert Last(rest) == Last(tris) && front[0] == tris[0];
    }
  }

  function SumOf<T>(f: T -> Tally, s: seq<T>): Tally {
    if s == [] then NOTHING else Plus(f(s[0]), SumOf(f, s[1..]))
  }

  lemma {:induction false} SumOfLast<T>(f: T -> Tally, s: seq<T>)
    requires s != []
    ensures SumOf(f, s) == Plus(SumOf(f, s[..|s| - 1]), f(s[|s| - 1]))
  {
    if |s| == 1 {
      assert s[..0] == [] && s[1..] == [];
    } else {
      SumOfLast(f, s[1..]);
      assert s[1..][..|s| - 2] == s[..|s| - 1][1..];
    }
  }

  lemma {:induction false} TotalIsSum(g: EdgeQuantity, tris: seq<seq<Vec>>)
    ensures Total(g, tris) == SumOf((t: seq<Vec>) => Loop(g, t), tris)
  {
    if tris != [] {
      TotalIsSum(g, tris[1..]);
    }
  }

  lemma TotalOfLast(g: EdgeQuantity, tris: seq<seq<Vec>>)
    requires tris != []
    ensures Total(g, tris) == Plus(Total(g, tris[..|tris| - 1]), Loop(g, Last(tris)))
  {
    SumOfLast((t: seq<Vec>) => Loop(g, t), tris);
    TotalIsSum(g, tris);
    TotalIsSum(g, tris[..|tris| - 1]);
  }

  lemma SplitLast(v: Vec, tris: seq<seq<Vec>>)
    requires tris != []
    ensures Cover(v, tris) == Cover(v, tris[..|tris| - 1]) + (if Inside(v, Last(tris)) then 1 else 0)
    ensures Total(From(v), tris).winding
         == Total(From(v), tris[..|tris| - 1]).winding + Loop(From(v), Last(tris)).winding
  {
    CoverOfLast(v, tris);
    TotalOfLast(From(v), tris);
    CoverOfOne(v, Last(tris));
  }

  lemma CoverOfOne(v: Vec, t: seq<Vec>)
    ensures Cover(v, [t]) == if Inside(v, t) then 1 else 0
  {
    assert [t][1..] == [];
    assert Cover(v, []) == 0;
  }

  /** Clipped ears turn left, so only the last triangle can be counted wrongly. */
  lemma WrongByLast(p: seq<Vec>, tris: seq<seq<Vec>>, v: Vec)
    requires Clips(p, seq(|p|, k => k), tris)
    ensures tris != [] && |Last(tris)| == 3
    ensures Cover(v, tris) - Loop(From(v), p).winding
         == (if Inside(v, Last(tris)) then 1 else 0) - Loop(From(v), Last(tris)).winding
  {
    var ids := seq(|p|, k => k);
    EarsTurnLeft(p, ids, tris);
    FromIsAntisymmetric(v);
    AllIndices(From(v), p, tris);
    ClippingConserves(From(v), p, ids, tris);
    SplitLast(v, tris);
    CoverIsWinding(v, tris[..|tris| - 1]);
  }

  lemma LastCountedRight(v: Vec, t: seq<Vec>)
    requires |t| == 3 && Turn(t) >= 0.0
    ensures Loop(From(v), t).winding == if Inside(v, t) then 1 else 0
  {
    if Turn(t) > 0.0 {
      TriangleWinding(v, t);
    } else {
      FlatWinding(v, t);
    }
  }

  /** Notches stay empty exactly when the last triangle does not turn right: then, and only then, every point is covered
      as often as the polygon winds around it. */
  lemma CoversExactlyIffLastTurnsLeft(vertices: seq<Vec>, cleaned: seq<Vec>, tris: seq<seq<Vec>>)
    requires SameRegion(cleaned, vertices) && Clips(cleaned, seq(|cleaned|, k => k), tris)
    ensures tris != [] && |Last(tris)| == 3
    ensures CoversExactly(vertices, tris) <==> Turn(Last(tris)) >= 0.0
  {
    forall v ensures Loop(From(v), cleaned) == Loop(From(v), vertices) {}
    WrongByLast(cleaned, tris, ZERO);
    var t := Last(tris);
    if Turn(t) >= 0.0 {
      forall v ensures Cover(v, tris) == Loop(From(v), vertices).winding {
        WrongByLast(cleaned, tris, v);
        LastCountedRight(v, t);
      }
    } else {
      var v := Centroid(t[0], t[1], t[2]);
      assert t == [t[0], t[1], t[2]];
      RightTurnWindsBack(t[0], t[1], t[2]);
      InsideIsOddWinding(v, t);
      WrongByLast(cleaned, tris, v);
      assert Cover(v, tris) != Loop(From(v), vertices).winding;
    }
  }

  // ----- the outcome is determined

  lemma FirstEarIsUnique(p: seq<Vec>, ids: seq<nat>, k: nat, j: nat)
    requires Indices(p, ids) && FirstEar(p, ids, k) && FirstEar(p, ids, j)
    ensures k == j
  {
  }

  /** What a clipping does first. */
  lemma FirstClip(p: seq<Vec>, ids: seq<nat>, tris: seq<seq<Vec>>, k: nat)
    requires Indices(p, ids) && |ids| > 3 && FirstEar(p, ids, k) && Clips(p, ids, tris)
    ensures Indices(p, Without(ids, k)) && tris != [] && tris[0] == Corner(Points(p, ids), k)
    ensures Clips(p, Without(ids, k), tris[1..])
  {
    var j := SomeClip(p, ids, tris);
    FirstEarIsUnique(p, ids, k, j);
  }

  lemma NotStuck(p: seq<Vec>, ids: seq<nat>, k: nat)
    requires Indices(p, ids) && FirstEar(p, ids, k) && !Stuck(p, Without(ids, k))
    ensures !Stuck(p, ids)
  {
    forall j | FirstEar(p, ids, j) ensures j == k { FirstEarIsUnique(p, ids, k, j); }
  }

  lemma SameSequence(s: seq<seq<Vec>>, t: seq<seq<Vec>>)
    requires s != [] && t != [] && s[0] == t[0] && s[1..] == t[1..]
    ensures s == t
  {
    assert s == [s[0]] + s[1..] && t == [t[0]] + t[1..];
  }

  /** A clipping that succeeds has one result and is never stuck. */
  lemma {:induction false} ClipsIsUnique(p: seq<Vec>, ids: seq<nat>, tris: seq<seq<Vec>>, other: seq<seq<Vec>>)
    requires Indices(p, ids) && Clips(p, ids, tris) && Clips(p, ids, other)
    ensures other == tris && !Stuck(p, ids)
    decreases |ids|
  {
    if |ids| > 3 {
      var k :| FirstEar(p, ids, k) && tris[0] == Corner(Points(p, ids), k) && Clips(p, Without(ids, k), tris[1..]);
      FirstClip(p, ids, tris, k);
      FirstClip(p, ids, other, k);
      ClipsIsUnique(p, Without(ids, k), tris[1..], other[1..]);
      SameSequence(other, tris);
      NotStuck(p, ids, k);
    }
  }

  // ----- a notch that is filled

  /** A dart, clockwise: its notch is the triangle below c. */
  predicate IsDart(a: Vec, b: Vec, c: Vec, d: Vec) {
    a == Vec(0.0, 3.0) && b == Vec(1.0, 0.0) && c == Vec(0.0, 1.0) && d == Vec(-1.0, 0.0)
  }

  lemma DartTurns(a: Vec, b: Vec, c: Vec, d: Vec)
    requires IsDart(a, b, c, d)
    ensures Turn([d, a, b]) == -6.0 && Turn([a, b, c]) == -2.0 && Turn([b, c, d]) == 2.0 && Turn([c, d, a]) == -2.0
    ensures Side(b, c, a) == -2.0
  {
  }

  lemma FourCorners(a: Vec, b: Vec, c: Vec, d: Vec)
    ensures var p := [a, b, c, d];
      Corner(p, 0) == [d, a, b] && Corner(p, 1) == [a, b, c] && Corner(p, 2) == [b, c, d] && Corner(p, 3) == [c, d, a]
  {
  }

  lemma TurningIsNotStraight(p: seq<Vec>, k: nat)
    requires k < |p| && Turn(Corner(p, k)) != 0.0
    ensures !StraightAt(p, k)
  {
  }

  lemma NoStraightIsClean(p: seq<Vec>)
    requires forall k :: 0 <= k < |p| ==> !StraightAt(p, k)
    ensures Cleaned(p) == p
  {
  }

  lemma DartIsClean(a: Vec, b: Vec, c: Vec, d: Vec)
    requires IsDart(a, b, c, d)
    ensures Cleaned([a, b, c, d]) == [a, b, c, d] && TurnsRight([a, b, c, d])
  {
    var p := [a, b, c, d];
    DartTurns(a, b, c, d);
    FourCorners(a, b, c, d);
    assert Turn(Corner(p, 1)) < 0.0;
    forall k | 0 <= k < |p| ensures !StraightAt(p, k) {
      assert k == 0 || k == 1 || k == 2 || k == 3;
      TurningIsNotStraight(p, k);
    }
    NoStraightIsClean(p);
  }

  /** Any four vertices whose first ear is the third. */
  lemma FourClips(a: Vec, b: Vec, c: Vec, d: Vec, ids: seq<nat>)
    requires ids == [0, 1, 2, 3] && Turn([d, a, b]) <= 0.0 && Turn([a, b, c]) <= 0.0 && Turn([b, c, d]) > 0.0
    requires Side(b, c, a) < 0.0
    ensures Indices([a, b, c, d], ids) && Clips([a, b, c, d], ids, [[b, c, d], [a, b, d]])
  {
    var p, tris := [a, b, c, d], [[b, c, d], [a, b, d]];
    FourCorners(a, b, c, d);
    assert Points(p, ids) == p;
    assert Corner(ids, 2) == [1, 2, 3];
    assert !InTriangle([b, c, d], a);
    assert FirstEar(p, ids, 2) by {
      assert IsEar(p, ids, 2) && !IsEar(p, ids, 0) && !IsEar(p, ids, 1);
    }
    assert Without(ids, 2) == [0, 1, 3] && Points(p, [0, 1, 3]) == [a, b, d] && tris[1..] == [[a, b, d]];
    assert Clips(p, Without(ids, 2), tris[1..]);
  }

  /** The crossing by the side alone. */
  lemma CrossingBySide(v: Vec, a: Vec, b: Vec, s: real)
    requires s == Side(a, b, v)
    ensures Crossing(v, a, b) ==
            if Straddles(v, a, b) && b.y > a.y && s > 0.0 then 1
            else if Straddles(v, a, b) && b.y < a.y && s < 0.0 then -1 else 0
  {
    if Straddles(v, a, b) {
      HitsBySide(v, a, b);
    }
  }

  lemma DartPoint(v: Vec, a: Vec, b: Vec, c: Vec, d: Vec)
    requires IsDart(a, b, c, d) && v == Vec(0.0, 0.5)
    ensures Crossing(v, a, b) == -1 && Crossing(v, b, c) == 1 && Crossing(v, c, d) == 0 && Crossing(v, d, a) == 0
    ensures Crossing(v, b, d) == 0
  {
    MetDown(v, a, b);
    MetUp(v, b, c);
    Missed(v, c, d);
    Missed(v, d, a);
    Missed(v, b, d);
  }

  lemma MetDown(v: Vec, a: Vec, b: Vec)
    requires v == Vec(0.0, 0.5) && a == Vec(0.0, 3.0) && b == Vec(1.0, 0.0)
    ensures Crossing(v, a, b) == -1
  {
    CrossingBySide(v, a, b, -2.5);
  }

  lemma MetUp(v: Vec, a: Vec, b: Vec)
    requires v == Vec(0.0, 0.5) && a == Vec(1.0, 0.0) && b == Vec(0.0, 1.0)
    ensures Crossing(v, a, b) == 1
  {
    CrossingBySide(v, a, b, 0.5);
  }

  /** Edges to the left, or not at the point's height. */
  lemma Missed(v: Vec, a: Vec, b: Vec)
    requires v == Vec(0.0, 0.5)
    requires (a == Vec(0.0, 1.0) && b == Vec(-1.0, 0.0)) || (a == Vec(-1.0, 0.0) && b == Vec(0.0, 3.0)) ||
             (a == Vec(1.0, 0.0) && b == Vec(-1.0, 0.0))
    ensures Crossing(v, a, b) == 0
  {
    CrossingBySide(v, a, b, Side(a, b, v));
  }

  lemma FourLoop(v: Vec, a: Vec, b: Vec, c: Vec, d: Vec)
    ensures Loop(From(v), [a, b, c, d]).winding
         == Crossing(v, a, b) + Crossing(v, b, c) + Crossing(v, c, d) + Crossing(v, d, a)
  {
    PathJoin(From(v), [a, b], [c, d]);
    PathJoin(From(v), [a], [b]);
    PathJoin(From(v), [c], [d]);
    assert [a, b] + [c, d] == [a, b, c, d] && [a] + [b] == [a, b] && [c] + [d] == [c, d];
  }

  lemma TwoCover(v: Vec, s: seq<Vec>, t: seq<Vec>)
    ensures Cover(v, [s, t]) == (if Inside(v, s) then 1 else 0) + (if Inside(v, t) then 1 else 0)
  {
    assert [s, t][1..] == [t] && [t][1..] == [];
    assert Cover(v, []) == 0;
    assert Cover(v, [t]) == (if Inside(v, t) then 1 else 0) + Cover(v, [t][1..]);
  }

  lemma DartCover(v: Vec, a: Vec, b: Vec, c: Vec, d: Vec)
    requires IsDart(a, b, c, d) && v == Vec(0.0, 0.5)
    ensures Cover(v, [[b, c, d], [a, b, d]]) == 2 && Loop(From(v), [a, b, c, d]).winding == 0
  {
    DartPoint(v, a, b, c, d);
    FourLoop(v, a, b, c, d);
    NotchTwice(v, a, b, c, d);
  }

  lemma NotchTwice(v: Vec, a: Vec, b: Vec, c: Vec, d: Vec)
    requires Crossing(v, a, b) == -1 && Crossing(v, b, c) == 1 && Crossing(v, c, d) == 0 && Crossing(v, d, a) == 0
    requires Crossing(v, b, d) == 0
    ensures Cover(v, [[b, c, d], [a, b, d]]) == 2
  {
    TriangleLoop(From(v), b, c, d);
    TriangleLoop(From(v), a, b, d);
    Reversed(v, b, d);
    InsideIsOddWinding(v, [b, c, d]);
    InsideIsOddWinding(v, [a, b, d]);
    TwoCover(v, [b, c, d], [a, b, d]);
  }

  /** convex_parts cannot but return two triangles for the dart; both contain a point of the notch, which is outside
      the dart. */
  lemma DartNotchIsFilled(a: Vec, b: Vec, c: Vec, d: Vec, ids: seq<nat>, tris: seq<seq<Vec>>, v: Vec)
    requires IsDart(a, b, c, d) && ids == [0, 1, 2, 3] && Clips([a, b, c, d], ids, tris) && v == Vec(0.0, 0.5)
    ensures Cleaned([a, b, c, d]) == [a, b, c, d] && TurnsRight([a, b, c, d]) && !Stuck([a, b, c, d], ids)
    ensures !Inside(v, [a, b, c, d]) && Cover(v, tris) == 2 && Loop(From(v), [a, b, c, d]).winding == 0
  {
    DartIsClean(a, b, c, d);
    DartTurns(a, b, c, d);
    FourClips(a, b, c, d, ids);
    ClipsIsUnique([a, b, c, d], ids, [[b, c, d], [a, b, d]], tris);
    DartCover(v, a, b, c, d);
    InsideIsOddWinding(v, [a, b, c, d]);
  }
}
