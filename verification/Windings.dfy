/** The winding number seen along a segment: it does not change while no edge is touched. */
module Windings {
  import opened Roots
  import opened Planar
  import opened EarClipping
  import opened Segments

  // ----- edges at a height

  /** Where the line of an edge meets the height. */
  function Meet(h: real, a: Vec, b: Vec): real {
    if a.y == b.y then 0.0 else Reach(a.x, a.y, b.x, b.y, h)
  }

  function Reach(x0: real, y0: real, x1: real, y1: real, h: real): real
    requires y0 != y1
  {
    x0 + (h - y0) * (x1 - x0) / (y1 - y0)
  }

  lemma CrossingAtHeight(v: Vec, a: Vec, b: Vec)
    ensures Crossing(v, a, b) ==
            if Straddles(v, a, b) && v.x < Meet(v.y, a, b) then if b.y > v.y then 1 else -1 else 0
  {
  }

  lemma MeetRatio(x0: real, y0: real, x1: real, y1: real, h: real) returns (t: real)
    requires y0 <= h <= y1 || y1 <= h <= y0
    requires y0 != y1
    ensures Unit(t) && Along(y0, y1, t) == h
    ensures Reach(x0, y0, x1, y1, h) == Along(x0, x1, t)
  {
    t := (h - y0) / (y1 - y0);
    QuotientTimes(h - y0, y1 - y0, t);
    ClosedFraction(t, y1 - y0, h - y0);
    ReachFraction(x0, y0, x1, y1, h, t);
  }

  lemma ReachFraction(x0: real, y0: real, x1: real, y1: real, h: real, t: real)
    requires y0 != y1 && t * (y1 - y0) == h - y0
    ensures Reach(x0, y0, x1, y1, h) == Along(x0, x1, t)
  {
    var part, e, rise := h - y0, x1 - x0, y1 - y0;
    assert t * rise == part;
    MeetFraction(t, rise, part, e);
    assert Reach(x0, y0, x1, y1, h) == x0 + part * e / rise;
  }

  lemma ClosedFraction(t: real, rise: real, part: real)
    requires t * rise == part && rise != 0.0
    requires (0.0 <= part <= rise) || (rise <= part <= 0.0)
    ensures Unit(t)
  {
    if rise > 0.0 {
      Quotient(t, rise, part);
    } else {
      NegatedFactor(t, rise, -rise);
      Quotient(t, -rise, -part);
    }
  }

  lemma MeetFraction(t: real, rise: real, part: real, e: real)
    requires rise != 0.0 && t * rise == part
    ensures part * e / rise == t * e
  {
    var x := part * e / rise;
    assert x * rise == part * e;
    assert part * e == (t * e) * rise by { assert (t * rise) * e == (t * e) * rise; }
    SameQuotient(x, t * e, rise);
  }

  /** Where an edge is met at a height it reaches is a point of it. */
  lemma MeetIsOnEdge(a: Vec, b: Vec, h: real) returns (t: real)
    requires a.y != b.y && (a.y <= h <= b.y || b.y <= h <= a.y)
    ensures Unit(t) && At(a, b, t) == Vec(Meet(h, a, b), h)
  {
    t := MeetRatio(a.x, a.y, b.x, b.y, h);
    assert Along(a.y, b.y, t) == h;
    assert Along(a.x, b.x, t) == Reach(a.x, a.y, b.x, b.y, h);
    assert Meet(h, a, b) == Reach(a.x, a.y, b.x, b.y, h);
  }

  /** The line of an edge by its slope. */
  lemma MeetBySlope(a: Vec, b: Vec) returns (k: real)
    requires a.y != b.y
    ensures k * (b.y - a.y) == b.x - a.x
    ensures forall h {:trigger Meet(h, a, b)} :: Meet(h, a, b) == a.x + k * (h - a.y)
  {
    k := (b.x - a.x) / (b.y - a.y);
    QuotientTimes(b.x - a.x, b.y - a.y, k);
    forall h ensures Meet(h, a, b) == a.x + k * (h - a.y) {
      SlopeQuotient(h - a.y, b.x - a.x, b.y - a.y, k);
      assert Meet(h, a, b) == Reach(a.x, a.y, b.x, b.y, h);
    }
  }

  lemma SlopeQuotient(part: real, e: real, rise: real, k: real)
    requires rise != 0.0 && k * rise == e
    ensures part * e / rise == k * part
  {
    var x := part * e / rise;
    assert x * rise == part * e;
    assert (k * part) * rise == part * e by { assert (k * part) * rise == (k * rise) * part; }
    SameQuotient(x, k * part, rise);
  }

  lemma MeetAtEnds(a: Vec, b: Vec)
    requires a.y != b.y
    ensures Meet(a.y, a, b) == a.x && Meet(b.y, a, b) == b.x
  {
    var k := MeetBySlope(a, b);
    assert k * (a.y - a.y) == 0.0;
  }

  // ----- an edge and a segment that do not touch

  /** A straight line's zero between two heights of different sign. */
  lemma ZeroBetween(m: real, k: real, y1: real, y2: real) returns (y: real)
    requires m + k * y1 > 0.0 >= m + k * y2
    ensures m + k * y == 0.0 && (y1 <= y <= y2 || y2 <= y <= y1)
  {
    if m + k * y2 == 0.0 {
      y := y2;
    } else {
      var u := RunsOut(m + k * y1, m + k * y2);
      y := Along(y1, y2, u);
      LinearAlong(m, k, y1, y2, u);
      AlongBetween(y1, y2, u);
    }
  }

  lemma LinearAlong(m: real, k: real, y1: real, y2: real, u: real)
    ensures m + k * Along(y1, y2, u) == Mix(m + k * y1, m + k * y2, u)
  {
    var d := y2 - y1;
    assert k * (y1 + u * d) == k * y1 + u * (k * d);
    assert k * y2 == k * y1 + k * d;
    Mixed(m + k * y1, m + k * y2, u);
    assert (m + k * y2) - (m + k * y1) == k * d;
  }

  lemma AlongBetween(x: real, y: real, u: real)
    requires Unit(u)
    ensures x <= Along(x, y, u) <= y || y <= Along(x, y, u) <= x
  {
    if x <= y {
      var w := Between(u, y - x);
    } else {
      var w := Between(u, x - y);
      assert u * (y - x) == -w;
    }
  }

  /** The edge a b passes right of the segment v w at this height. */
  predicate RightAt(a: Vec, b: Vec, v: Vec, w: Vec, y: real) { Meet(y, a, b) > Meet(y, v, w) }

  predicate Reaches(a: Vec, b: Vec, y: real) { a.y <= y <= b.y || b.y <= y <= a.y }

  /** An edge that turns from right to left touches. */
  lemma TurnTouches(a: Vec, b: Vec, v: Vec, w: Vec, y1: real, y2: real)
    requires a.y != b.y && v.y != w.y
    requires Reaches(a, b, y1) && Reaches(a, b, y2) && Reaches(v, w, y1) && Reaches(v, w, y2)
    requires RightAt(a, b, v, w, y1) && !RightAt(a, b, v, w, y2)
    ensures !Apart(a, b, v, w)
  {
    var m, k := GapLine(a, b, v, w);
    var y := ZeroBetween(m, k, y1, y2);
    TouchAt(a, b, v, w, y);
  }

  lemma TouchAt(a: Vec, b: Vec, v: Vec, w: Vec, y: real)
    requires a.y != b.y && v.y != w.y && Reaches(a, b, y) && Reaches(v, w, y) && Meet(y, a, b) == Meet(y, v, w)
    ensures !Apart(a, b, v, w)
  {
    var t := MeetIsOnEdge(a, b, y);
    var u := MeetIsOnEdge(v, w, y);
    assert At(a, b, t) == At(v, w, u);
  }

  /** How far the edge passes right of the segment is linear in the height. */
  lemma GapLine(a: Vec, b: Vec, v: Vec, w: Vec) returns (m: real, d: real)
    requires a.y != b.y && v.y != w.y
    ensures forall h {:trigger Meet(h, a, b)} :: Meet(h, a, b) - Meet(h, v, w) == m + d * h
  {
    var k := MeetBySlope(a, b);
    var l := MeetBySlope(v, w);
    m, d := (a.x - k * a.y) - (v.x - l * v.y), k - l;
    forall h ensures Meet(h, a, b) - Meet(h, v, w) == m + d * h {
      GapIsLinear(a.x, a.y, k, v.x, v.y, l, m, h);
    }
  }

  lemma GapIsLinear(x: real, y: real, k: real, x': real, y': real, l: real, m: real, h: real)
    requires m == (x - k * y) - (x' - l * y')
    ensures (x + k * (h - y)) - (x' + l * (h - y')) == m + (k - l) * h
  {
  }

  lemma SideKept(a: Vec, b: Vec, v: Vec, w: Vec, y1: real, y2: real)
    requires a.y != b.y && v.y != w.y && Apart(a, b, v, w)
    requires Reaches(a, b, y1) && Reaches(a, b, y2) && Reaches(v, w, y1) && Reaches(v, w, y2)
    ensures RightAt(a, b, v, w, y1) <==> RightAt(a, b, v, w, y2)
  {
    if RightAt(a, b, v, w, y1) && !RightAt(a, b, v, w, y2) { TurnTouches(a, b, v, w, y1, y2); }
    if RightAt(a, b, v, w, y2) && !RightAt(a, b, v, w, y1) { TurnTouches(a, b, v, w, y2, y1); }
  }

  // ----- telescoping

  /** A vertex right of the rising segment v w and no higher than w. */
  function Passed(v: Vec, w: Vec, p: Vec): int { if v.y < p.y <= w.y && p.x > Meet(p.y, v, w) then 1 else 0 }

  lemma RisingTelescopes(a: Vec, b: Vec, v: Vec, w: Vec)
    requires a.y < b.y && v.y < w.y && Apart(a, b, v, w)
    ensures Crossing(v, a, b) - Crossing(w, a, b) == Passed(v, w, b) - Passed(v, w, a)
  {
    CrossingAtHeight(v, a, b);
    CrossingAtHeight(w, a, b);
    MeetAtEnds(a, b);
    MeetAtEnds(v, w);
    if b.y > v.y && a.y <= w.y {
      SideKept(a, b, v, w, Max(a.y, v.y), Min(b.y, w.y));
    }
  }

  lemma FlipAlong(a: Vec, b: Vec, t: real)
    ensures At(b, a, t) == At(a, b, 1.0 - t)
  {
    FlipOne(a.x, b.x, t);
    FlipOne(a.y, b.y, t);
  }

  lemma FlipOne(x: real, y: real, t: real)
    ensures Along(y, x, t) == Along(x, y, 1.0 - t)
  {
  }

  lemma EdgeFlipped(a: Vec, b: Vec, v: Vec, w: Vec)
    requires Apart(a, b, v, w)
    ensures Apart(b, a, v, w)
  {
    forall t, u | Unit(t) && Unit(u) ensures At(b, a, t) != At(v, w, u) {
      FlipAlong(a, b, t);
      assert Unit(1.0 - t);
    }
  }

  lemma SegmentFlipped(a: Vec, b: Vec, v: Vec, w: Vec)
    requires Apart(a, b, v, w)
    ensures Apart(a, b, w, v)
  {
    ApartIsSymmetric(a, b, v, w);
    EdgeFlipped(v, w, a, b);
    ApartIsSymmetric(w, v, a, b);
  }

  /** A level edge that changes sides touches. */
  lemma LevelTouches(a: Vec, b: Vec, v: Vec, w: Vec)
    requires a.y == b.y && v.y != w.y && Reaches(v, w, a.y)
    requires a.x > Meet(a.y, v, w) >= b.x
    ensures !Apart(a, b, v, w)
  {
    var x := Meet(a.y, v, w);
    var u := MeetIsOnEdge(v, w, a.y);
    var t := MeetRatio(0.0, a.x, 0.0, b.x, x);
    assert Along(a.y, b.y, t) == a.y + t * 0.0;
    assert At(a, b, t) == At(v, w, u);
  }

  lemma LevelTelescopes(a: Vec, b: Vec, v: Vec, w: Vec)
    requires a.y == b.y && v.y < w.y && Apart(a, b, v, w)
    ensures Crossing(v, a, b) == Crossing(w, a, b) == 0 && Passed(v, w, a) == Passed(v, w, b)
  {
    if v.y < a.y <= w.y {
      EdgeFlipped(a, b, v, w);
      if a.x > Meet(a.y, v, w) >= b.x { LevelTouches(a, b, v, w); }
      if b.x > Meet(a.y, v, w) >= a.x { LevelTouches(b, a, v, w); }
    }
  }

  /** What an untouched edge adds along the segment depends on its ends alone. */
  lemma EdgeTelescopes(a: Vec, b: Vec, v: Vec, w: Vec)
    requires v.y < w.y && Apart(a, b, v, w)
    ensures Crossing(v, a, b) - Crossing(w, a, b) == Passed(v, w, b) - Passed(v, w, a)
  {
    if a.y < b.y {
      RisingTelescopes(a, b, v, w);
    } else if a.y == b.y {
      LevelTelescopes(a, b, v, w);
    } else {
      EdgeFlipped(a, b, v, w);
      RisingTelescopes(b, a, v, w);
      Reversed(v, a, b);
      Reversed(w, a, b);
    }
  }

  // ----- around the loop

  /** The signed crossings of the first n edges. */
  function WindSum(v: Vec, p: seq<Vec>, n: nat): int
    requires n <= |p|
  {
    if n == 0 then 0 else WindSum(v, p, n - 1) + Crossing(v, p[n - 1], p[Next(n - 1, |p|)])
  }

  lemma {:induction false} PathIsWindSum(v: Vec, p: seq<Vec>, n: nat)
    requires n < |p|
    ensures Path(From(v), p[..n + 1]).winding == WindSum(v, p, n)
  {
    if n > 0 {
      PathIsWindSum(v, p, n - 1);
      PathSnoc(From(v), p, n);
    }
  }

  lemma LoopCloses(g: EdgeQuantity, p: seq<Vec>)
    requires p != []
    ensures Loop(g, p) == Plus(Path(g, p[..|p|]), g(p[|p| - 1], p[0]))
  {
    assert p[..|p|] == p;
  }

  lemma LoopIsWindSum(v: Vec, p: seq<Vec>)
    requires p != []
    ensures Loop(From(v), p).winding == WindSum(v, p, |p|)
  {
    var n := |p| - 1;
    PathIsWindSum(v, p, n);
    LoopCloses(From(v), p);
    LastTerm(v, p, n, Path(From(v), p[..|p|]));
  }

  lemma LastTerm(v: Vec, p: seq<Vec>, n: nat, sofar: Tally)
    requires n + 1 == |p| && sofar.winding == WindSum(v, p, n)
    ensures Plus(sofar, From(v)(p[n], p[0])).winding == WindSum(v, p, n + 1)
  {
  }

  /** The segment touches no edge of the loop. */
  ghost predicate Untouched(p: seq<Vec>, v: Vec, w: Vec) {
    forall i: nat :: i < |p| ==> Apart(p[i], p[Next(i, |p|)], v, w)
  }

  lemma {:induction false} SumTelescopes(p: seq<Vec>, v: Vec, w: Vec, n: nat)
    requires v.y < w.y && Untouched(p, v, w) && n <= |p| && p != []
    ensures WindSum(v, p, n) - WindSum(w, p, n) == Passed(v, w, p[if n == |p| then 0 else n]) - Passed(v, w, p[0])
  {
    if n > 0 {
      SumTelescopes(p, v, w, n - 1);
      EdgeTelescopes(p[n - 1], p[Next(n - 1, |p|)], v, w);
    }
  }

  lemma LevelSegment(a: Vec, b: Vec, v: Vec, w: Vec)
    requires v.y == w.y && v.x <= w.x && Apart(a, b, v, w)
    ensures Crossing(v, a, b) == Crossing(w, a, b)
  {
    CrossingAtHeight(v, a, b);
    CrossingAtHeight(w, a, b);
    if Straddles(v, a, b) && v.x < Meet(v.y, a, b) <= w.x {
      LevelMeets(a, b, v, w);
    }
  }

  lemma LevelMeets(a: Vec, b: Vec, v: Vec, w: Vec)
    requires v.y == w.y && Straddles(v, a, b) && v.x < Meet(v.y, a, b) <= w.x
    ensures !Apart(a, b, v, w)
  {
    var t := MeetIsOnEdge(a, b, v.y);
    var u := MeetRatio(0.0, v.x, 0.0, w.x, Meet(v.y, a, b));
    assert Along(v.y, w.y, u) == v.y + u * 0.0;
    assert At(a, b, t) == At(v, w, u);
  }

  lemma {:induction false} LevelSum(p: seq<Vec>, v: Vec, w: Vec, n: nat)
    requires v.y == w.y && v.x <= w.x && Untouched(p, v, w) && n <= |p|
    ensures WindSum(v, p, n) == WindSum(w, p, n)
  {
    if n > 0 {
      LevelSum(p, v, w, n - 1);
      LevelSegment(p[n - 1], p[Next(n - 1, |p|)], v, w);
    }
  }

  lemma UntouchedFlipped(p: seq<Vec>, v: Vec, w: Vec)
    requires Untouched(p, v, w)
    ensures Untouched(p, w, v)
  {
    forall i: nat | i < |p| ensures Apart(p[i], p[Next(i, |p|)], w, v) {
      SegmentFlipped(p[i], p[Next(i, |p|)], v, w);
    }
  }

  /** The polygon winds equally around both ends of a segment that touches none of its edges. */
  lemma SameWinding(p: seq<Vec>, v: Vec, w: Vec)
    requires p != [] && Untouched(p, v, w)
    ensures Loop(From(v), p).winding == Loop(From(w), p).winding
  {
    LoopIsWindSum(v, p);
    LoopIsWindSum(w, p);
    UntouchedFlipped(p, v, w);
    if v.y < w.y {
      SumTelescopes(p, v, w, |p|);
    } else if w.y < v.y {
      SumTelescopes(p, w, v, |p|);
    } else if v.x <= w.x {
      LevelSum(p, v, w, |p|);
    } else {
      LevelSum(p, w, v, |p|);
    }
  }
}
