/** The lattice of object centres a table enumerates, and its analytic size
    (workbench/research/support/hugmap.py). Exact reals; the floating slack terms are zero. */
module Grid {
  import opened Integers
  import opened Roots

  /** REACH, in millimetres. */
  const REACH_MM := 500.0

  datatype Config = Config(dx: real, dy: real, dtheta: real, muAllow: real)

  datatype Shape = Circle | OtherShape

  datatype Point = Point(x: real, y: real, theta: real)

  /** Config.checked raises on anything else. */
  predicate Checked(c: Config) {
    && c.dx > 0.0 && c.dy > 0.0 && c.dtheta > 0.0 && c.muAllow > 0.0
    && c.dtheta <= 360.0
    && (if c.dx <= c.dy then c.dx else c.dy) >= 0.01
  }

  /** The coordinate of lattice index i. */
  function Mark(i: int, step: real): real { i as real * step }

  function ThetaValues(c: Config, shape: Shape): (thetas: seq<real>)
    requires Checked(c)
    ensures forall i, j :: 0 <= i < j < |thetas| ==> thetas[i] < thetas[j]
  {
    if shape.Circle? then [0.0]
    else
      assert c.dtheta * 0.0 == 0.0 && 360.0 / c.dtheta > 0.0;
      Angles(c.dtheta, Ceiling(360.0 / c.dtheta))
  }

  function Angles(step: real, count: nat): (angles: seq<real>)
    requires step > 0.0
    ensures |angles| == count
    ensures forall i :: 0 <= i < count ==> angles[i] == -180.0 + Mark(i, step)
    ensures forall i, j :: 0 <= i < j < count ==> angles[i] < angles[j]
  {
    if count == 0 then []
    else
      var rest := Angles(step, count - 1);
      assert forall i :: 0 <= i < count - 1 ==> rest[i] < -180.0 + Mark(count - 1, step) by {
        forall i | 0 <= i < count - 1 ensures rest[i] < -180.0 + Mark(count - 1, step) {
          Stretch(i, count - 1, step);
        }
      }
      rest + [-180.0 + Mark(count - 1, step)]
  }

  /** The last index on an axis: range(-AxisEnd, 1) for x, range(AxisEnd + 1) for y. */
  function AxisEnd(step: real): (n: int)
    requires step > 0.0
    ensures n >= 0 && Mark(n, step) <= REACH_MM < Mark(n + 1, step)
  {
    FloorQuotient(REACH_MM, step);
    (REACH_MM / step).Floor
  }

  lemma FloorQuotient(a: real, step: real)
    requires step > 0.0 && a >= 0.0
    ensures var n := (a / step).Floor; n >= 0 && Mark(n, step) <= a < Mark(n + 1, step)
  {
    var q := a / step;
    assert q * step == a;
    Scaled(0.0, q, step);
    BetweenMultiples(q, q.Floor, step, a);
  }

  lemma BetweenMultiples(q: real, n: int, step: real, a: real)
    requires step > 0.0 && n as real <= q < (n + 1) as real && q * step == a
    ensures Mark(n, step) <= a < Mark(n + 1, step)
  {
    Scaled(n as real, q, step);
    Scaled(q, (n + 1) as real, step);
  }

  lemma Stretch(i: int, j: int, step: real)
    requires step > 0.0
    ensures i < j <==> Mark(i, step) < Mark(j, step)
    ensures i == j <==> Mark(i, step) == Mark(j, step)
  {
    Scaled(i as real, j as real, step);
    Scaled(j as real, i as real, step);
  }

  predicate Inside(u: real, v: real) { u * u + v * v <= REACH_MM * REACH_MM }

  // ----- the enumerated points

  function Cell(c: Config, thetas: seq<real>, ix: int, iy: int): seq<Point> {
    var u, v := Mark(ix, c.dx), Mark(iy, c.dy);
    if Inside(u, v) then seq(|thetas|, i requires 0 <= i < |thetas| => Point(u, v, thetas[i])) else []
  }

  /** The first k cells of column ix. */
  function Column(c: Config, thetas: seq<real>, ix: int, k: nat): seq<Point> {
    if k == 0 then [] else Column(c, thetas, ix, k - 1) + Cell(c, thetas, ix, k - 1)
  }

  /** k sequences one after another. */
  function Joined<T>(part: int -> seq<T>, first: int, k: nat): seq<T> {
    if k == 0 then [] else Joined(part, first, k - 1) + part(first + (k - 1))
  }

  /** The first k columns from x index `first`, each m cells high. */
  function Columns(c: Config, thetas: seq<real>, first: int, k: nat, m: nat): seq<Point> {
    Joined(ix => Column(c, thetas, ix, m), first, k)
  }

  function PointsOf(c: Config, thetas: seq<real>): seq<Point>
    requires Checked(c)
  {
    Columns(c, thetas, -AxisEnd(c.dx), AxisEnd(c.dx) + 1, AxisEnd(c.dy) + 1)
  }

  /** grid_points: x-major nested loops. */
  method GridPoints(c: Config, shape: Shape) returns (points: seq<Point>)
    requires Checked(c)
    ensures points == PointsOf(c, ThetaValues(c, shape))
  {
    var thetas := ThetaValues(c, shape);
    var nx, ny := AxisEnd(c.dx), AxisEnd(c.dy);
    points := [];
    for ix := -nx to 1
      invariant points == Columns(c, thetas, -nx, ix + nx, ny + 1)
    {
      points := WalkColumn(c, thetas, ix, ny + 1, points);
      NextColumn(c, thetas, -nx, ix + nx, ny + 1);
    }
  }

  lemma NextColumn(c: Config, thetas: seq<real>, first: int, k: nat, m: nat)
    ensures Columns(c, thetas, first, k + 1, m) == Columns(c, thetas, first, k, m) + Column(c, thetas, first + k, m)
  {
  }

  /** The inner loop. */
  method WalkColumn(c: Config, thetas: seq<real>, ix: int, m: nat, start: seq<Point>) returns (points: seq<Point>)
    ensures points == start + Column(c, thetas, ix, m)
  {
    points := start;
    for iy := 0 to m
      invariant points == start + Column(c, thetas, ix, iy)
    {
      points := AddCell(c, thetas, ix, iy, points);
      assert start + Column(c, thetas, ix, iy) + Cell(c, thetas, ix, iy) == start + Column(c, thetas, ix, iy + 1);
    }
  }

  method AddCell(c: Config, thetas: seq<real>, ix: int, iy: int, start: seq<Point>) returns (points: seq<Point>)
    ensures points == start + Cell(c, thetas, ix, iy)
  {
    points := start;
    var u, v := Mark(ix, c.dx), Mark(iy, c.dy);
    if Inside(u, v) {
      for i := 0 to |thetas|
        invariant points == start + Cell(c, thetas, ix, iy)[..i]
      {
        points := points + [Point(u, v, thetas[i])];
      }
    }
  }

  // ----- the grid is the lattice in the closed quarter disc, each point once

  ghost predicate OnLattice(c: Config, thetas: seq<real>, p: Point) {
    && p.theta in thetas && Inside(p.x, p.y)
    && exists ix: int, iy: int :: ix <= 0 <= iy && p.x == Mark(ix, c.dx) && p.y == Mark(iy, c.dy)
  }

  lemma {:induction false} InColumn(c: Config, thetas: seq<real>, ix: int, k: nat, p: Point)
    ensures p in Column(c, thetas, ix, k)
       <==> p.theta in thetas && Inside(p.x, p.y) && p.x == Mark(ix, c.dx) && exists iy: int ::
         0 <= iy < k && p.y == Mark(iy, c.dy)
  {
    if k > 0 {
      InColumn(c, thetas, ix, k - 1, p);
      InCell(c, thetas, ix, k - 1, p);
    }
  }

  lemma InCell(c: Config, thetas: seq<real>, ix: int, iy: int, p: Point)
    ensures p in Cell(c, thetas, ix, iy)
       <==> p.theta in thetas && Inside(p.x, p.y) && p.x == Mark(ix, c.dx) && p.y == Mark(iy, c.dy)
  {
    if p.theta in thetas && Inside(p.x, p.y) && p.x == Mark(ix, c.dx) && p.y == Mark(iy, c.dy) {
      var i :| 0 <= i < |thetas| && thetas[i] == p.theta;
      assert Cell(c, thetas, ix, iy)[i] == p;
    }
  }

  /** Some of the k parts has x. */
  ghost predicate InSome<T>(part: int -> seq<T>, first: int, k: nat, x: T) {
    exists i: int :: first <= i < first + k && x in part(i)
  }

  lemma OnePartMore<T>(part: int -> seq<T>, first: int, k: nat, x: T)
    ensures InSome(part, first, k + 1, x) <==> InSome(part, first, k, x) || x in part(first + k)
  {
    if InSome(part, first, k, x) {
      var i: int :| first <= i < first + k && x in part(i);
      assert first <= i < first + (k + 1);
    }
  }

  lemma {:induction false} InJoined<T>(part: int -> seq<T>, first: int, k: nat, x: T)
    ensures x in Joined(part, first, k) <==> InSome(part, first, k, x)
  {
    if k > 0 {
      InJoined(part, first, k - 1, x);
      OnePartMore(part, first, k - 1, x);
    }
  }

  ghost predicate Apart<T>(s: seq<T>, t: seq<T>) { forall x :: x in s ==> x !in t }

  lemma {:induction false} ApartFromJoined<T>(part: int -> seq<T>, first: int, k: nat, t: seq<T>)
    requires forall i: int :: first <= i < first + k ==> Apart(part(i), t)
    ensures Apart(Joined(part, first, k), t)
  {
    if k > 0 {
      ApartFromJoined(part, first, k - 1, t);
      assert Apart(part(first + (k - 1)), t);
    }
  }

  lemma {:induction false} JoinedOnce<T>(part: int -> seq<T>, first: int, k: nat)
    requires forall i :: NoRepeats(part(i))
    requires forall i: int, j: int :: i < j ==> Apart(part(i), part(j))
    ensures NoRepeats(Joined(part, first, k))
  {
    if k > 0 {
      JoinedOnce(part, first, k - 1);
      ApartFromJoined(part, first, k - 1, part(first + (k - 1)));
      JoinNoRepeats(Joined(part, first, k - 1), part(first + (k - 1)));
    }
  }

  /** The bounding indices lose no lattice point. */
  lemma AxisReaches(i: int, step: real, other: real)
    requires step > 0.0 && Inside(Mark(i, step), other)
    ensures -AxisEnd(step) <= i <= AxisEnd(step)
  {
    var n, u := AxisEnd(step), Mark(i, step);
    assert other * other >= 0.0;
    assert u * u <= REACH_MM * REACH_MM;
    assert -REACH_MM <= u <= REACH_MM by {
      if u > REACH_MM { Larger(u, REACH_MM); } else if -u > REACH_MM { Larger(-u, REACH_MM); }
    }
    Stretch(i, n + 1, step);
    Stretch(-i, n + 1, step);
    assert Mark(-i, step) == -u;
  }

  lemma InColumns(c: Config, thetas: seq<real>, first: int, k: nat, m: nat, p: Point)
    ensures p in Columns(c, thetas, first, k, m)
       <==> exists ix: int :: first <= ix < first + k && p in Column(c, thetas, ix, m)
  {
    var part := (ix: int) => Column(c, thetas, ix, m);
    InJoined(part, first, k, p);
    if p in Columns(c, thetas, first, k, m) {
      var ix: int :| first <= ix < first + k && p in part(ix);
      assert p in Column(c, thetas, ix, m);
    }
    if ix: int :| first <= ix < first + k && p in Column(c, thetas, ix, m) {
      assert p in part(ix);
    }
  }

  lemma PointIsOnLattice(c: Config, thetas: seq<real>, first: int, m: nat, p: Point)
    requires first <= 0 && p in Columns(c, thetas, first, 1 - first, m)
    ensures OnLattice(c, thetas, p)
  {
    InColumns(c, thetas, first, 1 - first, m, p);
    var ix: int :| first <= ix < first + (1 - first) && p in Column(c, thetas, ix, m);
    InColumn(c, thetas, ix, m, p);
  }

  lemma PlacedInColumn(c: Config, thetas: seq<real>, ix: int, iy: int, m: nat, p: Point)
    requires p.theta in thetas && Inside(p.x, p.y) && p.x == Mark(ix, c.dx) && p.y == Mark(iy, c.dy) && 0 <= iy < m
    ensures p in Column(c, thetas, ix, m)
  {
    InColumn(c, thetas, ix, m, p);
  }

  lemma LatticeIsEnumerated(c: Config, thetas: seq<real>, nx: int, ny: int, p: Point)
    requires Checked(c) && OnLattice(c, thetas, p) && nx == AxisEnd(c.dx) && ny == AxisEnd(c.dy)
    ensures p in PointsOf(c, thetas)
  {
    var ix: int, iy: int :| ix <= 0 <= iy && p.x == Mark(ix, c.dx) && p.y == Mark(iy, c.dy);
    AxisReaches(ix, c.dx, p.y);
    AxisReaches(iy, c.dy, p.x);
    PlacedInColumn(c, thetas, ix, iy, ny + 1, p);
    ColumnIsJoined(c, thetas, -nx, nx + 1, ny + 1, ix, p);
  }

  lemma ColumnIsJoined(c: Config, thetas: seq<real>, first: int, k: nat, m: nat, ix: int, p: Point)
    requires first <= ix < first + k && p in Column(c, thetas, ix, m)
    ensures p in Columns(c, thetas, first, k, m)
  {
    InColumns(c, thetas, first, k, m, p);
  }

  lemma GridIsLattice(c: Config, thetas: seq<real>, p: Point)
    requires Checked(c)
    ensures p in PointsOf(c, thetas) <==> OnLattice(c, thetas, p)
  {
    var nx, ny := AxisEnd(c.dx), AxisEnd(c.dy);
    if p in PointsOf(c, thetas) {
      PointIsOnLattice(c, thetas, -nx, ny + 1, p);
    }
    if OnLattice(c, thetas, p) {
      LatticeIsEnumerated(c, thetas, nx, ny, p);
    }
  }

  ghost predicate NoRepeats<T>(s: seq<T>) { forall i, j :: 0 <= i < j < |s| ==> s[i] != s[j] }

  lemma JoinNoRepeats<T>(s: seq<T>, t: seq<T>)
    requires NoRepeats(s) && NoRepeats(t) && forall x :: x in s ==> x !in t
    ensures NoRepeats(s + t)
  {
    var all := s + t;
    forall i, j | 0 <= i < j < |all| ensures all[i] != all[j] {
      if i < |s| <= j {
        assert all[i] in s && all[j] in t;
      }
    }
  }

  lemma {:induction false} ColumnOnce(c: Config, thetas: seq<real>, ix: int, k: nat)
    requires c.dy > 0.0 && NoRepeats(thetas)
    ensures NoRepeats(Column(c, thetas, ix, k))
  {
    if k > 0 {
      ColumnOnce(c, thetas, ix, k - 1);
      var cell := Cell(c, thetas, ix, k - 1);
      assert NoRepeats(cell);
      forall p | p in Column(c, thetas, ix, k - 1) ensures p !in cell {
        InColumn(c, thetas, ix, k - 1, p);
        InCell(c, thetas, ix, k - 1, p);
        var iy: int :| 0 <= iy < k - 1 && p.y == Mark(iy, c.dy);
        Stretch(iy, k - 1, c.dy);
      }
      JoinNoRepeats(Column(c, thetas, ix, k - 1), cell);
    }
  }

  /** A point of one column is not in a later one. */
  lemma EarlierColumn(c: Config, thetas: seq<real>, i: int, j: int, m: nat, p: Point)
    requires c.dx > 0.0 && i < j && p in Column(c, thetas, i, m)
    ensures p !in Column(c, thetas, j, m)
  {
    InColumn(c, thetas, i, m, p);
    InColumn(c, thetas, j, m, p);
    Stretch(i, j, c.dx);
  }

  lemma ColumnsOnce(c: Config, thetas: seq<real>, first: int, k: nat, m: nat)
    requires c.dx > 0.0 && c.dy > 0.0 && NoRepeats(thetas)
    ensures NoRepeats(Columns(c, thetas, first, k, m))
  {
    var part := (ix: int) => Column(c, thetas, ix, m);
    forall i ensures NoRepeats(part(i)) { ColumnOnce(c, thetas, i, m); }
    forall i: int, j: int | i < j ensures Apart(part(i), part(j)) {
      forall p | p in part(i) ensures p !in part(j) { EarlierColumn(c, thetas, i, j, m, p); }
    }
    JoinedOnce(part, first, k);
  }

  lemma PointsOnce(c: Config, shape: Shape)
    requires Checked(c)
    ensures NoRepeats(PointsOf(c, ThetaValues(c, shape)))
  {
    ColumnsOnce(c, ThetaValues(c, shape), -AxisEnd(c.dx), AxisEnd(c.dx) + 1, AxisEnd(c.dy) + 1);
  }

  // ----- the enumeration in plain terms

  /** The lattice written out: whole multiples of the steps, left of and above the centre, within 500 mm of it. */
  lemma LatticeIsDisc(c: Config, thetas: seq<real>, p: Point)
    ensures OnLattice(c, thetas, p) <==>
      && p.theta in thetas && p.x * p.x + p.y * p.y <= 250000.0
      && exists ix: int, iy: int :: ix <= 0 <= iy && IsMultiple(p.x, ix, c.dx) && IsMultiple(p.y, iy, c.dy)
  {
    if ix: int, iy: int :| ix <= 0 <= iy && p.x == Mark(ix, c.dx) && p.y == Mark(iy, c.dy) {
      assert IsMultiple(p.x, ix, c.dx) && IsMultiple(p.y, iy, c.dy);
    }
    if ix: int, iy: int :| ix <= 0 <= iy && IsMultiple(p.x, ix, c.dx) && IsMultiple(p.y, iy, c.dy) {
      assert p.x == Mark(ix, c.dx) && p.y == Mark(iy, c.dy);
    }
  }

  predicate IsMultiple(v: real, i: int, step: real) { v == i as real * step }

  predicate IsAngle(theta: real, i: int, step: real) { theta == -180.0 + i as real * step }

  /** A circle is not turned; other shapes take every multiple of the step from -180 up to below 180 degrees. */
  lemma AnglesFillTurn(c: Config, theta: real)
    requires Checked(c)
    ensures ThetaValues(c, Circle) == [0.0]
    ensures theta in ThetaValues(c, OtherShape) <==>
              exists i: nat :: IsAngle(theta, i, c.dtheta) && theta < 180.0
  {
    var count := Ceiling(360.0 / c.dtheta);
    var thetas := ThetaValues(c, OtherShape);
    assert c.dtheta * 0.0 == 0.0 && 360.0 / c.dtheta > 0.0;
    if theta in thetas {
      var i :| 0 <= i < |thetas| && thetas[i] == theta;
      BelowTurn(c.dtheta, i, count);
      assert IsAngle(theta, i, c.dtheta);
    }
    if i: nat :| IsAngle(theta, i, c.dtheta) && theta < 180.0 {
      BelowTurn(c.dtheta, i, count);
      assert thetas[i] == theta;
    }
  }

  lemma BelowTurn(step: real, i: nat, count: int)
    requires step > 0.0 && count == Ceiling(360.0 / step)
    ensures i < count <==> Mark(i, step) < 360.0
  {
    var q := 360.0 / step;
    assert q * step == 360.0;
    Scaled(i as real, q, step);
    Scaled(q, i as real, step);
  }

  predicate Earlier(p: Point, q: Point) {
    p.x < q.x || (p.x == q.x && (p.y < q.y || (p.y == q.y && p.theta < q.theta)))
  }

  ghost predicate InOrder(s: seq<Point>) { forall i, j :: 0 <= i < j < |s| ==> Earlier(s[i], s[j]) }

  lemma JoinInOrder(s: seq<Point>, t: seq<Point>)
    requires InOrder(s) && InOrder(t) && forall p, q :: p in s && q in t ==> Earlier(p, q)
    ensures InOrder(s + t)
  {
    var all := s + t;
    forall i, j | 0 <= i < j < |all| ensures Earlier(all[i], all[j]) {
      if i < |s| <= j {
        assert all[i] in s && all[j] in t;
      }
    }
  }

  lemma {:induction false} ColumnInOrder(c: Config, thetas: seq<real>, ix: int, k: nat)
    requires c.dy > 0.0 && (forall i, j :: 0 <= i < j < |thetas| ==> thetas[i] < thetas[j])
    ensures InOrder(Column(c, thetas, ix, k))
  {
    if k > 0 {
      ColumnInOrder(c, thetas, ix, k - 1);
      forall p, q | p in Column(c, thetas, ix, k - 1) && q in Cell(c, thetas, ix, k - 1) ensures Earlier(p, q) {
        InColumn(c, thetas, ix, k - 1, p);
        InCell(c, thetas, ix, k - 1, q);
        var iy: int :| 0 <= iy < k - 1 && p.y == Mark(iy, c.dy);
        Stretch(iy, k - 1, c.dy);
      }
      JoinInOrder(Column(c, thetas, ix, k - 1), Cell(c, thetas, ix, k - 1));
    }
  }

  lemma ColumnsFollow(c: Config, thetas: seq<real>, first: int, k: nat, m: nat, p: Point, q: Point)
    requires c.dx > 0.0 && p in Columns(c, thetas, first, k, m) && q in Column(c, thetas, first + k, m)
    ensures Earlier(p, q)
  {
    InColumns(c, thetas, first, k, m, p);
    var ix: int :| first <= ix < first + k && p in Column(c, thetas, ix, m);
    InColumn(c, thetas, ix, m, p);
    InColumn(c, thetas, first + k, m, q);
    Stretch(ix, first + k, c.dx);
  }

  lemma OneColumnMore(c: Config, thetas: seq<real>, first: int, k: nat, m: nat)
    requires c.dx > 0.0 && InOrder(Columns(c, thetas, first, k, m)) && InOrder(Column(c, thetas, first + k, m))
    ensures InOrder(Columns(c, thetas, first, k + 1, m))
  {
    var before, last := Columns(c, thetas, first, k, m), Column(c, thetas, first + k, m);
    forall p, q | p in before && q in last ensures Earlier(p, q) { ColumnsFollow(c, thetas, first, k, m, p, q); }
    JoinInOrder(before, last);
    NextColumn(c, thetas, first, k, m);
  }

  lemma {:induction false} ColumnsInOrder(c: Config, thetas: seq<real>, first: int, k: nat, m: nat)
    requires c.dx > 0.0 && c.dy > 0.0 && (forall i, j :: 0 <= i < j < |thetas| ==> thetas[i] < thetas[j])
    ensures InOrder(Columns(c, thetas, first, k, m))
  {
    if k > 0 {
      ColumnsInOrder(c, thetas, first, k - 1, m);
      ColumnInOrder(c, thetas, first + (k - 1), m);
      OneColumnMore(c, thetas, first, k - 1, m);
    }
  }

  /** The points come ordered by x, then y, then angle. */
  lemma PointsInOrder(c: Config, shape: Shape)
    requires Checked(c)
    ensures InOrder(PointsOf(c, ThetaValues(c, shape)))
  {
    ColumnsInOrder(c, ThetaValues(c, shape), -AxisEnd(c.dx), AxisEnd(c.dx) + 1, AxisEnd(c.dy) + 1);
  }

  // ----- the analytic count

  /** The lattice points of row iy: one more than the floor of its half width over dx. */
  function RowSize(c: Config, root: real -> real, iy: int): int
    requires c.dx > 0.0
  {
    (HalfWidth(root, Mark(iy, c.dy)) / c.dx).Floor + 1
  }

  /** Half the disc's width at height y. */
  function HalfWidth(root: real -> real, y: real): real {
    var left := REACH_MM * REACH_MM - y * y;
    root(if left >= 0.0 then left else 0.0)
  }

  function RowSizes(c: Config, root: real -> real, m: nat): int
    requires c.dx > 0.0
  {
    if m == 0 then 0 else RowSizes(c, root, m - 1) + RowSize(c, root, m - 1)
  }

  /** grid_size: counting by rows without enumerating; it equals the length of the enumeration. */
  method GridSize(c: Config, root: real -> real, shape: Shape) returns (size: int)
    requires Checked(c) && IsRoot(root)
    ensures size == |PointsOf(c, ThetaValues(c, shape))|
  {
    var count := 0;
    for iy := 0 to AxisEnd(c.dy) + 1
      invariant count == RowSizes(c, root, iy)
    {
      count := count + RowSize(c, root, iy);
    }
    var thetas := ThetaValues(c, shape);
    size := |thetas| * count;
    SizeIsLength(c, root, thetas);
  }

  // Counting index pairs by columns and by rows.

  function Hits(inside: (int, int) -> bool, i: int, m: nat): nat {
    if m == 0 then 0 else Hits(inside, i, m - 1) + if inside(i, m - 1) then 1 else 0
  }

  function ByColumn(inside: (int, int) -> bool, first: int, k: nat, m: nat): nat {
    if k == 0 then 0 else ByColumn(inside, first, k - 1, m) + Hits(inside, first + k - 1, m)
  }

  function RowHits(inside: (int, int) -> bool, first: int, k: nat, j: int): nat {
    if k == 0 then 0 else RowHits(inside, first, k - 1, j) + if inside(first + k - 1, j) then 1 else 0
  }

  function ByRow(inside: (int, int) -> bool, first: int, k: nat, m: nat): nat {
    if m == 0 then 0 else ByRow(inside, first, k, m - 1) + RowHits(inside, first, k, m - 1)
  }

  lemma {:induction false} AddColumn(inside: (int, int) -> bool, first: int, k: nat, m: nat)
    ensures ByRow(inside, first, k + 1, m) == ByRow(inside, first, k, m) + Hits(inside, first + k, m)
  {
    if m > 0 {
      AddColumn(inside, first, k, m - 1);
    }
  }

  lemma {:induction false} NoColumns(inside: (int, int) -> bool, first: int, m: nat)
    ensures ByRow(inside, first, 0, m) == 0
  {
    if m > 0 {
      NoColumns(inside, first, m - 1);
    }
  }

  lemma {:induction false} Exchange(inside: (int, int) -> bool, first: int, k: nat, m: nat)
    ensures ByColumn(inside, first, k, m) == ByRow(inside, first, k, m)
  {
    if k == 0 {
      NoColumns(inside, first, m);
    } else {
      Exchange(inside, first, k - 1, m);
      AddColumn(inside, first, k - 1, m);
    }
  }

  /** Hits of a set that is an interval ending at 0. */
  lemma {:induction false} RowHitsTail(inside: (int, int) -> bool, first: int, k: nat, j: int, h: int)
    requires forall i :: first <= i < first + k ==> (inside(i, j) <==> -i <= h)
    requires h >= 0 && first + k <= 1 && first <= -h
    ensures RowHits(inside, first, k, j) == if first + k - 1 < -h then 0 else first + k + h
  {
    if k > 0 {
      RowHitsTail(inside, first, k - 1, j, h);
    }
  }

  predicate InsideAt(c: Config, ix: int, iy: int) { Inside(Mark(ix, c.dx), Mark(iy, c.dy)) }

  ghost function InsideOf(c: Config): (int, int) -> bool {
    (ix: int, iy: int) => InsideAt(c, ix, iy)
  }

  lemma {:induction false} ColumnLength(c: Config, thetas: seq<real>, ix: int, k: nat)
    ensures |Column(c, thetas, ix, k)| == |thetas| * Hits(InsideOf(c), ix, k)
  {
    if k > 0 {
      ColumnLength(c, thetas, ix, k - 1);
      Distribute(|thetas|, Hits(InsideOf(c), ix, k - 1), if InsideOf(c)(ix, k - 1) then 1 else 0);
    }
  }

  lemma Distribute(t: int, a: int, b: int)
    ensures t * (a + b) == t * a + t * b
  {
  }

  lemma {:induction false} ColumnsLength(c: Config, thetas: seq<real>, first: int, k: nat, m: nat)
    ensures |Columns(c, thetas, first, k, m)| == |thetas| * ByColumn(InsideOf(c), first, k, m)
  {
    if k > 0 {
      ColumnsLength(c, thetas, first, k - 1, m);
      ColumnLength(c, thetas, first + k - 1, m);
      Distribute(|thetas|, ByColumn(InsideOf(c), first, k - 1, m), Hits(InsideOf(c), first + k - 1, m));
    }
  }

  /** Inside the disc on row y is left of its half width. */
  lemma InsideIsLeft(u: real, y: real, xmax: real)
    requires u >= 0.0 && xmax >= 0.0 && xmax * xmax == REACH_MM * REACH_MM - y * y
    ensures Inside(u, y) <==> u <= xmax
    ensures xmax <= REACH_MM
  {
    SquaresOrdered(u, xmax);
    assert y * y >= 0.0;
    SquaresOrdered(xmax, REACH_MM);
  }

  lemma RowWidth(c: Config, root: real -> real, iy: int) returns (xmax: real)
    requires Checked(c) && IsRoot(root) && 0 <= iy <= AxisEnd(c.dy)
    ensures xmax >= 0.0 && xmax * xmax == REACH_MM * REACH_MM - Mark(iy, c.dy) * Mark(iy, c.dy)
    ensures var h := RowSize(c, root, iy) - 1; h >= 0 && Mark(h, c.dx) <= xmax < Mark(h + 1, c.dx)
  {
    var y := Mark(iy, c.dy);
    Stretch(iy, AxisEnd(c.dy), c.dy);
    Stretch(0, iy, c.dy);
    assert Mark(0, c.dy) == 0.0;
    HalfWidthIs(root, y);
    xmax := HalfWidth(root, y);
    FloorQuotient(xmax, c.dx);
  }

  lemma HalfWidthIs(root: real -> real, y: real)
    requires IsRoot(root) && 0.0 <= y <= REACH_MM
    ensures var x := HalfWidth(root, y); x >= 0.0 && x * x == REACH_MM * REACH_MM - y * y
  {
    SquaresOrdered(y, REACH_MM);
  }

  /** In row iy the inside indices are those down to minus the floor of xmax / dx. */
  lemma RowIsInterval(c: Config, root: real -> real, iy: int, ix: int)
    requires Checked(c) && IsRoot(root) && 0 <= iy <= AxisEnd(c.dy) && ix <= 0
    ensures 0 <= RowSize(c, root, iy) - 1 <= AxisEnd(c.dx)
    ensures InsideAt(c, ix, iy) <==> -ix <= RowSize(c, root, iy) - 1
  {
    var xmax := RowWidth(c, root, iy);
    IndexBound(c, -ix, RowSize(c, root, iy) - 1, xmax, Mark(iy, c.dy));
    Mirror(ix, c.dx, Mark(iy, c.dy));
  }

  lemma Mirror(ix: int, step: real, y: real)
    ensures Inside(Mark(ix, step), y) <==> Inside(Mark(-ix, step), y)
  {
    var u := Mark(-ix, step);
    assert Mark(ix, step) == -u;
    SameSquare(u);
  }

  lemma IndexBound(c: Config, i: int, h: int, xmax: real, y: real)
    requires Checked(c) && i >= 0 && xmax >= 0.0 && xmax * xmax == REACH_MM * REACH_MM - y * y
    requires Mark(h, c.dx) <= xmax < Mark(h + 1, c.dx)
    ensures h <= AxisEnd(c.dx)
    ensures Inside(Mark(i, c.dx), y) <==> i <= h
  {
    var u := Mark(i, c.dx);
    Stretch(0, i, c.dx);
    assert Mark(0, c.dx) == 0.0;
    InsideIsLeft(u, y, xmax);
    Stretch(i, h + 1, c.dx);
    Stretch(h, i, c.dx);
    Stretch(h, AxisEnd(c.dx) + 1, c.dx);
  }

  lemma SameSquare(u: real)
    ensures (-u) * (-u) == u * u
  {
  }

  lemma {:induction false} RowsAgree(c: Config, root: real -> real, m: nat)
    requires Checked(c) && IsRoot(root) && m <= AxisEnd(c.dy) + 1
    ensures RowSizes(c, root, m) == ByRow(InsideOf(c), -AxisEnd(c.dx), AxisEnd(c.dx) + 1, m)
  {
    if m > 0 {
      RowsAgree(c, root, m - 1);
      var nx := AxisEnd(c.dx);
      var h := RowSize(c, root, m - 1) - 1;
      forall ix {:trigger InsideAt(c, ix, m - 1)} | -nx <= ix < 1 ensures InsideAt(c, ix, m - 1) <==> -ix <= h {
        RowIsInterval(c, root, m - 1, ix);
      }
      RowIsInterval(c, root, m - 1, 0);
      RowHitsTail(InsideOf(c), -nx, nx + 1, m - 1, h);
    }
  }

  lemma SizeIsLength(c: Config, root: real -> real, thetas: seq<real>)
    requires Checked(c) && IsRoot(root)
    ensures |PointsOf(c, thetas)| == |thetas| * RowSizes(c, root, AxisEnd(c.dy) + 1)
  {
    var nx, m := AxisEnd(c.dx), AxisEnd(c.dy) + 1;
    ColumnsLength(c, thetas, -nx, nx + 1, m);
    Exchange(InsideOf(c), -nx, nx + 1, m);
    RowsAgree(c, root, m);
  }
}
