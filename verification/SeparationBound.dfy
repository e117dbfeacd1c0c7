/** The certified +X gap along a joint chain (model/elesim_model_builder/curobo.py, _min_projection,
    _separation_bound and the interval check of narrow_curobo_model), with tolerances zero. */
module SeparationBound {
  import opened Roots
  import opened Integers
  import opened Options
  import opened Spatial
  import opened Trigonometry
  import opened Rotations

  datatype Kind = Fixed | Prismatic | Revolute | Other

  /** A URDF joint: origin translation and roll-pitch-yaw, type, axis and limits. */
  datatype Joint = Joint(kind: Kind, xyz: Vec3, roll: real, pitch: real, yaw: real, axis: Vec3, lower: real,
                         upper: real)

  // ----- forward kinematics

  /** Fixed-axis roll, then pitch, then yaw. */
  function RollPitchYaw(g: Trig, roll: real, pitch: real, yaw: real): Mat {
    Mul(AxisRotation(g, Z_AXIS, yaw), Mul(AxisRotation(g, Y_AXIS, pitch), AxisRotation(g, X_AXIS, roll)))
  }

  /** What the joint itself does at value q. */
  function Motion(g: Trig, joint: Joint, q: real): Pose {
    match joint.kind
    case Fixed => Pose(ORIGIN, IDENTITY)
    case Prismatic => Pose(Scale(q, joint.axis), IDENTITY)
    case Revolute => Pose(ORIGIN, AxisRotation(g, joint.axis, q))
    case Other => Pose(ORIGIN, IDENTITY)
  }

  function Link(g: Trig, at: Pose, joint: Joint, q: real): Pose {
    var origin := Pose(joint.xyz, RollPitchYaw(g, joint.roll, joint.pitch, joint.yaw));
    Compose(Compose(at, origin), Motion(g, joint, q))
  }

  /** The child frame of the chain, in the frame of the first parent. */
  function Forward(g: Trig, path: seq<Joint>, q: seq<real>): Pose
    requires |path| == |q|
  {
    if path == [] then Pose(ORIGIN, IDENTITY)
    else Link(g, Forward(g, path[..|path| - 1], q[..|q| - 1]), path[|path| - 1], q[|q| - 1])
  }

  /** Every moving joint is within its limits; joints vary independently. */
  ghost predicate Admissible(path: seq<Joint>, q: seq<real>) {
    && |path| == |q|
    && forall i :: 0 <= i < |path| && path[i].kind != Fixed ==> path[i].lower <= q[i] <= path[i].upper
  }

  // ----- the minimum of x cos t + z sin t over an interval

  function Project(g: Trig, p: Vec3, t: real): real { p.x * g.cos(t) + p.z * g.sin(t) }

  /** The first angle at or above lower that is whole turns away from the phase. */
  function NextTurn(turn: real, phase: real, lower: real): real
    requires turn > 0.0
  {
    phase + turn * Ceiling((lower - phase) / turn) as real
  }

  lemma NextTurnPlace(turn: real, phase: real, lower: real) returns (n: int)
    requires turn > 0.0
    ensures lower <= NextTurn(turn, phase, lower) < lower + turn
    ensures NextTurn(turn, phase, lower) == phase + turn * n as real
  {
    var y := (lower - phase) / turn;
    n := Ceiling(y);
    var d := y * turn;
    assert d == lower - phase;
    assert y <= n as real < y + 1.0;
    var z := ScaleOrder(turn, y, n as real, d);
  }

  /** The first angle at or above lower where the projection has its interior minimum. */
  function MinimumAt(g: Trig, p: Vec3, lower: real): real
    requires g.pi > 0.0
  {
    NextTurn(2.0 * g.pi, g.polar(p.x, p.z).phi + g.pi, lower)
  }

  function PointMinimum(g: Trig, p: Vec3, lower: real, upper: real): real
    requires g.pi > 0.0
  {
    if MinimumAt(g, p, lower) <= upper then -g.polar(p.x, p.z).h
    else Min(Project(g, p, lower), Project(g, p, upper))
  }

  function MinProjection(g: Trig, points: seq<Vec3>, lower: real, upper: real): real
    requires g.pi > 0.0 && points != []
  {
    var first := PointMinimum(g, points[0], lower, upper);
    if |points| == 1 then first else Min(first, MinProjection(g, points[1..], lower, upper))
  }

  lemma ProjectIsPolar(g: Trig, p: Vec3, t: real)
    requires IsTrig(g)
    ensures var w := g.polar(p.x, p.z); Project(g, p, t) == w.h * g.cos(t - w.phi)
  {
    var w := g.polar(p.x, p.z);
    assert PolarLaw(g, p.x, p.z);
    DifferenceLaw(g, t, w.phi);
    Factor(w.h, g.cos(w.phi), g.sin(w.phi), g.cos(t), g.sin(t));
  }

  lemma Factor(h: real, a: real, b: real, c: real, s: real)
    ensures h * a * c + h * b * s == h * (c * a + s * b)
  {
  }

  lemma ScaleOrder(turn: real, y: real, n: real, d: real) returns (z: real)
    requires turn > 0.0 && y <= n < y + 1.0 && d == y * turn
    ensures z == turn * n && d <= z < d + turn
  {
    z := turn * n;
    if y < n {
      var p := Product(turn, n - y);
      assert p == z - d;
    }
    var q := Product(turn, y + 1.0 - n);
    assert q == d + turn - z;
  }

  lemma HTimes(h: real, c: real, d: real)
    requires h >= 0.0 && c >= d
    ensures h * c >= h * d
  {
    if h > 0.0 && c > d {
      var p := Product(h, c - d);
    }
  }

  lemma InsideBound(g: Trig, p: Vec3, t: real)
    requires IsTrig(g)
    ensures -g.polar(p.x, p.z).h <= Project(g, p, t)
  {
    var w := g.polar(p.x, p.z);
    assert PolarLaw(g, p.x, p.z);
    ProjectIsPolar(g, p, t);
    assert UnitLaw(g, t - w.phi);
    ScaledFloor(w.h, g.cos(t - w.phi));
  }

  lemma PolarHeight(g: Trig, p: Vec3)
    requires IsTrig(g)
    ensures g.polar(p.x, p.z).h >= 0.0
  {
    assert PolarLaw(g, p.x, p.z);
  }

  lemma EndBound(g: Trig, p: Vec3, lower: real, upper: real, t: real)
    requires IsTrig(g) && lower <= t <= upper < MinimumAt(g, p, lower)
    ensures Min(Project(g, p, lower), Project(g, p, upper)) <= Project(g, p, t)
  {
    var w := g.polar(p.x, p.z);
    PolarHeight(g, p);
    EndsAreLower(g, p, lower, upper, t);
    ProjectIsPolar(g, p, t);
    ProjectIsPolar(g, p, lower);
    ProjectIsPolar(g, p, upper);
    ScaledEnds(w.h, g.cos(t - w.phi), g.cos(lower - w.phi), g.cos(upper - w.phi));
  }

  lemma PointBound(g: Trig, p: Vec3, lower: real, upper: real, t: real)
    requires IsTrig(g) && lower <= t <= upper
    ensures PointMinimum(g, p, lower, upper) <= Project(g, p, t)
  {
    if MinimumAt(g, p, lower) <= upper {
      InsideBound(g, p, t);
    } else {
      EndBound(g, p, lower, upper, t);
    }
  }

  lemma ScaledFloor(h: real, c: real)
    requires h >= 0.0 && c >= -1.0
    ensures -h <= h * c
  {
    HTimes(h, c, -1.0);
  }

  lemma ScaledEnds(h: real, c: real, a: real, b: real)
    requires h >= 0.0 && (c >= a || c >= b)
    ensures Min(h * a, h * b) <= h * c
  {
    if c >= a { HTimes(h, c, a); } else { HTimes(h, c, b); }
  }

  /** Without an interior minimum the interval lies within half a turn of one maximum. */
  lemma EndsAreLower(g: Trig, p: Vec3, lower: real, upper: real, t: real)
    requires IsTrig(g) && lower <= t <= upper < MinimumAt(g, p, lower)
    ensures var phi := g.polar(p.x, p.z).phi;
      g.cos(t - phi) >= g.cos(lower - phi) || g.cos(t - phi) >= g.cos(upper - phi)
  {
    var phi := g.polar(p.x, p.z).phi;
    var n := NextTurnPlace(2.0 * g.pi, g.polar(p.x, p.z).phi + g.pi, lower);
    var mid := phi + g.pi + 2.0 * g.pi * n as real - g.pi;
    SameCosine(g, phi, n, lower);
    SameCosine(g, phi, n, t);
    SameCosine(g, phi, n, upper);
    SmallestAtEnds(g, lower - mid, upper - mid, t - mid);
  }

  /** Measured from the maximum next to the interior minimum the cosine is unchanged. */
  lemma SameCosine(g: Trig, phi: real, n: int, t: real)
    requires IsTrig(g)
    ensures var mid := phi + g.pi + 2.0 * g.pi * n as real - g.pi; g.cos(t - phi) == g.cos(t - mid)
  {
    var mid := phi + g.pi + 2.0 * g.pi * n as real - g.pi;
    Turns(g, t - mid, t - phi, n, 2.0 * g.pi);
  }

  lemma PointAttained(g: Trig, p: Vec3, lower: real, upper: real) returns (t: real)
    requires IsTrig(g) && lower <= upper
    ensures lower <= t <= upper && PointMinimum(g, p, lower, upper) == Project(g, p, t)
  {
    var w := g.polar(p.x, p.z);
    var m := MinimumAt(g, p, lower);
    if m <= upper {
      t := m;
      var n := NextTurnPlace(2.0 * g.pi, g.polar(p.x, p.z).phi + g.pi, lower);
      ProjectIsPolar(g, p, m);
      Turns(g, g.pi, m - w.phi, n, 2.0 * g.pi);
      assert w.h * -1.0 == -w.h;
    } else {
      t := if Project(g, p, lower) <= Project(g, p, upper) then lower else upper;
    }
  }

  /** _min_projection is exact: a lower bound for all points and angles, attained by one of them. */
  lemma {:induction false} MinProjectionExact(g: Trig, points: seq<Vec3>, lower: real, upper: real)
    requires IsTrig(g) && points != [] && lower <= upper
    ensures forall k, t :: 0 <= k < |points| && lower <= t <= upper ==>
      MinProjection(g, points, lower, upper) <= Project(g, points[k], t)
    ensures exists k, t ::
      0 <= k < |points| && lower <= t <= upper && MinProjection(g, points, lower, upper) == Project(g, points[k], t)
  {
    var m := MinProjection(g, points, lower, upper);
    forall t | lower <= t <= upper ensures PointMinimum(g, points[0], lower, upper) <= Project(g, points[0], t) {
      PointBound(g, points[0], lower, upper, t);
    }
    var t0 := PointAttained(g, points[0], lower, upper);
    if |points| > 1 {
      MinProjectionExact(g, points[1..], lower, upper);
      forall k, t | 0 <= k < |points| && lower <= t <= upper ensures m <= Project(g, points[k], t) {
        if k > 0 {
          assert points[k] == points[1..][k - 1];
        }
      }
      if m != Project(g, points[0], t0) {
        var k, t :| 0 <= k < |points[1..]| && lower <= t <= upper && m == Project(g, points[1..][k], t);
        assert m == Project(g, points[k + 1], t);
      }
    }
  }

  // ----- the bound along a chain

  /** The loop state: an interval for the accumulated pitch and a lower bound of the X translation. */
  datatype Acc = Acc(lower: real, upper: real, offset: real)

  const START := Acc(0.0, 0.0, 0.0)

  function Step(g: Trig, acc: Acc, joint: Joint): Option<Acc>
    requires g.pi > 0.0
  {
    if joint.roll != 0.0 || joint.yaw != 0.0 then None
    else
      var offset := acc.offset + MinProjection(g, [joint.xyz], acc.lower, acc.upper);
      var lower, upper := acc.lower + joint.pitch, acc.upper + joint.pitch;
      var level := lower == 0.0 && upper == 0.0;
      if joint.kind == Fixed then Some(Acc(lower, upper, offset))
      else if joint.kind == Prismatic && joint.axis == X_AXIS && level then
        Some(Acc(lower, upper, offset + joint.lower))
      else if joint.kind == Revolute && joint.axis == Y_AXIS then
        Some(Acc(lower + joint.lower, upper + joint.upper, offset))
      else if joint.kind == Revolute && joint.axis == X_AXIS && level then
        Some(Acc(lower, upper, offset))
      else None
  }

  function Fold(g: Trig, path: seq<Joint>): Option<Acc>
    requires g.pi > 0.0
  {
    if path == [] then Some(START)
    else
      match Fold(g, path[..|path| - 1])
      case None => None
      case Some(acc) => Step(g, acc, path[|path| - 1])
  }

  /** The frame's first row is that of a pitch by theta in the interval, and its X is at least the offset. */
  ghost predicate Tracks(g: Trig, acc: Acc, at: Pose, theta: real) {
    && acc.lower <= theta <= acc.upper && at.p.x >= acc.offset
    && at.r.a == Vec3(g.cos(theta), 0.0, g.sin(theta))
  }

  lemma IdentityMatrices(m: Mat, v: Vec3)
    ensures Mul(IDENTITY, m) == m && Mul(m, IDENTITY) == m && Apply(IDENTITY, v) == v
  {
    assert m == Mat(m.a, m.b, m.c);
  }

  lemma NoRotation(g: Trig)
    requires IsTrig(g)
    ensures AxisRotation(g, X_AXIS, 0.0) == IDENTITY && AxisRotation(g, Z_AXIS, 0.0) == IDENTITY
  {
  }

  lemma PurePitch(g: Trig, pitch: real)
    requires IsTrig(g)
    ensures RollPitchYaw(g, 0.0, pitch, 0.0) == AxisRotation(g, Y_AXIS, pitch)
  {
    NoRotation(g);
    IdentityMatrices(AxisRotation(g, Y_AXIS, pitch), ORIGIN);
  }

  lemma PitchRow(g: Trig, theta: real, pitch: real)
    requires IsTrig(g)
    ensures RowTimes(Vec3(g.cos(theta), 0.0, g.sin(theta)), AxisRotation(g, Y_AXIS, pitch)) ==
            Vec3(g.cos(theta + pitch), 0.0, g.sin(theta + pitch))
  {
    assert AdditionLaw(g, theta, pitch);
    var m := AxisRotation(g, Y_AXIS, pitch);
    assert m == Mat(Vec3(g.cos(pitch), 0.0, g.sin(pitch)), Vec3(0.0, 1.0, 0.0), Vec3(-g.sin(pitch), 0.0, g.cos(pitch)));
  }

  lemma RollRow(g: Trig, angle: real)
    ensures RowTimes(X_AXIS, AxisRotation(g, X_AXIS, angle)) == X_AXIS
  {
    var m := AxisRotation(g, X_AXIS, angle);
    assert m.a == X_AXIS;
  }

  /** The joint's fixed origin: translate, then pitch. */
  lemma OriginStep(g: Trig, acc: Acc, joint: Joint, at: Pose, theta: real)
    requires IsTrig(g) && Tracks(g, acc, at, theta) && joint.roll == 0.0 && joint.yaw == 0.0
    ensures var origin := Pose(joint.xyz, RollPitchYaw(g, joint.roll, joint.pitch, joint.yaw));
      Tracks(g, Acc(acc.lower + joint.pitch, acc.upper + joint.pitch,
                    acc.offset + MinProjection(g, [joint.xyz], acc.lower, acc.upper)),
             Compose(at, origin), theta + joint.pitch)
  {
    PointBound(g, joint.xyz, acc.lower, acc.upper, theta);
    assert Place(at, joint.xyz).x == at.p.x + Project(g, joint.xyz, theta);
    PurePitch(g, joint.pitch);
    PitchRow(g, theta, joint.pitch);
  }

  lemma RestTracks(g: Trig, acc: Acc, at: Pose, theta: real)
    requires IsTrig(g) && Tracks(g, acc, at, theta)
    ensures Tracks(g, acc, Compose(at, Pose(ORIGIN, IDENTITY)), theta)
  {
    StandingStill(at);
    ShiftTracks(g, acc, at, theta, 0.0, ORIGIN);
  }

  /** A pure translation that moves at least low in X. */
  lemma ShiftTracks(g: Trig, acc: Acc, at: Pose, theta: real, low: real, v: Vec3)
    requires Tracks(g, acc, at, theta) && Place(at, v).x >= at.p.x + low
    ensures Tracks(g, Acc(acc.lower, acc.upper, acc.offset + low), Compose(at, Pose(v, IDENTITY)), theta)
  {
    RowIdentity(at.r.a);
    var next := ComposeRow(at, Pose(v, IDENTITY));
    Moved(g, acc, at, theta, low, next);
  }

  /** At pitch zero the first row is the X axis. */
  lemma LevelRow(g: Trig, acc: Acc, at: Pose, theta: real)
    requires IsTrig(g) && Tracks(g, acc, at, theta) && acc.lower == 0.0 && acc.upper == 0.0
    ensures theta == 0.0 && at.r.a == X_AXIS
  {
  }

  lemma SlideValue(at: Pose, q: real)
    requires at.r.a == X_AXIS
    ensures Place(at, Scale(q, X_AXIS)).x == at.p.x + q
  {
  }

  lemma RowIdentity(u: Vec3)
    ensures RowTimes(u, IDENTITY) == u
  {
  }

  lemma ComposeRow(at: Pose, motion: Pose) returns (next: Pose)
    ensures next == Compose(at, motion) && next.p == Place(at, motion.p) && next.r.a == RowTimes(at.r.a, motion.r)
  {
    next := Compose(at, motion);
  }

  lemma Moved(g: Trig, acc: Acc, at: Pose, theta: real, low: real, next: Pose)
    requires Tracks(g, acc, at, theta) && next.p.x >= at.p.x + low && next.r.a == at.r.a
    ensures Tracks(g, Acc(acc.lower, acc.upper, acc.offset + low), next, theta)
  {
  }

  lemma SlideTracks(g: Trig, acc: Acc, at: Pose, theta: real, low: real, q: real)
    requires IsTrig(g) && Tracks(g, acc, at, theta) && acc.lower == 0.0 && acc.upper == 0.0 && low <= q
    ensures Tracks(g, Acc(acc.lower, acc.upper, acc.offset + low), Compose(at, Pose(Scale(q, X_AXIS), IDENTITY)), theta)
  {
    LevelRow(g, acc, at, theta);
    SlideValue(at, q);
    ShiftTracks(g, acc, at, theta, low, Scale(q, X_AXIS));
  }

  lemma TurnTracks(g: Trig, acc: Acc, at: Pose, theta: real, low: real, high: real, q: real)
    requires IsTrig(g) && Tracks(g, acc, at, theta) && low <= q <= high
    ensures Tracks(g, Acc(acc.lower + low, acc.upper + high, acc.offset),
                   Compose(at, Pose(ORIGIN, AxisRotation(g, Y_AXIS, q))), theta + q)
  {
    PitchRow(g, theta, q);
    StandingStill(at);
  }

  lemma RollTracks(g: Trig, acc: Acc, at: Pose, theta: real, q: real)
    requires IsTrig(g) && Tracks(g, acc, at, theta) && acc.lower == 0.0 && acc.upper == 0.0
    ensures Tracks(g, acc, Compose(at, Pose(ORIGIN, AxisRotation(g, X_AXIS, q))), theta)
  {
    LevelRow(g, acc, at, theta);
    RollRow(g, q);
    StandingStill(at);
  }

  lemma StandingStill(at: Pose)
    ensures Place(at, ORIGIN) == at.p
  {
    assert at.p == Vec3(at.p.x, at.p.y, at.p.z);
  }

  lemma StepTracks(g: Trig, acc: Acc, joint: Joint, at: Pose, theta: real, q: real) returns (theta': real)
    requires IsTrig(g) && Tracks(g, acc, at, theta) && Step(g, acc, joint).Some?
    requires joint.kind != Fixed ==> joint.lower <= q <= joint.upper
    ensures Tracks(g, Step(g, acc, joint).value, Link(g, at, joint, q), theta')
  {
    OriginStep(g, acc, joint, at, theta);
    theta' := MotionTracks(g, acc.offset + MinProjection(g, [joint.xyz], acc.lower, acc.upper), acc, joint,
                           Compose(at, Pose(joint.xyz, RollPitchYaw(g, joint.roll, joint.pitch, joint.yaw))),
                           theta + joint.pitch, q);
  }

  lemma MotionTracks(g: Trig, offset: real, acc: Acc, joint: Joint, mid: Pose, theta: real,
                     q: real) returns (theta': real)
    requires IsTrig(g) && Step(g, acc, joint).Some?
    requires offset == acc.offset + MinProjection(g, [joint.xyz], acc.lower, acc.upper)
    requires Tracks(g, Acc(acc.lower + joint.pitch, acc.upper + joint.pitch, offset), mid, theta)
    requires joint.kind != Fixed ==> joint.lower <= q <= joint.upper
    ensures Tracks(g, Step(g, acc, joint).value, Compose(mid, Motion(g, joint, q)), theta')
  {
    var after := Acc(acc.lower + joint.pitch, acc.upper + joint.pitch, offset);
    theta' := theta;
    match joint.kind
    case Fixed =>
      RestTracks(g, after, mid, theta);
    case Prismatic =>
      SlideTracks(g, after, mid, theta, joint.lower, q);
    case Revolute =>
      if joint.axis == Y_AXIS {
        TurnTracks(g, after, mid, theta, joint.lower, joint.upper, q);
        theta' := theta + q;
      } else {
        RollTracks(g, after, mid, theta, q);
      }
    case Other =>
  }

  lemma {:induction false} ChainTracks(g: Trig, path: seq<Joint>, q: seq<real>) returns (theta: real)
    requires IsTrig(g) && Admissible(path, q) && Fold(g, path).Some?
    ensures Tracks(g, Fold(g, path).value, Forward(g, path, q), theta)
  {
    if path == [] {
      theta := 0.0;
    } else {
      var n := |path| - 1;
      theta := ChainTracks(g, path[..n], q[..n]);
      theta := StepTracks(g, Fold(g, path[..n]).value, path[n], Forward(g, path[..n], q[..n]), theta, q[n]);
    }
  }

  function MaxX(points: seq<Vec3>): (m: real)
    requires points != []
    ensures forall k :: 0 <= k < |points| ==> points[k].x <= m
    ensures exists k :: 0 <= k < |points| && points[k].x == m
  {
    if |points| == 1 then points[0].x
    else
      var rest := MaxX(points[1..]);
      assert forall k :: 1 <= k < |points| ==> points[k] == points[1..][k - 1];
      if rest < points[0].x then points[0].x else rest
  }

  /** Every child vertex lies at least the gap beyond every parent vertex, for every admissible joint vector. */
  ghost predicate Separated(g: Trig, path: seq<Joint>, parent: seq<Vec3>, child: seq<Vec3>, gap: real) {
    forall q, v, w :: Admissible(path, q) && 0 <= v < |child| && 0 <= w < |parent| ==>
      Place(Forward(g, path, q), child[v]).x - parent[w].x >= gap
  }

  function BoundOf(g: Trig, path: seq<Joint>, parent: seq<Vec3>, child: seq<Vec3>): Option<real>
    requires g.pi > 0.0 && parent != [] && child != []
  {
    match Fold(g, path)
    case None => None
    case Some(acc) => Some(acc.offset + MinProjection(g, child, acc.lower, acc.upper) - MaxX(parent))
  }

  // ----- which chains have a bound, and which bound

  /** A bend: a revolute joint about Y. */
  predicate Bends(joint: Joint) { joint.kind == Revolute && joint.axis == Vec3(0.0, 1.0, 0.0) }

  /** The pitch that the first i joints add up to, with every bend at its lower or at its upper limit. */
  function Swing(path: seq<Joint>, i: nat, low: bool): real
    requires i <= |path|
  {
    if i == 0 then 0.0
    else
      var joint := path[i - 1];
      Swing(path, i - 1, low) + joint.pitch
        + if Bends(joint) then (if low then joint.lower else joint.upper) else 0.0
  }

  /** Neither rolled nor yawed, and fixed, a bend, or a slide along or turn about X where no pitch can have added up. */
  predicate Supported(path: seq<Joint>, i: nat)
    requires i < |path|
  {
    var joint := path[i];
    && joint.roll == 0.0 && joint.yaw == 0.0
    && (|| joint.kind == Fixed || Bends(joint)
        || (&& (joint.kind == Prismatic || joint.kind == Revolute) && joint.axis == Vec3(1.0, 0.0, 0.0)
            && Swing(path, i, true) + joint.pitch == 0.0 && Swing(path, i, false) + joint.pitch == 0.0))
  }

  ghost predicate AllSupported(path: seq<Joint>) { forall i: nat :: i < |path| ==> Supported(path, i) }

  /** The least projection of the points over the interval of angles. */
  ghost predicate IsLeast(g: Trig, points: seq<Vec3>, low: real, high: real, m: real) {
    && (forall k, t :: 0 <= k < |points| && low <= t <= high ==> m <= Project(g, points[k], t))
    && exists k, t :: 0 <= k < |points| && low <= t <= high && m == Project(g, points[k], t)
  }

  /** The least X of the joint's origin, pitched as the joints before it can be. */
  ghost predicate IsShift(g: Trig, path: seq<Joint>, i: nat, m: real)
    requires i < |path|
  {
    IsLeast(g, [path[i].xyz], Swing(path, i, true), Swing(path, i, false), m)
  }

  /** The lower ends of all slides. */
  function Slid(path: seq<Joint>): real {
    if path == [] then 0.0
    else
      var joint := path[|path| - 1];
      Slid(path[..|path| - 1]) + if joint.kind == Prismatic then joint.lower else 0.0
  }

  function Total(shifts: seq<real>): real {
    if shifts == [] then 0.0 else Total(shifts[..|shifts| - 1]) + shifts[|shifts| - 1]
  }

  ghost predicate AreShifts(g: Trig, path: seq<Joint>, shifts: seq<real>) {
    |shifts| == |path| && forall i: nat :: i < |path| ==> IsShift(g, path, i, shifts[i])
  }

  ghost predicate IsMost(points: seq<Vec3>, most: real) {
    (forall k :: 0 <= k < |points| ==> points[k].x <= most) && exists k :: 0 <= k < |points| && points[k].x == most
  }

  /** All joints' least X, the lower ends of the slides and the child's least X at the chain's end, less the parent's
      greatest X. */
  ghost predicate IsBound(g: Trig, path: seq<Joint>, parent: seq<Vec3>, child: seq<Vec3>, gap: real) {
    exists shifts: seq<real>, least: real, most: real {:trigger AreShifts(g, path, shifts),
      IsLeast(g, child, Swing(path, |path|, true), Swing(path, |path|, false), least), IsMost(parent, most)} ::
      && AreShifts(g, path, shifts)
      && IsLeast(g, child, Swing(path, |path|, true), Swing(path, |path|, false), least) && IsMost(parent, most)
      && gap == Total(shifts) + Slid(path) + least - most
  }

  ghost predicate Ordered(path: seq<Joint>) {
    forall i :: 0 <= i < |path| && path[i].kind != Fixed ==> path[i].lower <= path[i].upper
  }

  lemma {:induction false} SwingPrefix(path: seq<Joint>, n: nat, i: nat, low: bool)
    requires i <= n <= |path|
    ensures Swing(path[..n], i, low) == Swing(path, i, low)
  {
    if i > 0 {
      SwingPrefix(path, n, i - 1, low);
    }
  }

  lemma SupportedPrefix(path: seq<Joint>, n: nat, i: nat)
    requires i < n <= |path|
    ensures Supported(path[..n], i) <==> Supported(path, i)
  {
    SwingPrefix(path, n, i, true);
    SwingPrefix(path, n, i, false);
  }

  lemma StepIff(g: Trig, acc: Acc, path: seq<Joint>, n: nat)
    requires g.pi > 0.0 && n < |path| && acc.lower == Swing(path, n, true) && acc.upper == Swing(path, n, false)
    ensures Step(g, acc, path[n]).Some? <==> Supported(path, n)
    ensures Step(g, acc, path[n]).Some? ==>
      var next := Step(g, acc, path[n]).value;
      && next.lower == Swing(path, n + 1, true) && next.upper == Swing(path, n + 1, false)
      && next.offset == acc.offset + MinProjection(g, [path[n].xyz], acc.lower, acc.upper)
                        + if path[n].kind == Prismatic then path[n].lower else 0.0
  {
  }

  /** The chain has a bound exactly when every joint is supported; the interval is that of the swing. */
  lemma {:induction false} FoldIff(g: Trig, path: seq<Joint>)
    requires g.pi > 0.0
    ensures Fold(g, path).Some? <==> AllSupported(path)
    ensures Fold(g, path).Some? ==>
      var acc := Fold(g, path).value;
      acc.lower == Swing(path, |path|, true) && acc.upper == Swing(path, |path|, false)
  {
    if path != [] {
      var n := |path| - 1;
      FoldIff(g, path[..n]);
      SwingPrefix(path, n, n, true);
      SwingPrefix(path, n, n, false);
      forall i: nat | i < n ensures Supported(path[..n], i) <==> Supported(path, i) { SupportedPrefix(path, n, i); }
      if Fold(g, path[..n]).Some? {
        StepIff(g, Fold(g, path[..n]).value, path, n);
      }
      if AllSupported(path) {
        assert Supported(path, n);
      }
    }
  }

  lemma {:induction false} SwingOrdered(path: seq<Joint>, i: nat)
    requires Ordered(path) && i <= |path|
    ensures Swing(path, i, true) <= Swing(path, i, false)
  {
    if i > 0 {
      SwingOrdered(path, i - 1);
    }
  }

  lemma MinIsLeast(g: Trig, points: seq<Vec3>, low: real, high: real)
    requires IsTrig(g) && points != [] && low <= high
    ensures IsLeast(g, points, low, high, MinProjection(g, points, low, high))
  {
    MinProjectionExact(g, points, low, high);
  }

  lemma {:induction false} LeastIsUnique(g: Trig, points: seq<Vec3>, low: real, high: real, m: real, other: real)
    requires IsLeast(g, points, low, high, m) && IsLeast(g, points, low, high, other)
    ensures m == other
  {
  }

  lemma ShiftPrefix(g: Trig, path: seq<Joint>, n: nat, i: nat, m: real)
    requires i < n <= |path| && IsShift(g, path[..n], i, m)
    ensures IsShift(g, path, i, m)
  {
    SwingPrefix(path, n, i, true);
    SwingPrefix(path, n, i, false);
  }

  lemma LastShift(g: Trig, path: seq<Joint>, shifts: seq<real>, m: real)
    requires path != [] && AreShifts(g, path[..|path| - 1], shifts) && IsShift(g, path, |path| - 1, m)
    ensures AreShifts(g, path, shifts + [m]) && Total(shifts + [m]) == Total(shifts) + m
  {
    var n := |path| - 1;
    forall i: nat | i < |path| ensures IsShift(g, path, i, (shifts + [m])[i]) {
      if i < n {
        ShiftPrefix(g, path, n, i, shifts[i]);
      }
    }
    assert (shifts + [m])[..n] == shifts;
  }

  /** One joint's share of the offset. */
  lemma OffsetStep(g: Trig, path: seq<Joint>) returns (m: real)
    requires IsTrig(g) && path != [] && Ordered(path) && Fold(g, path).Some?
    ensures IsShift(g, path, |path| - 1, m) && Fold(g, path[..|path| - 1]).Some?
    ensures Fold(g, path).value.offset - Slid(path) ==
            Fold(g, path[..|path| - 1]).value.offset - Slid(path[..|path| - 1]) + m
  {
    var n := |path| - 1;
    var acc := Fold(g, path[..n]).value;
    FoldIff(g, path[..n]);
    SwingPrefix(path, n, n, true);
    SwingPrefix(path, n, n, false);
    SwingOrdered(path, n);
    StepIff(g, acc, path, n);
    MinIsLeast(g, [path[n].xyz], acc.lower, acc.upper);
    m := MinProjection(g, [path[n].xyz], acc.lower, acc.upper);
  }

  /** The offset is the sum of the joints' least X. */
  lemma {:induction false} OffsetIsTotal(g: Trig, path: seq<Joint>) returns (shifts: seq<real>)
    requires IsTrig(g) && Ordered(path) && Fold(g, path).Some?
    ensures AreShifts(g, path, shifts) && Fold(g, path).value.offset == Total(shifts) + Slid(path)
  {
    shifts := [];
    if path != [] {
      var m := OffsetStep(g, path);
      shifts := OffsetIsTotal(g, path[..|path| - 1]);
      LastShift(g, path, shifts, m);
      shifts := shifts + [m];
    }
  }

  lemma BoundIsBound(g: Trig, path: seq<Joint>, parent: seq<Vec3>, child: seq<Vec3>)
    requires IsTrig(g) && parent != [] && child != [] && Ordered(path) && BoundOf(g, path, parent, child).Some?
    ensures IsBound(g, path, parent, child, BoundOf(g, path, parent, child).value)
  {
    var shifts := OffsetIsTotal(g, path);
    FoldIff(g, path);
    SwingOrdered(path, |path|);
    MinIsLeast(g, child, Swing(path, |path|, true), Swing(path, |path|, false));
    assert IsMost(parent, MaxX(parent));
  }

  // ----- how tight the bound is

  ghost predicate Faces(g: Trig, at: Pose, theta: real) { at.r.a == Vec3(g.cos(theta), 0.0, g.sin(theta)) }

  /** The pitch a joint adds at value q. */
  function Lean(joint: Joint, q: real): real { joint.pitch + if Bends(joint) then q else 0.0 }

  lemma OriginRow(g: Trig, at: Pose, theta: real, joint: Joint) returns (mid: Pose)
    requires IsTrig(g) && Faces(g, at, theta) && joint.roll == 0.0 && joint.yaw == 0.0
    ensures mid == Compose(at, Pose(joint.xyz, RollPitchYaw(g, joint.roll, joint.pitch, joint.yaw)))
    ensures Faces(g, mid, theta + joint.pitch) && mid.p.x == at.p.x + Project(g, joint.xyz, theta)
  {
    mid := Compose(at, Pose(joint.xyz, RollPitchYaw(g, joint.roll, joint.pitch, joint.yaw)));
    PurePitch(g, joint.pitch);
    PitchRow(g, theta, joint.pitch);
    PlacedX(g, at, theta, joint.xyz);
  }

  lemma BendRow(g: Trig, mid: Pose, theta: real, joint: Joint, q: real)
    requires IsTrig(g) && Faces(g, mid, theta) && Bends(joint)
    ensures var next := Compose(mid, Motion(g, joint, q)); Faces(g, next, theta + q) && next.p.x == mid.p.x
  {
    PitchRow(g, theta, q);
    StandingStill(mid);
  }

  lemma FixedRow(g: Trig, mid: Pose, theta: real)
    requires Faces(g, mid, theta)
    ensures var next := Compose(mid, Pose(ORIGIN, IDENTITY)); Faces(g, next, theta) && next.p.x == mid.p.x
  {
    StandingStill(mid);
    RowIdentity(mid.r.a);
    var next := ComposeRow(mid, Pose(ORIGIN, IDENTITY));
  }

  lemma LevelFaces(g: Trig, at: Pose)
    requires IsTrig(g)
    ensures Faces(g, at, 0.0) <==> at.r.a == X_AXIS
  {
  }

  lemma Slides(mid: Pose, v: Vec3, q: real)
    requires Place(mid, v).x == mid.p.x + q
    ensures var next := Compose(mid, Pose(v, IDENTITY)); next.r.a == mid.r.a && next.p.x == mid.p.x + q
  {
    RowIdentity(mid.r.a);
    var next := ComposeRow(mid, Pose(v, IDENTITY));
  }

  lemma Rolls(g: Trig, mid: Pose, q: real)
    requires mid.r.a == X_AXIS
    ensures var next := Compose(mid, Pose(ORIGIN, AxisRotation(g, X_AXIS, q)));
      next.r.a == X_AXIS && next.p.x == mid.p.x
  {
    RollRow(g, q);
    StandingStill(mid);
    var next := ComposeRow(mid, Pose(ORIGIN, AxisRotation(g, X_AXIS, q)));
  }

  /** The rows and the X after the joint's own motion. */
  ghost predicate MovesTo(g: Trig, mid: Pose, theta: real, joint: Joint, q: real, next: Pose) {
    && Faces(g, next, theta + if Bends(joint) then q else 0.0)
    && next.p.x == mid.p.x + if joint.kind == Prismatic then q else 0.0
  }

  lemma LevelMotion(g: Trig, mid: Pose, joint: Joint, q: real)
    requires IsTrig(g) && Faces(g, mid, 0.0)
    requires (joint.kind == Prismatic || joint.kind == Revolute) && joint.axis == X_AXIS
    ensures MovesTo(g, mid, 0.0, joint, q, Compose(mid, Motion(g, joint, q)))
  {
    LevelFaces(g, mid);
    SlideValue(mid, q);
    Slides(mid, Scale(q, X_AXIS), q);
    Rolls(g, mid, q);
    LevelFaces(g, Compose(mid, Motion(g, joint, q)));
  }

  lemma MotionRow(g: Trig, mid: Pose, theta: real, joint: Joint, q: real)
    requires IsTrig(g) && Faces(g, mid, theta)
    requires joint.kind == Fixed || Bends(joint)
             || ((joint.kind == Prismatic || joint.kind == Revolute) && joint.axis == X_AXIS && theta == 0.0)
    ensures MovesTo(g, mid, theta, joint, q, Compose(mid, Motion(g, joint, q)))
  {
    if Bends(joint) {
      BendRow(g, mid, theta, joint, q);
    } else if joint.kind == Fixed {
      FixedRow(g, mid, theta);
    } else {
      LevelMotion(g, mid, joint, q);
    }
  }

  /** The frame is pitched by theta and lies at x. */
  ghost predicate Stands(g: Trig, at: Pose, theta: real, x: real) { Faces(g, at, theta) && at.p.x == x }

  /** The X that a supported joint adds at value q. */
  function Ahead(g: Trig, joint: Joint, theta: real, q: real): real {
    Project(g, joint.xyz, theta) + if joint.kind == Prismatic then q else 0.0
  }

  lemma StandsAfter(g: Trig, mid: Pose, theta: real, joint: Joint, q: real, next: Pose, theta': real, x': real)
    requires MovesTo(g, mid, theta, joint, q, next)
    requires theta' == theta + (if Bends(joint) then q else 0.0)
    requires x' == mid.p.x + (if joint.kind == Prismatic then q else 0.0)
    ensures Stands(g, next, theta', x')
  {
  }

  /** What a supported joint does to the frame, as an equality. */
  lemma LinkStands(g: Trig, path: seq<Joint>, n: nat, at: Pose, theta: real, x: real, q: real, theta': real, x': real)
    requires IsTrig(g) && n < |path| && Stands(g, at, theta, x) && Supported(path, n)
    requires Swing(path, n, true) <= theta <= Swing(path, n, false)
    requires theta' == theta + Lean(path[n], q) && x' == x + Ahead(g, path[n], theta, q)
    ensures Stands(g, Link(g, at, path[n], q), theta', x')
  {
    var level := Level(path, n, theta);
    JointStands(g, path[n], at, theta, x, q, level, theta', x');
  }

  lemma JointStands(g: Trig, joint: Joint, at: Pose, theta: real, x: real, q: real, level: real, theta': real, x': real)
    requires IsTrig(g) && Stands(g, at, theta, x) && joint.roll == 0.0 && joint.yaw == 0.0
    requires level == theta + joint.pitch
    requires joint.kind == Fixed || Bends(joint)
             || ((joint.kind == Prismatic || joint.kind == Revolute) && joint.axis == X_AXIS && level == 0.0)
    requires theta' == theta + Lean(joint, q) && x' == x + Ahead(g, joint, theta, q)
    ensures Stands(g, Link(g, at, joint, q), theta', x')
  {
    var mid := OriginRow(g, at, theta, joint);
    MotionRow(g, mid, level, joint, q);
    StandsAfter(g, mid, level, joint, q, Compose(mid, Motion(g, joint, q)), theta', x');
  }

  lemma Level(path: seq<Joint>, n: nat, theta: real) returns (level: real)
    requires n < |path| && Supported(path, n) && Swing(path, n, true) <= theta <= Swing(path, n, false)
    ensures level == theta + path[n].pitch && path[n].roll == 0.0 && path[n].yaw == 0.0
    ensures path[n].kind == Fixed || Bends(path[n])
            || ((path[n].kind == Prismatic || path[n].kind == Revolute) && path[n].axis == X_AXIS && level == 0.0)
  {
    level := theta + path[n].pitch;
  }

  function Ends(path: seq<Joint>, low: bool): seq<real> {
    seq(|path|, i requires 0 <= i < |path| => if low then path[i].lower else path[i].upper)
  }

  lemma EndsStep(path: seq<Joint>, low: bool)
    requires Ordered(path) && AllSupported(path) && path != []
    ensures var n := |path| - 1;
      && AllSupported(path[..n]) && Supported(path, n)
      && Ends(path, low) == Ends(path[..n], low) + [Ends(path, low)[n]] && Ends(path, low)[..n] == Ends(path[..n], low)
      && Swing(path[..n], n, low) == Swing(path, n, low)
      && Swing(path, n, true) <= Swing(path, n, low) <= Swing(path, n, false)
      && Swing(path, |path|, low) == Swing(path, n, low) + Lean(path[n], Ends(path, low)[n])
  {
    var n := |path| - 1;
    forall i: nat | i < n ensures Supported(path[..n], i) { SupportedPrefix(path, n, i); }
    SwingPrefix(path, n, n, low);
    SwingOrdered(path, n);
    assert Ends(path, low)[..n] == Ends(path[..n], low);
  }

  /** With every joint at one end of its limits the frame is pitched by that end of the swing. */
  lemma {:induction false} SwingIsReached(g: Trig, path: seq<Joint>, low: bool) returns (x: real)
    requires IsTrig(g) && Ordered(path) && AllSupported(path)
    ensures Admissible(path, Ends(path, low))
    ensures Stands(g, Forward(g, path, Ends(path, low)), Swing(path, |path|, low), x)
  {
    x := 0.0;
    if path != [] {
      var n := |path| - 1;
      EndsStep(path, low);
      var before := SwingIsReached(g, path[..n], low);
      var q := Ends(path, low)[n];
      x := before + Ahead(g, path[n], Swing(path, n, low), q);
      LinkStands(g, path, n, Forward(g, path[..n], Ends(path[..n], low)), Swing(path, n, low), before, q,
                 Swing(path, |path|, low), x);
    }
  }

  /** Every bend but the last joint is held at one angle. */
  ghost predicate LastMoves(path: seq<Joint>) {
    forall i :: 0 <= i < |path| - 1 && Bends(path[i]) ==> path[i].lower == path[i].upper
  }

  lemma {:induction false} HeldSwing(path: seq<Joint>, n: nat)
    requires n <= |path| && forall i :: 0 <= i < n && Bends(path[i]) ==> path[i].lower == path[i].upper
    ensures Swing(path, n, true) == Swing(path, n, false)
  {
    if n > 0 {
      HeldSwing(path, n - 1);
    }
  }

  lemma LeastAtPoint(g: Trig, p: Vec3, t: real)
    requires IsTrig(g)
    ensures MinProjection(g, [p], t, t) == Project(g, p, t)
  {
    MinProjectionExact(g, [p], t, t);
  }

  /** One more joint after held bends: the offset grows by exactly what the joint adds. */
  lemma OffsetGrows(g: Trig, path: seq<Joint>, q: real)
    requires IsTrig(g) && path != [] && Fold(g, path).Some? && LastMoves(path)
    requires path[|path| - 1].kind == Prismatic ==> q == path[|path| - 1].lower
    ensures var n := |path| - 1;
      && AllSupported(path) && AllSupported(path[..n]) && Fold(g, path[..n]).Some?
      && Swing(path[..n], n, true) == Swing(path, n, true) == Swing(path, n, false)
      && Fold(g, path).value.offset
         == Fold(g, path[..n]).value.offset + Ahead(g, path[n], Swing(path, n, true), q)
  {
    var n := |path| - 1;
    FoldIff(g, path);
    FoldIff(g, path[..n]);
    SwingPrefix(path, n, n, true);
    SwingPrefix(path, n, n, false);
    HeldSwing(path, n);
    StepIff(g, Fold(g, path[..n]).value, path, n);
    LeastAtPoint(g, path[n].xyz, Swing(path, n, true));
  }

  /** A chain of held bends, every joint at its lower end, stands at its offset. */
  lemma {:induction false} HeldStands(g: Trig, path: seq<Joint>)
    requires IsTrig(g) && Ordered(path) && Fold(g, path).Some?
    requires forall i :: 0 <= i < |path| && Bends(path[i]) ==> path[i].lower == path[i].upper
    ensures Admissible(path, Ends(path, true))
    ensures Stands(g, Forward(g, path, Ends(path, true)), Swing(path, |path|, true), Fold(g, path).value.offset)
  {
    if path != [] {
      var n := |path| - 1;
      OffsetGrows(g, path, path[n].lower);
      HeldStands(g, path[..n]);
      assert Ends(path, true)[..n] == Ends(path[..n], true);
      LinkStands(g, path, n, Forward(g, path[..n], Ends(path[..n], true)), Swing(path, n, true),
                 Fold(g, path[..n]).value.offset, path[n].lower, Swing(path, |path|, true), Fold(g, path).value.offset);
    }
  }

  /** With only the last joint bending, every angle of the swing is reached at exactly the offset. */
  lemma ReachLeast(g: Trig, path: seq<Joint>, t: real) returns (q: seq<real>)
    requires IsTrig(g) && Ordered(path) && LastMoves(path) && Fold(g, path).Some?
    requires Swing(path, |path|, true) <= t <= Swing(path, |path|, false)
    ensures Admissible(path, q) && Stands(g, Forward(g, path, q), t, Fold(g, path).value.offset)
  {
    q := Ends(path, true);
    if path != [] {
      var n := |path| - 1;
      var last := if Bends(path[n]) then t - Swing(path, n, true) - path[n].pitch else path[n].lower;
      OffsetGrows(g, path, last);
      HeldStands(g, path[..n]);
      q := Ends(path[..n], true) + [last];
      assert q[..n] == Ends(path[..n], true);
      LinkStands(g, path, n, Forward(g, path[..n], Ends(path[..n], true)), Swing(path, n, true),
                 Fold(g, path[..n]).value.offset, last, t, Fold(g, path).value.offset);
    }
  }

  /** The gap of two vertices at some joint values. */
  function GapAt(g: Trig, path: seq<Joint>, q: seq<real>, v: Vec3, w: Vec3): real
    requires |q| == |path|
  {
    Place(Forward(g, path, q), v).x - w.x
  }

  /** The bound is the exact gap of a chain in which only the last joint bends. */
  lemma BoundIsAttained(g: Trig, path: seq<Joint>, parent: seq<Vec3>, child: seq<Vec3>) returns (q: seq<real>, v: Vec3,
                                                                                              w: Vec3)
    requires IsTrig(g) && parent != [] && child != [] && Ordered(path) && LastMoves(path)
    requires AllSupported(path)
    ensures Admissible(path, q) && v in child && w in parent
    ensures BoundOf(g, path, parent, child) == Some(GapAt(g, path, q, v, w))
  {
    FoldIff(g, path);
    SwingOrdered(path, |path|);
    var acc := Fold(g, path).value;
    var t;
    v, t := LeastVertex(g, child, acc.lower, acc.upper);
    var j :| 0 <= j < |parent| && parent[j].x == MaxX(parent);
    w := parent[j];
    q := ReachLeast(g, path, t);
    GapIs(g, path, q, v, w, t, acc.offset);
  }

  lemma LeastVertex(g: Trig, points: seq<Vec3>, low: real, high: real) returns (v: Vec3, t: real)
    requires IsTrig(g) && points != [] && low <= high
    ensures v in points && low <= t <= high && MinProjection(g, points, low, high) == Project(g, v, t)
  {
    MinProjectionExact(g, points, low, high);
    var k: int;
    k, t :| 0 <= k < |points| && low <= t <= high && MinProjection(g, points, low, high) == Project(g, points[k], t);
    v := points[k];
  }

  lemma GapIs(g: Trig, path: seq<Joint>, q: seq<real>, v: Vec3, w: Vec3, t: real, x: real)
    requires |q| == |path| && Stands(g, Forward(g, path, q), t, x)
    ensures GapAt(g, path, q, v, w) == x + Project(g, v, t) - w.x
  {
    PlacedX(g, Forward(g, path, q), t, v);
  }

  method Bound(g: Trig, path: seq<Joint>, parent: seq<Vec3>, child: seq<Vec3>) returns (gap: Option<real>)
    requires IsTrig(g) && parent != [] && child != []
    ensures gap == BoundOf(g, path, parent, child)
    ensures gap.Some? ==> Separated(g, path, parent, child, gap.value)
    ensures gap.Some? <==> AllSupported(path)
    ensures gap.Some? && Ordered(path) ==> IsBound(g, path, parent, child, gap.value)
  {
    FoldIff(g, path);
    var acc := START;
    for i := 0 to |path|
      invariant Fold(g, path[..i]) == Some(acc)
    {
      var next := Step(g, acc, path[i]);
      assert path[..i + 1][..i] == path[..i];
      if next == None {
        Unsupported(g, path, i + 1);
        return None;
      }
      acc := next.value;
    }
    assert path[..|path|] == path;
    gap := Some(acc.offset + MinProjection(g, child, acc.lower, acc.upper) - MaxX(parent));
    BoundIsSound(g, path, parent, child);
    if Ordered(path) {
      BoundIsBound(g, path, parent, child);
    }
  }

  /** A joint the analysis does not support makes the whole chain unsupported. */
  lemma {:induction false} Unsupported(g: Trig, path: seq<Joint>, i: nat)
    requires g.pi > 0.0 && i <= |path| && Fold(g, path[..i]) == None
    ensures Fold(g, path) == None
    decreases |path| - i
  {
    if i == |path| {
      assert path[..i] == path;
    } else {
      assert path[..i + 1][..i] == path[..i];
      Unsupported(g, path, i + 1);
    }
  }

  /** A tracked frame puts every vertex beyond the bound. */
  lemma TrackedVertex(g: Trig, acc: Acc, at: Pose, theta: real, child: seq<Vec3>, v: nat)
    requires IsTrig(g) && child != [] && v < |child| && Tracks(g, acc, at, theta)
    ensures Place(at, child[v]).x >= acc.offset + MinProjection(g, child, acc.lower, acc.upper)
  {
    MinProjectionExact(g, child, acc.lower, acc.upper);
    PlacedX(g, at, theta, child[v]);
  }

  lemma PlacedX(g: Trig, at: Pose, theta: real, v: Vec3)
    requires at.r.a == Vec3(g.cos(theta), 0.0, g.sin(theta))
    ensures Place(at, v).x == at.p.x + Project(g, v, theta)
  {
  }

  lemma BoundIsSound(g: Trig, path: seq<Joint>, parent: seq<Vec3>, child: seq<Vec3>)
    requires IsTrig(g) && parent != [] && child != [] && Fold(g, path).Some?
    ensures var acc := Fold(g, path).value;
      Separated(g, path, parent, child, acc.offset + MinProjection(g, child, acc.lower, acc.upper) - MaxX(parent))
  {
    var acc := Fold(g, path).value;
    forall q, v, w | Admissible(path, q) && 0 <= v < |child| && 0 <= w < |parent|
      ensures Place(Forward(g, path, q), child[v]).x - parent[w].x >=
              acc.offset + MinProjection(g, child, acc.lower, acc.upper) - MaxX(parent)
    {
      var theta := ChainTracks(g, path, q);
      TrackedVertex(g, acc, Forward(g, path, q), theta, child, v);
    }
  }

  lemma LessIsSeparated(g: Trig, path: seq<Joint>, parent: seq<Vec3>, child: seq<Vec3>, gap: real, less: real)
    requires Separated(g, path, parent, child, gap) && less <= gap
    ensures Separated(g, path, parent, child, less)
  {
    forall q, v, w | Admissible(path, q) && 0 <= v < |child| && 0 <= w < |parent|
      ensures Place(Forward(g, path, q), child[v]).x - parent[w].x >= less
    {
      assert Place(Forward(g, path, q), child[v]).x - parent[w].x >= gap;
    }
  }

  // ----- narrowed limits

  /** The same chain with every joint's interval inside the original one. */
  ghost predicate Narrows(path: seq<Joint>, narrow: seq<Joint>) {
    && |path| == |narrow|
    && forall i :: 0 <= i < |path| ==>
         narrow[i] == path[i].(lower := narrow[i].lower, upper := narrow[i].upper) &&
         path[i].lower <= narrow[i].lower && narrow[i].upper <= path[i].upper
  }

  lemma {:induction false} LimitsDoNotMoveFrames(g: Trig, path: seq<Joint>, narrow: seq<Joint>, q: seq<real>)
    requires Narrows(path, narrow) && |q| == |path|
    ensures Forward(g, path, q) == Forward(g, narrow, q)
  {
    if path != [] {
      var n := |path| - 1;
      LimitsDoNotMoveFrames(g, path[..n], narrow[..n], q[..n]);
    }
  }

  /** A gap proved over the old intervals stays proved when the intervals shrink, without a new bound. */
  lemma NarrowedStaysSeparated(g: Trig, path: seq<Joint>, narrow: seq<Joint>, parent: seq<Vec3>, child: seq<Vec3>,
                               gap: real)
    requires Narrows(path, narrow) && Separated(g, path, parent, child, gap)
    ensures Separated(g, narrow, parent, child, gap)
  {
    forall q, v, w | Admissible(narrow, q) && 0 <= v < |child| && 0 <= w < |parent|
      ensures Place(Forward(g, narrow, q), child[v]).x - parent[w].x >= gap
    {
      forall i | 0 <= i < |path| && path[i].kind != Fixed ensures path[i].lower <= q[i] <= path[i].upper {
        assert narrow[i].kind == path[i].kind;
      }
      LimitsDoNotMoveFrames(g, path, narrow, q);
    }
  }
}
