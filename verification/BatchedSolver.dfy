/** The batched damped Gauss-Newton fit of solve_placement and its choice of candidates
    (workbench/research/support/hugmap.py). Angles and residuals are exact reals. */
module BatchedSolver {
  import opened Options
  import opened Planar
  import opened Roots

  const MAX_NFEV := 80
  const MAX_CANDIDATES := 16
  const TOL := 0.00005

  /** The gradients of a row's two residuals. */
  datatype Jacobian = Jacobian(a: Vec, b: Vec)

  /** A residual pair with its Jacobian, as batched_contacts gives it for one start. */
  datatype Contact = Contact(r: Vec, jac: Jacobian)

  /** One start: its angles, their residuals and gradients, its damping and whether it is still being fitted. */
  datatype Row = Row(q: Vec, r: Vec, jac: Jacobian, damping: real, active: bool)

  /** What the step needs from outside: the contact function of each start's pair, the square root and pi. */
  datatype Setting = Setting(contact: (nat, Vec) -> Contact, root: real -> real, pi: real)

  // ----- one step of one row

  function Gradient(jac: Jacobian, r: Vec): Vec { Vec(jac.a.x * r.x + jac.b.x * r.y, jac.a.y * r.x + jac.b.y * r.y) }

  /** A diagonal entry of the normal matrix with its damping. */
  function Damped(h: real, damping: real): real { h + damping * Max(h, 0.0001) }

  /** The damped normal matrix [[aa, bb], [bb, dd]]. */
  datatype Normal = Normal(aa: real, bb: real, dd: real)

  function NormalOf(jac: Jacobian, damping: real): Normal {
    Normal(Damped(jac.a.x * jac.a.x + jac.b.x * jac.b.x, damping), jac.a.x * jac.a.y + jac.b.x * jac.b.y,
           Damped(jac.a.y * jac.a.y + jac.b.y * jac.b.y, damping))
  }

  function Determinant(m: Normal): real { Max(m.aa * m.dd - m.bb * m.bb, 0.000000000000000000000000000001) }

  /** The damped step before its length is capped. */
  function Newton(m: Normal, g: Vec): Vec {
    Vec((-m.dd * g.x + m.bb * g.y) / Determinant(m), (m.bb * g.x - m.aa * g.y) / Determinant(m))
  }

  function Cap(root: real -> real, v: Vec): real {
    Min(1.0, 0.35 / Max(root(Dot(v, v)), 0.000000000000000000000000000001))
  }

  function Delta(root: real -> real, row: Row): Vec {
    var v := Newton(NormalOf(row.jac, row.damping), Gradient(row.jac, row.r));
    Scale(Cap(root, v), v)
  }

  function Clip(pi: real, a: real): real { Max(-pi, Min(pi, a)) }

  function ClipBoth(pi: real, v: Vec): Vec { Vec(Clip(pi, v.x), Clip(pi, v.y)) }

  function Trial(s: Setting, row: Row): Vec { ClipBoth(s.pi, Add(row.q, Delta(s.root, row))) }

  predicate Unfitted(r: Vec) { Max(Abs(r.x), Abs(r.y)) > 0.00000001 }

  /** The mask update at the head of a step. */
  function Checked(row: Row): Row { row.(active := row.active && Unfitted(row.r)) }

  predicate Better(s: Setting, k: nat, row: Row) {
    var c := s.contact(k, Trial(s, row));
    row.active && Dot(c.r, c.r) < Dot(row.r, row.r)
  }

  function Retuned(damping: real, accepted: bool): real {
    if accepted then Max(damping / 3.0, 0.000000001) else Min(damping * 5.0, 1000000000000.0)
  }

  /** The rest of a step on a checked row. */
  function Moved(s: Setting, k: nat, row: Row): Row {
    var accepted := Better(s, k, row);
    var trial := Trial(s, row);
    var c := s.contact(k, trial);
    var damping := Retuned(row.damping, accepted);
    Row(if accepted then trial else row.q, if accepted then c.r else row.r, if accepted then c.jac else row.jac,
        damping, row.active && damping < 1000000000000.0)
  }

  function Step(s: Setting, k: nat, row: Row): Row { Moved(s, k, Checked(row)) }

  function Steps(s: Setting, k: nat, row: Row, n: nat): Row
    decreases n
  {
    if n == 0 then row else Step(s, k, Steps(s, k, row, n - 1))
  }

  /** All that the rest of the solver reads of a row; an inactive row's damping goes on changing unread. */
  ghost predicate Same(a: Row, b: Row) {
    a.q == b.q && a.r == b.r && a.jac == b.jac && a.active == b.active && (a.active ==> a.damping == b.damping)
  }

  /** A row found inactive at the head of step n is what m > n steps make of it. */
  lemma {:induction false} Idle(s: Setting, k: nat, row: Row, n: nat, m: nat)
    requires n < m && !Checked(Steps(s, k, row, n)).active
    ensures Same(Checked(Steps(s, k, row, n)), Steps(s, k, row, m))
    decreases m
  {
    if n < m - 1 {
      Idle(s, k, row, n, m - 1);
    }
  }

  /** One start fitted on its own: at most 79 steps, leaving when it is no longer active. */
  method FitAlone(s: Setting, k: nat, start: Row) returns (row: Row)
    ensures Same(row, Steps(s, k, start, MAX_NFEV - 1))
    ensures s.pi > 0.0 ==> exists trace :: IsFit(s, k, start, trace) && Same(row, trace[79])
  {
    if s.pi > 0.0 {
      ghost var trace := StepsAreFit(s, k, start);
    }
    row := start;
    for step := 0 to MAX_NFEV - 1
      invariant row == Steps(s, k, start, step)
    {
      row := Checked(row);
      if !row.active {
        Idle(s, k, start, step, MAX_NFEV - 1);
        return;
      }
      row := Moved(s, k, row);
    }
  }

  // ----- what every step keeps

  /** Damping positive, residuals and gradients those of the angles, angles in the box. */
  ghost predicate Sound(s: Setting, k: nat, row: Row) {
    && row.damping > 0.0 && s.contact(k, row.q) == Contact(row.r, row.jac)
    && -s.pi <= row.q.x <= s.pi && -s.pi <= row.q.y <= s.pi
  }

  lemma {:induction false} StepsSound(s: Setting, k: nat, row: Row, n: nat)
    requires Sound(s, k, row) && s.pi > 0.0
    ensures Sound(s, k, Steps(s, k, row, n))
  {
    if n > 0 {
      StepsSound(s, k, row, n - 1);
    }
  }

  /** Each row's squared residual never increases. */
  lemma {:induction false} ResidualNeverIncreases(s: Setting, k: nat, row: Row, n: nat, m: nat)
    requires n <= m
    ensures Dot(Steps(s, k, row, m).r, Steps(s, k, row, m).r) <= Dot(Steps(s, k, row, n).r, Steps(s, k, row, n).r)
    decreases m
  {
    if n < m {
      ResidualNeverIncreases(s, k, row, n, m - 1);
    }
  }

  lemma DampedAbove(h: real, damping: real) returns (extra: real)
    requires h >= 0.0 && damping > 0.0
    ensures extra > 0.0 && Damped(h, damping) == h + extra
  {
    extra := Product(damping, Max(h, 0.0001));
  }

  lemma TwoSquares(a0: real, a1: real, b0: real, b1: real)
    ensures (a0 * a0 + b0 * b0) * (a1 * a1 + b1 * b1) - (a0 * a1 + b0 * b1) * (a0 * a1 + b0 * b1)
         == (a0 * b1 - b0 * a1) * (a0 * b1 - b0 * a1)
  {
  }

  lemma GrowProduct(h: real, k: real, p: real, q: real, b: real)
    requires h >= 0.0 && k >= 0.0 && p > 0.0 && q > 0.0 && h * k - b >= 0.0
    ensures (h + p) * (k + q) - b > 0.0
  {
    var pq := Product(p, q);
    assert h * q >= 0.0 && p * k >= 0.0;
    assert (h + p) * (k + q) == h * k + h * q + p * k + pq;
  }

  ghost predicate Definite(m: Normal) { m.aa > 0.0 && m.dd > 0.0 && m.aa * m.dd - m.bb * m.bb > 0.0 }

  lemma NormalParts(jac: Jacobian, damping: real) returns (h: real, k: real, p: real, q: real, b: real)
    requires damping > 0.0
    ensures NormalOf(jac, damping) == Normal(h + p, b, k + q)
    ensures h >= 0.0 && k >= 0.0 && p > 0.0 && q > 0.0 && h * k - b * b >= 0.0
  {
    var x, y, z, w := jac.a.x, jac.a.y, jac.b.x, jac.b.y;
    h := SumOfSquares(x, z);
    k := SumOfSquares(y, w);
    p := DampedAbove(h, damping);
    q := DampedAbove(k, damping);
    b := x * y + z * w;
    TwoSquares(x, y, z, w);
    var square := SquareSign(x * w - z * y);
  }

  /** The damped normal matrix is positive definite. */
  lemma NormalIsDefinite(jac: Jacobian, damping: real)
    requires damping > 0.0
    ensures Definite(NormalOf(jac, damping))
  {
    var h, k, p, q, b := NormalParts(jac, damping);
    GrowProduct(h, k, p, q, b * b);
  }

  lemma SumOfSquares(a: real, b: real) returns (s: real)
    ensures s == a * a + b * b && s >= 0.0
  {
    var a2 := SquareSign(a);
    var b2 := SquareSign(b);
    s := a2 + b2;
  }

  /** The quadratic form of the adjugate. */
  function Form(m: Normal, g: Vec): real { m.dd * (g.x * g.x) - 2.0 * m.bb * (g.x * g.y) + m.aa * (g.y * g.y) }

  lemma FormIsPositive(m: Normal, g: Vec)
    requires Definite(m) && g != ZERO
    ensures Form(m, g) > 0.0
  {
    var x, y := g.x, g.y;
    assert g == Vec(x, y);
    CompleteSquare(m.aa, m.bb, m.dd, x, y);
    var first := SquareSign(m.dd * x - m.bb * y);
    var y2 := SquareSign(y);
    if y != 0.0 {
      var second := Product(m.aa * m.dd - m.bb * m.bb, y2);
      PositiveFactor(m.dd, Form(m, g));
    } else {
      var x2 := SquareSign(x);
      var only := Product(m.dd, x2);
    }
  }

  lemma CompleteSquare(aa: real, bb: real, dd: real, x: real, y: real)
    ensures dd * (dd * (x * x) - 2.0 * bb * (x * y) + aa * (y * y))
         == (dd * x - bb * y) * (dd * x - bb * y) + (aa * dd - bb * bb) * (y * y)
  {
  }

  lemma PositiveFactor(a: real, b: real)
    requires a > 0.0 && a * b > 0.0
    ensures b > 0.0
  {
    if b < 0.0 {
      var p := Product(a, -b);
    }
  }

  lemma NewtonSlope(m: Normal, g: Vec)
    ensures Dot(g, Newton(m, g)) == -(Form(m, g) / Determinant(m))
  {
    var det := Determinant(m);
    Over(g.x, -m.dd * g.x + m.bb * g.y, g.y, m.bb * g.x - m.aa * g.y, det);
    assert g.x * (-m.dd * g.x + m.bb * g.y) + g.y * (m.bb * g.x - m.aa * g.y) == -Form(m, g) by {
      FormExpands(m, g.x, g.y);
    }
    Negated(Form(m, g), det);
  }

  lemma FormExpands(m: Normal, x: real, y: real)
    ensures x * (-m.dd * x + m.bb * y) + y * (m.bb * x - m.aa * y)
         == -(m.dd * (x * x) - 2.0 * m.bb * (x * y) + m.aa * (y * y))
  {
  }

  lemma Negated(a: real, d: real)
    requires d > 0.0
    ensures (-a) / d == -(a / d)
  {
  }

  lemma Over(x: real, a: real, y: real, b: real, d: real)
    requires d > 0.0
    ensures x * (a / d) + y * (b / d) == (x * a + y * b) / d
  {
    var i := 1.0 / d;
    assert a / d == a * i && b / d == b * i;
    assert x * (a * i) == (x * a) * i && y * (b * i) == (y * b) * i;
    assert (x * a + y * b) / d == (x * a + y * b) * i;
  }

  lemma CapIsPositive(root: real -> real, v: Vec)
    ensures 0.0 < Cap(root, v) <= 1.0
  {
    var t := Max(root(Dot(v, v)), 0.000000000000000000000000000001);
    assert 0.35 / t > 0.0;
  }

  lemma NewtonDescends(m: Normal, g: Vec)
    requires Definite(m)
    ensures if g == ZERO then Newton(m, g) == ZERO else Dot(g, Newton(m, g)) < 0.0
  {
    if g != ZERO {
      FormIsPositive(m, g);
      NewtonSlope(m, g);
      assert Form(m, g) / Determinant(m) > 0.0;
    }
  }

  /** Before clipping the step never climbs: its slope against the gradient of half the squared residual is negative
      unless that gradient vanishes, and then the step is zero. */
  lemma StepDescends(s: Setting, row: Row)
    requires row.damping > 0.0
    ensures var g := Gradient(row.jac, row.r);
      if g == ZERO then Delta(s.root, row) == ZERO else Dot(g, Delta(s.root, row)) < 0.0
  {
    var g, m := Gradient(row.jac, row.r), NormalOf(row.jac, row.damping);
    NormalIsDefinite(row.jac, row.damping);
    NewtonDescends(m, g);
    CappedDescends(s.root, g, Newton(m, g));
  }

  /** To first order r.x * r.x + r.y * r.y falls along d, unless its derivatives vanish, and then d does. */
  ghost predicate Descends(a: Vec, b: Vec, r: Vec, d: Vec) {
    if a.x * r.x + b.x * r.y == 0.0 && a.y * r.x + b.y * r.y == 0.0 then d == ZERO
    else r.x * (a.x * d.x + a.y * d.y) + r.y * (b.x * d.x + b.y * d.y) < 0.0
  }

  /** The same in the residuals' own terms: half the squared residual falls to first order along the step, unless both
      its derivatives vanish, and then there is no step. */
  lemma ResidualsDescend(s: Setting, row: Row)
    requires row.damping > 0.0
    ensures Descends(row.jac.a, row.jac.b, row.r, Delta(s.root, row))
  {
    StepDescends(s, row);
    DescendsAlong(row.jac, row.r, Delta(s.root, row), Gradient(row.jac, row.r));
  }

  lemma DescendsAlong(jac: Jacobian, r: Vec, d: Vec, g: Vec)
    requires g == Gradient(jac, r) && if g == ZERO then d == ZERO else Dot(g, d) < 0.0
    ensures Descends(jac.a, jac.b, r, d)
  {
    ResidualSlope(jac, r, d);
  }

  lemma ResidualSlope(jac: Jacobian, r: Vec, d: Vec)
    ensures var a, b, g := jac.a, jac.b, Gradient(jac, r);
      (r.x * (a.x * d.x + a.y * d.y) + r.y * (b.x * d.x + b.y * d.y) == Dot(g, d)
       && (g == ZERO <==> a.x * r.x + b.x * r.y == 0.0 && a.y * r.x + b.y * r.y == 0.0))
  {
    SlopeOfResiduals(jac.a.x, jac.a.y, jac.b.x, jac.b.y, r.x, r.y, d.x, d.y);
  }

  lemma SlopeOfResiduals(ax: real, ay: real, bx: real, by_: real, rx: real, ry: real, dx: real, dy: real)
    ensures rx * (ax * dx + ay * dy) + ry * (bx * dx + by_ * dy) == (ax * rx + bx * ry) * dx + (ay * rx + by_ * ry) * dy
  {
  }

  /** v solves [[h, m], [m, k]] v = -(x, y), the diagonal raised by the damping, wherever the determinant floor does not
      bind. */
  ghost predicate SolvesNormal(h: real, m: real, k: real, x: real, y: real, damping: real, v: Vec) {
    Solves(Raised(h, m, k, damping), Vec(x, y), v)
  }

  /** [[h, m], [m, k]] with its diagonal raised. */
  function Raised(h: real, m: real, k: real, damping: real): Normal {
    Normal(h + damping * Max(h, 0.0001), m, k + damping * Max(k, 0.0001))
  }

  /** [[aa, bb], [bb, dd]] v = -g, unless the determinant is below the floor. */
  ghost predicate Solves(n: Normal, g: Vec, v: Vec) {
    n.aa * n.dd - n.bb * n.bb >= 0.000000000000000000000000000001 ==>
      n.aa * v.x + n.bb * v.y == -g.x && n.bb * v.x + n.dd * v.y == -g.y
  }

  /** c leaves v as it is when it is no longer than 0.35, and else shortens it to that. */
  ghost predicate IsCap(c: real, v: Vec) {
    && 0.0 < c <= 1.0 && (c == 1.0 <==> v.x * v.x + v.y * v.y <= 0.35 * 0.35)
    && (c < 1.0 ==> (c * v.x) * (c * v.x) + (c * v.y) * (c * v.y) == 0.35 * 0.35)
  }

  lemma CapIsCap(root: real -> real, v: Vec)
    requires IsRoot(root)
    ensures IsCap(Cap(root, v), v)
  {
    CapIsPositive(root, v);
    CapReaches(root, v);
  }

  /** The step is the damped Gauss-Newton step, shortened to 0.35 where that is longer. */
  lemma StepIsShortened(s: Setting, row: Row) returns (c: real)
    requires IsRoot(s.root)
    ensures var v := Newton(NormalOf(row.jac, row.damping), Gradient(row.jac, row.r));
      Delta(s.root, row) == Scale(c, v) && IsCap(c, v)
  {
    var v := Newton(NormalOf(row.jac, row.damping), Gradient(row.jac, row.r));
    c := Cap(s.root, v);
    CapIsCap(s.root, v);
  }

  /** The damped step solves the normal equations of the residuals; h, m, k and x, y name the entries of the normal
      matrix and of the right-hand side. */
  lemma StepSolves(jac: Jacobian, r: Vec, damping: real, v: Vec, h: real, m: real, k: real, x: real, y: real)
    requires v == Newton(NormalOf(jac, damping), Gradient(jac, r))
    requires h == jac.a.x * jac.a.x + jac.b.x * jac.b.x && m == jac.a.x * jac.a.y + jac.b.x * jac.b.y
    requires k == jac.a.y * jac.a.y + jac.b.y * jac.b.y
    requires x == jac.a.x * r.x + jac.b.x * r.y && y == jac.a.y * r.x + jac.b.y * r.y
    ensures SolvesNormal(h, m, k, x, y, damping, v)
  {
    NormalEntries(jac, damping, h, m, k);
    GradientEntries(jac, r, x, y);
    RaisedSolved(h, m, k, x, y, damping, v);
  }

  lemma RaisedSolved(h: real, m: real, k: real, x: real, y: real, damping: real, v: Vec)
    requires v == Newton(Raised(h, m, k, damping), Vec(x, y))
    ensures SolvesNormal(h, m, k, x, y, damping, v)
  {
    NormalSolved(Raised(h, m, k, damping), Vec(x, y), v);
  }

  lemma NormalEntries(jac: Jacobian, damping: real, h: real, m: real, k: real)
    requires h == jac.a.x * jac.a.x + jac.b.x * jac.b.x && m == jac.a.x * jac.a.y + jac.b.x * jac.b.y
    requires k == jac.a.y * jac.a.y + jac.b.y * jac.b.y
    ensures NormalOf(jac, damping) == Raised(h, m, k, damping)
  {
  }

  lemma GradientEntries(jac: Jacobian, r: Vec, x: real, y: real)
    requires x == jac.a.x * r.x + jac.b.x * r.y && y == jac.a.y * r.x + jac.b.y * r.y
    ensures Gradient(jac, r) == Vec(x, y)
  {
  }

  lemma NormalSolved(n: Normal, g: Vec, v: Vec)
    requires v == Newton(n, g)
    ensures Solves(n, g, v)
  {
    var det := n.aa * n.dd - n.bb * n.bb;
    if det >= 0.000000000000000000000000000001 {
      NewtonSolves(n.aa, n.bb, n.dd, g.x, g.y, det, v.x, v.y);
    }
  }

  lemma NewtonSolves(aa: real, bb: real, dd: real, gx: real, gy: real, det: real, x: real, y: real)
    requires det == aa * dd - bb * bb && det > 0.0
    requires x == (-dd * gx + bb * gy) / det && y == (bb * gx - aa * gy) / det
    ensures aa * x + bb * y == -gx && bb * x + dd * y == -gy
  {
    Quotients(x, -dd * gx + bb * gy, det);
    Quotients(y, bb * gx - aa * gy, det);
    FirstRow(aa, bb, dd, gx, gy, det, x, y);
    SecondRow(aa, bb, dd, gx, gy, det, x, y);
  }

  lemma Quotients(x: real, part: real, det: real)
    requires det > 0.0 && x == part / det
    ensures x * det == part
  {
  }

  lemma FirstRow(aa: real, bb: real, dd: real, gx: real, gy: real, det: real, x: real, y: real)
    requires det == aa * dd - bb * bb && det > 0.0 && x * det == -dd * gx + bb * gy && y * det == bb * gx - aa * gy
    ensures aa * x + bb * y == -gx
  {
    assert (aa * x + bb * y + gx) * det == aa * (x * det) + bb * (y * det) + gx * det;
    assert aa * (-dd * gx + bb * gy) + bb * (bb * gx - aa * gy) == -(aa * dd - bb * bb) * gx;
    NoMultiple(aa * x + bb * y + gx, det);
  }

  lemma SecondRow(aa: real, bb: real, dd: real, gx: real, gy: real, det: real, x: real, y: real)
    requires det == aa * dd - bb * bb && det > 0.0 && x * det == -dd * gx + bb * gy && y * det == bb * gx - aa * gy
    ensures bb * x + dd * y == -gy
  {
    assert (bb * x + dd * y + gy) * det == bb * (x * det) + dd * (y * det) + gy * det;
    assert bb * (-dd * gx + bb * gy) + dd * (bb * gx - aa * gy) == -(aa * dd - bb * bb) * gy;
    NoMultiple(bb * x + dd * y + gy, det);
  }

  lemma NoMultiple(x: real, det: real)
    requires det > 0.0 && x * det == 0.0
    ensures x == 0.0
  {
    MinusTimes(x, det);
    if x > 0.0 {
      var p := Product(x, det);
    } else if x < 0.0 {
      var p := Product(-x, det);
    }
  }

  lemma MinusTimes(x: real, y: real)
    ensures -x * y == -(x * y)
  {
  }

  /** The cap is one up to 0.35 and brings a longer step to that length. */
  lemma CapReaches(root: real -> real, v: Vec)
    requires IsRoot(root)
    ensures Cap(root, v) == 1.0 <==> v.x * v.x + v.y * v.y <= 0.35 * 0.35
    ensures var c := Cap(root, v); c < 1.0 ==> (c * v.x) * (c * v.x) + (c * v.y) * (c * v.y) == 0.35 * 0.35
  {
    var v2 := SumOfSquares(v.x, v.y);
    var t, c := root(Dot(v, v)), Cap(root, v);
    assert t * t == v2;
    SquaresOrdered(t, 0.35);
    CapValue(t, c);
    if c < 1.0 {
      ScaledLength(c, v);
      Regroup(c, t);
      assert c * t == 0.35;
    }
  }

  lemma CapValue(t: real, c: real)
    requires t >= 0.0 && c == Min(1.0, 0.35 / Max(t, 0.000000000000000000000000000001))
    ensures c == 1.0 <==> t <= 0.35
    ensures c < 1.0 ==> c * t == 0.35
  {
    var e := Max(t, 0.000000000000000000000000000001);
    var r := 0.35 / e;
    assert r * e == 0.35;
    Scaled(1.0, r, e);
    Scaled(r, 1.0, e);
  }

  lemma CappedDescends(root: real -> real, g: Vec, v: Vec)
    requires if g == ZERO then v == ZERO else Dot(g, v) < 0.0
    ensures if g == ZERO then Scale(Cap(root, v), v) == ZERO else Dot(g, Scale(Cap(root, v), v)) < 0.0
  {
    CapIsPositive(root, v);
    if g != ZERO {
      var fall := Product(Cap(root, v), -Dot(g, v));
      DotScale(g, Cap(root, v), v);
    }
  }

  lemma DotScale(g: Vec, c: real, v: Vec)
    ensures Dot(g, Scale(c, v)) == c * Dot(g, v)
  {
    assert g.x * (c * v.x) == c * (g.x * v.x) && g.y * (c * v.y) == c * (g.y * v.y);
  }

  /** No step is longer than 0.35. */
  lemma StepIsCapped(s: Setting, row: Row)
    requires IsRoot(s.root)
    ensures Dot(Delta(s.root, row), Delta(s.root, row)) <= 0.35 * 0.35
  {
    CappedLength(s.root, Newton(NormalOf(row.jac, row.damping), Gradient(row.jac, row.r)));
  }

  lemma CappedLength(root: real -> real, v: Vec)
    requires IsRoot(root)
    ensures Dot(Scale(Cap(root, v), v), Scale(Cap(root, v), v)) <= 0.35 * 0.35
  {
    var v2 := SumOfSquares(v.x, v.y);
    var t, c := root(Dot(v, v)), Cap(root, v);
    assert t * t == Dot(v, v);
    CapIsPositive(root, v);
    CapTimesNorm(c, t);
    ScaledLength(c, v);
    Regroup(c, t);
    SquaresOrdered(c * t, 0.35);
  }

  lemma Regroup(c: real, t: real)
    ensures (c * t) * (c * t) == (c * c) * (t * t)
  {
  }

  lemma ScaledLength(c: real, v: Vec)
    ensures Dot(Scale(c, v), Scale(c, v)) == (c * c) * Dot(v, v)
  {
    assert (c * v.x) * (c * v.x) == (c * c) * (v.x * v.x) && (c * v.y) * (c * v.y) == (c * c) * (v.y * v.y);
  }

  lemma CapTimesNorm(c: real, t: real)
    requires t >= 0.0 && c > 0.0 && c <= 0.35 / Max(t, 0.000000000000000000000000000001)
    ensures 0.0 <= c * t <= 0.35
  {
    var e := Max(t, 0.000000000000000000000000000001);
    Scaled(c, 0.35 / e, e);
    assert (0.35 / e) * e == 0.35;
    assert c * e <= 0.35;
    if t > 0.0 {
      var p := Product(c, t);
    }
    if t < e {
      Scaled(t, e, c);
      assert t * c == c * t && e * c == c * e;
    }
  }

  // ----- what a fit is

  /** The angle moved by d, kept within half a turn. */
  predicate Boxed(pi: real, a: real, d: real, t: real) {
    if a + d > pi then t == pi else if a + d < -pi then t == -pi else t == a + d
  }

  /** The trial is taken with a third of the damping when the squared residual falls, and otherwise not, with five times
      the damping, until that is 1e12. */
  predicate TakenOrNot(s: Setting, k: nat, row: Row, t: Vec, next: Row) {
    var c := s.contact(k, t);
    && (next.active <==> next.damping < 1000000000000.0)
    && if c.r.x * c.r.x + c.r.y * c.r.y < row.r.x * row.r.x + row.r.y * row.r.y
       then next == Row(t, c.r, c.jac, Max(row.damping / 3.0, 0.000000001), next.active)
       else next == Row(row.q, row.r, row.jac, Min(row.damping * 5.0, 1000000000000.0), next.active)
  }

  ghost predicate TriesStep(s: Setting, k: nat, row: Row, d: Vec, next: Row) {
    exists t: Vec ::
      Boxed(s.pi, row.q.x, d.x, t.x) && Boxed(s.pi, row.q.y, d.y, t.y) && TakenOrNot(s, k, row, t, next)
  }

  /** One step of a fit: a start that is done stays, any other tries its step. */
  ghost predicate IsStep(s: Setting, k: nat, row: Row, next: Row) {
    if !row.active || (-0.00000001 <= row.r.x <= 0.00000001 && -0.00000001 <= row.r.y <= 0.00000001) then
      next.q == row.q && next.r == row.r && next.jac == row.jac && !next.active
    else TriesStep(s, k, row, Delta(s.root, row), next)
  }

  lemma StepIsStep(s: Setting, k: nat, row: Row)
    requires s.pi > 0.0
    ensures IsStep(s, k, row, Step(s, k, row))
  {
    if row.active && Unfitted(row.r) {
      MoveTriesStep(s, k, row, Delta(s.root, row));
      assert Checked(row) == row;
    }
  }

  lemma MoveTriesStep(s: Setting, k: nat, row: Row, d: Vec)
    requires s.pi > 0.0 && row.active && d == Delta(s.root, row)
    ensures TriesStep(s, k, row, d, Moved(s, k, row))
  {
    var t := ClipBoth(s.pi, Add(row.q, d));
    TrialIsBoxed(s.pi, row.q, d, t);
    MovedIsStep(s, k, row, t, Moved(s, k, row));
  }

  lemma TrialIsBoxed(pi: real, q: Vec, d: Vec, t: Vec)
    requires pi > 0.0 && t == ClipBoth(pi, Add(q, d))
    ensures Boxed(pi, q.x, d.x, t.x) && Boxed(pi, q.y, d.y, t.y)
  {
  }

  lemma MovedIsStep(s: Setting, k: nat, row: Row, t: Vec, next: Row)
    requires row.active && t == Trial(s, row) && next == Moved(s, k, row)
    ensures TakenOrNot(s, k, row, t, next)
  {
    assert Better(s, k, row) <==> Dot(s.contact(k, t).r, s.contact(k, t).r) < Dot(row.r, row.r);
  }

  /** A start and the 79 steps after it. */
  ghost predicate IsFit(s: Setting, k: nat, start: Row, trace: seq<Row>) {
    |trace| == 80 && trace[0] == start && forall i :: 0 <= i < 79 ==> IsStep(s, k, trace[i], trace[i + 1])
  }

  lemma StepsAreFit(s: Setting, k: nat, start: Row) returns (trace: seq<Row>)
    requires s.pi > 0.0
    ensures IsFit(s, k, start, trace) && trace[79] == Steps(s, k, start, MAX_NFEV - 1)
  {
    trace := seq(80, i requires 0 <= i < 80 => Steps(s, k, start, i));
    forall i | 0 <= i < 79 ensures IsStep(s, k, trace[i], trace[i + 1]) {
      StepIsStep(s, k, trace[i]);
    }
  }

  // ----- the batched loop

  class Batch {
    const s: Setting
    const n: nat
    const q: array<Vec>
    const r: array<Vec>
    const jac: array<Jacobian>
    const damping: array<real>
    const active: array<bool>

    ghost predicate Shaped() {
      && q.Length == n && r.Length == n && jac.Length == n && damping.Length == n && active.Length == n && q != r
    }

    ghost function Footprint(): set<object> { {q, r, jac, damping, active} }

    function RowOf(k: nat): Row
      requires Shaped() && k < n
      reads q, r, jac, damping, active
    {
      Row(q[k], r[k], jac[k], damping[k], active[k])
    }

    constructor (s: Setting, start: seq<Row>)
      ensures Shaped() && this.s == s && n == |start| && fresh(Footprint())
      ensures forall k :: 0 <= k < n ==> RowOf(k) == start[k]
    {
      this.s, this.n := s, |start|;
      this.q := new Vec[|start|](k requires 0 <= k < |start| => start[k].q);
      this.r := new Vec[|start|](k requires 0 <= k < |start| => start[k].r);
      this.jac := new Jacobian[|start|](k requires 0 <= k < |start| => start[k].jac);
      this.damping := new real[|start|](k requires 0 <= k < |start| => start[k].damping);
      this.active := new bool[|start|](k requires 0 <= k < |start| => start[k].active);
    }

    /** active &= max |r| > 1e-8, and whether any row is left. */
    method CheckAll() returns (any: bool)
      requires Shaped()
      modifies active
      ensures forall k :: 0 <= k < n ==> RowOf(k) == Checked(old(RowOf(k)))
      ensures any <==> exists k :: 0 <= k < n && RowOf(k).active
    {
      forall k | 0 <= k < n {
        active[k] := active[k] && Unfitted(r[k]);
      }
      any := false;
      for k := 0 to n
        invariant any <==> exists j :: 0 <= j < k && RowOf(j).active
      {
        if active[k] {
          assert RowOf(k).active;
          any := true;
        }
      }
    }

    /** The step on all rows at once: trials and residuals as whole vectors, then masked assignments. */
    method MoveAll()
      requires Shaped()
      modifies q, r, jac, damping, active
      ensures forall k :: 0 <= k < n ==> RowOf(k) == Moved(s, k, old(RowOf(k)))
    {
      ghost var before := seq(n, k requires 0 <= k < n reads Footprint() => RowOf(k));
      var trial := seq(n, k requires 0 <= k < n reads Footprint() => Trial(s, RowOf(k)));
      var contacts := seq(n, k requires 0 <= k < n => s.contact(k, trial[k]));
      var accepted := seq(n, k requires 0 <= k < n reads Footprint() =>
        active[k] && Dot(contacts[k].r, contacts[k].r) < Dot(r[k], r[k]));
      Accept(trial, contacts, accepted);
      Retune(accepted);
      forall k | 0 <= k < n ensures RowOf(k) == Moved(s, k, before[k]) {
        assert accepted[k] == Better(s, k, before[k]);
      }
    }

    /** The masked assignments of the accepted trials. */
    method Accept(trial: seq<Vec>, contacts: seq<Contact>, accepted: seq<bool>)
      requires Shaped() && |trial| == |contacts| == |accepted| == n
      modifies q, r, jac
      ensures forall k :: 0 <= k < n ==>
        var row := old(RowOf(k));
        RowOf(k) == if accepted[k] then row.(q := trial[k], r := contacts[k].r, jac := contacts[k].jac) else row
    {
      forall k | 0 <= k < n && accepted[k] { q[k] := trial[k]; }
      forall k | 0 <= k < n && accepted[k] { r[k] := contacts[k].r; }
      forall k | 0 <= k < n && accepted[k] { jac[k] := contacts[k].jac; }
    }

    /** The damping, and the rows it gives up. */
    method Retune(accepted: seq<bool>)
      requires Shaped() && |accepted| == n
      modifies damping, active
      ensures forall k :: 0 <= k < n ==>
        var row := old(RowOf(k)); var d := Retuned(row.damping, accepted[k]);
        RowOf(k) == row.(damping := d, active := row.active && d < 1000000000000.0)
    {
      forall k | 0 <= k < n { damping[k] := Retuned(damping[k], accepted[k]); }
      forall k | 0 <= k < n { active[k] := active[k] && damping[k] < 1000000000000.0; }
    }

    /** Every row is where n steps alone take its start. */
    ghost predicate Reached(start: seq<Row>, steps: nat)
      requires Shaped()
      reads q, r, jac, damping, active
    {
      |start| == n && forall k :: 0 <= k < n ==> RowOf(k) == Steps(s, k, start[k], steps)
    }

    /** Every row is, as far as it is read, what all steps alone make of its start. */
    ghost predicate Fitted(start: seq<Row>)
      requires Shaped()
      reads q, r, jac, damping, active
    {
      |start| == n && forall k :: 0 <= k < n ==> Same(RowOf(k), Steps(s, k, start[k], MAX_NFEV - 1))
    }

    /** One pass of the loop; false when no row is left. */
    method Pass(ghost start: seq<Row>, ghost steps: nat) returns (any: bool)
      requires Shaped() && Reached(start, steps) && steps < MAX_NFEV - 1
      modifies q, r, jac, damping, active
      ensures if any then Reached(start, steps + 1) else Fitted(start)
    {
      any := CheckAll();
      if any {
        MoveAll();
      } else {
        forall k | 0 <= k < n ensures Same(RowOf(k), Steps(s, k, start[k], MAX_NFEV - 1)) {
          assert !RowOf(k).active;
          Idle(s, k, start[k], steps, MAX_NFEV - 1);
        }
      }
    }

    /** The fit of all starts together: every row ends as its lone run does. False when the stop flag is seen. */
    method Fit(stop: nat -> bool, ghost start: seq<Row>) returns (ok: bool)
      requires Shaped() && Reached(start, 0)
      modifies q, r, jac, damping, active
      ensures ok ==> Fitted(start)
      ensures !ok ==> exists step :: 0 <= step < MAX_NFEV - 1 && stop(step)
    {
      for step := 0 to MAX_NFEV - 1
        invariant Reached(start, step)
      {
        if stop(step) {
          return false;
        }
        var any := Pass(start, step);
        if !any {
          return true;
        }
      }
      ok := true;
    }
  }

  // ----- candidates

  datatype Pose = Pose(seg1: real, seg2: real, mu: real)

  /** What solve_placement returns: the least-friction candidate and how the search ended. */
  datatype Answer = Answer(best: Option<Pose>, attempts: nat, candidates: nat, limited: bool)

  predicate Near(a: Pose, b: Pose) { Max(Abs(a.seg1 - b.seg1), Abs(a.seg2 - b.seg2)) < 0.1 }

  predicate NearAny(sol: Pose, kept: seq<Pose>) { exists j :: 0 <= j < |kept| && Near(sol, kept[j]) }

  /** The candidates kept of the first n offers: none near an earlier one, sixteen at most. */
  function Kept(offers: seq<Option<Pose>>, n: nat): (kept: seq<Pose>)
    requires n <= |offers|
    ensures |kept| <= MAX_CANDIDATES
  {
    if n == 0 then []
    else
      var before := Kept(offers, n - 1);
      var offer := offers[n - 1];
      if |before| >= MAX_CANDIDATES || offer.None? || NearAny(offer.value, before) then before
      else before + [offer.value]
  }

  lemma {:induction false} KeptStops(offers: seq<Option<Pose>>, n: nat, m: nat)
    requires n <= m <= |offers| && |Kept(offers, n)| >= MAX_CANDIDATES
    ensures Kept(offers, m) == Kept(offers, n)
    decreases m
  {
    if n < m {
      KeptStops(offers, n, m - 1);
    }
  }

  /** Kept candidates come from offers and differ by at least 0.1 degree in some angle. */
  lemma {:induction false} KeptAreSpread(offers: seq<Option<Pose>>, n: nat)
    requires n <= |offers|
    ensures forall i, j :: 0 <= i < j < |Kept(offers, n)| ==> !Near(Kept(offers, n)[j], Kept(offers, n)[i])
    ensures forall j :: 0 <= j < |Kept(offers, n)| ==> Some(Kept(offers, n)[j]) in offers
  {
    if n > 0 {
      KeptAreSpread(offers, n - 1);
    }
  }

  /** Unless the limit is reached every offer is near a kept candidate. */
  lemma {:induction false} KeptCover(offers: seq<Option<Pose>>, n: nat, k: nat)
    requires k < n <= |offers| && offers[k].Some? && |Kept(offers, n)| < MAX_CANDIDATES
    ensures NearAny(offers[k].value, Kept(offers, n))
  {
    var before := Kept(offers, n - 1);
    if k < n - 1 {
      KeptCover(offers, n - 1, k);
      var j :| 0 <= j < |before| && Near(offers[k].value, before[j]);
      assert Kept(offers, n)[j] == before[j];
    } else if !NearAny(offers[k].value, before) {
      assert Kept(offers, n)[|before|] == offers[k].value;
      assert Near(offers[k].value, Kept(offers, n)[|before|]);
    }
  }

  /** The first candidate of least friction. */
  ghost predicate IsBest(kept: seq<Pose>, best: Option<Pose>) {
    if kept == [] then best.None?
    else
      exists b :: 0 <= b < |kept| && best == Some(kept[b]) && (forall j :: 0 <= j < |kept| ==> kept[b].mu <= kept[j].mu)
                  && (forall j :: 0 <= j < b ==> kept[b].mu < kept[j].mu)
  }

  method Best(kept: seq<Pose>) returns (best: Option<Pose>)
    ensures IsBest(kept, best)
  {
    if kept == [] {
      return None;
    }
    var b := 0;
    for j := 1 to |kept|
      invariant 0 <= b < j
      invariant forall i :: 0 <= i < j ==> kept[b].mu <= kept[i].mu
      invariant forall i :: 0 <= i < b ==> kept[b].mu < kept[i].mu
    {
      if kept[j].mu < kept[b].mu {
        b := j;
      }
    }
    return Some(kept[b]);
  }

  // ----- the whole search

  /** The outside of one search: the fit's setting, the starting angles, which of them the first screen lets through,
      and the full validator. */
  datatype Search = Search(s: Setting, starts: seq<Vec>, possible: nat -> bool, inspect: Vec -> Option<Pose>)

  /** When the stop flag is seen set: at the outset, at a fitting step, or at a candidate. */
  datatype Stop = Stop(first: bool, fit: nat -> bool, pick: nat -> bool)

  /** A start that is already a valid pose. */
  function Original(x: Search, k: nat): Option<Pose>
    requires k < |x.starts|
  {
    if x.possible(k) then x.inspect(x.starts[k]) else None
  }

  function StartRow(x: Search, k: nat): Row
    requires k < |x.starts|
  {
    var c := x.s.contact(k, x.starts[k]);
    Row(x.starts[k], c.r, c.jac, 0.001, Original(x, k).None?)
  }

  /** The pose that start k offers when it is fitted alone. */
  function OfferOf(x: Search, k: nat): Option<Pose>
    requires k < |x.starts|
  {
    if Original(x, k).Some? then Original(x, k) else OfferAt(x.inspect, Steps(x.s, k, StartRow(x, k), MAX_NFEV - 1))
  }

  function OfferAt(inspect: Vec -> Option<Pose>, row: Row): Option<Pose> {
    if Max(Abs(row.r.x), Abs(row.r.y)) * 0.05 <= TOL then inspect(row.q) else None
  }

  function Offers(x: Search): seq<Option<Pose>> { seq(|x.starts|, k requires 0 <= k < |x.starts| => OfferOf(x, k)) }

  /** What start k offers: itself when it is a valid pose already; otherwise where its fit ends, when the residuals
      there are at most 0.05 mm and the pose is valid. */
  ghost predicate IsOffer(x: Search, k: nat, offer: Option<Pose>)
    requires k < |x.starts|
  {
    if x.possible(k) && x.inspect(x.starts[k]).Some? then offer == x.inspect(x.starts[k])
    else
      var c := x.s.contact(k, x.starts[k]);
      exists trace: seq<Row> ::
        && IsFit(x.s, k, Row(x.starts[k], c.r, c.jac, 0.001, true), trace)
        && offer == if -0.001 <= trace[79].r.x <= 0.001 && -0.001 <= trace[79].r.y <= 0.001
                    then x.inspect(trace[79].q) else None
  }

  lemma OffersAreOffers(x: Search, k: nat)
    requires x.s.pi > 0.0 && k < |x.starts|
    ensures IsOffer(x, k, Offers(x)[k])
  {
    if Original(x, k).None? {
      var trace := StepsAreFit(x.s, k, StartRow(x, k));
    }
  }

  /** Both angles differ by less than 0.1 degree. */
  predicate Alike(a: Pose, b: Pose) { -0.1 < a.seg1 - b.seg1 < 0.1 && -0.1 < a.seg2 - b.seg2 < 0.1 }

  /** The offers at the picked places, in order, are kept: each one unlike those before it, sixteen at most; what is not
      picked is no pose, like one kept before it, or comes after the sixteenth. */
  ghost predicate IsGreedy(offers: seq<Option<Pose>>, picks: seq<nat>, kept: seq<Pose>) {
    && |picks| == |kept| <= 16
    && (forall j :: 0 <= j < |picks| ==> picks[j] < |offers| && offers[picks[j]] == Some(kept[j]))
    && (forall i, j :: 0 <= i < j < |picks| ==> picks[i] < picks[j] && !Alike(kept[j], kept[i]))
    && (forall k: nat :: k < |offers| && k !in picks ==> Passed(offers, picks, kept, k))
  }

  ghost predicate Passed(offers: seq<Option<Pose>>, picks: seq<nat>, kept: seq<Pose>, k: nat)
    requires k < |offers| && |picks| == |kept|
  {
    || offers[k].None? || (|picks| == 16 && picks[15] < k)
    || exists j :: 0 <= j < |picks| && picks[j] < k && Alike(offers[k].value, kept[j])
  }

  lemma NearIsAlike(a: Pose, b: Pose)
    ensures Near(a, b) <==> Alike(a, b)
  {
  }

  lemma {:induction false} KeptIsGreedy(offers: seq<Option<Pose>>, n: nat) returns (picks: seq<nat>)
    requires n <= |offers|
    ensures IsGreedy(offers[..n], picks, Kept(offers, n))
  {
    if n == 0 {
      picks := [];
    } else {
      var before := Kept(offers, n - 1);
      var some := KeptIsGreedy(offers, n - 1);
      var offer := offers[n - 1];
      picks := if |before| >= MAX_CANDIDATES || offer.None? || NearAny(offer.value, before) then some
               else some + [n - 1];
      forall j | 0 <= j < |before| && offer.Some? { NearIsAlike(offer.value, before[j]); }
      NextGreedy(offers, n, some, before, picks, Kept(offers, n));
    }
  }

  lemma NextGreedy(offers: seq<Option<Pose>>, n: nat, some: seq<nat>, before: seq<Pose>, picks: seq<nat>,
                   kept: seq<Pose>)
    requires 0 < n <= |offers| && IsGreedy(offers[..n - 1], some, before)
    requires var offer := offers[n - 1];
      if |before| >= 16 || offer.None? || exists j :: 0 <= j < |before| && Alike(offer.value, before[j])
      then picks == some && kept == before
      else picks == some + [n - 1] && kept == before + [offer.value]
    ensures IsGreedy(offers[..n], picks, kept)
  {
    var front, whole := offers[..n - 1], offers[..n];
    assert forall k :: 0 <= k < n - 1 ==> front[k] == whole[k];
    forall k: nat | k < n && k !in picks ensures Passed(whole, picks, kept, k) {
      if k < n - 1 {
        assert k !in some;
        assert Passed(front, some, before, k);
        if j :| 0 <= j < |some| && some[j] < k && front[k].Some? && Alike(front[k].value, before[j]) {
          assert Alike(whole[k].value, kept[j]);
        }
      }
    }
  }

  /** Exact valid seeds, found before fitting. */
  method Originals(x: Search) returns (originals: map<nat, Pose>)
    ensures forall k: nat :: k in originals <==> k < |x.starts| && Original(x, k).Some?
    ensures forall k: nat :: k in originals ==> Some(originals[k]) == Original(x, k)
  {
    originals := map[];
    for k := 0 to |x.starts|
      invariant forall j: nat :: j in originals <==> j < k && Original(x, j).Some?
      invariant forall j: nat :: j in originals ==> Some(originals[j]) == Original(x, j)
    {
      if x.possible(k) {
        var sol := x.inspect(x.starts[k]);
        if sol.Some? {
          originals := originals[k := sol.value];
        }
      }
    }
  }

  /** The candidate loop over the fitted rows. */
  method Pick(inspect: Vec -> Option<Pose>, rows: seq<Row>, originals: map<nat, Pose>, stop: nat -> bool,
              ghost offers: seq<Option<Pose>>)
    returns (ok: bool, kept: seq<Pose>)
    requires |offers| == |rows|
    requires forall k: nat ::
      k < |rows| ==> offers[k] == if k in originals then Some(originals[k]) else OfferAt(inspect, rows[k])
    ensures ok ==> kept == Kept(offers, |rows|)
    ensures !ok ==> exists k: nat :: stop(k)
  {
    kept := [];
    for k := 0 to |rows|
      invariant kept == Kept(offers, k)
    {
      if stop(k) {
        return false, kept;
      }
      var sol := if k in originals then Some(originals[k]) else OfferAt(inspect, rows[k]);
      assert sol == offers[k];
      if sol.Some? && |kept| < MAX_CANDIDATES && !NearAny(sol.value, kept) {
        kept := kept + [sol.value];
      }
      if |kept| >= MAX_CANDIDATES {
        KeptStops(offers, k + 1, |rows|);
        return true, kept;
      }
    }
    ok := true;
  }

  /** The fitted rows as values. */
  method Rows(batch: Batch) returns (rows: seq<Row>)
    requires batch.Shaped()
    ensures |rows| == batch.n && forall k :: 0 <= k < batch.n ==> rows[k] == batch.RowOf(k)
  {
    rows := seq(batch.n, k requires 0 <= k < batch.n && batch.Shaped() reads batch.Footprint() => batch.RowOf(k));
  }

  lemma OffersAgree(x: Search, originals: map<nat, Pose>, rows: seq<Row>)
    requires |rows| == |x.starts|
    requires forall k: nat :: k in originals <==> k < |x.starts| && Original(x, k).Some?
    requires forall k: nat :: k in originals ==> Some(originals[k]) == Original(x, k)
    requires forall k :: 0 <= k < |rows| ==> Same(rows[k], Steps(x.s, k, StartRow(x, k), MAX_NFEV - 1))
    ensures forall k: nat ::
      k < |rows| ==> Offers(x)[k] == if k in originals then Some(originals[k]) else OfferAt(x.inspect, rows[k])
  {
    forall k: nat | k < |rows|
      ensures Offers(x)[k] == if k in originals then Some(originals[k]) else OfferAt(x.inspect, rows[k])
    {
      var alone := Steps(x.s, k, StartRow(x, k), MAX_NFEV - 1);
      assert Same(rows[k], alone);
      assert OfferAt(x.inspect, rows[k]) == OfferAt(x.inspect, alone);
    }
  }

  /** The poses kept are a greedy choice among the starts' offers. */
  ghost predicate AreChosen(x: Search, kept: seq<Pose>) {
    exists offers: seq<Option<Pose>>, picks: seq<nat> :: IsChoice(x, offers, picks, kept)
  }

  ghost predicate IsChoice(x: Search, offers: seq<Option<Pose>>, picks: seq<nat>, kept: seq<Pose>) {
    && |offers| == |x.starts| && (forall k :: 0 <= k < |offers| ==> IsOffer(x, k, offers[k]))
    && IsGreedy(offers, picks, kept)
  }

  lemma KeptAreChosen(x: Search)
    requires x.s.pi > 0.0
    ensures AreChosen(x, Kept(Offers(x), |x.starts|))
  {
    var offers := Offers(x);
    var picks := KeptIsGreedy(offers, |x.starts|);
    assert offers[..|x.starts|] == offers;
    forall k | 0 <= k < |x.starts| ensures IsOffer(x, k, offers[k]) { OffersAreOffers(x, k); }
    assert IsChoice(x, offers, picks, Kept(offers, |x.starts|));
  }

  /** solve_placement from its starts on: the answer is what fitting every start alone would give. */
  method SolvePlacement(x: Search, stop: Stop) returns (answer: Option<Answer>)
    ensures answer.Some? && x.s.pi > 0.0 ==>
      exists kept :: AreChosen(x, kept) && IsBest(kept, answer.value.best) && answer.value.candidates == |kept|
                     && (answer.value.limited <==> |kept| == 16)
    ensures answer.Some? ==>
              var kept := Kept(Offers(x), |x.starts|);
              answer.value.candidates == |kept| <= MAX_CANDIDATES && IsBest(kept, answer.value.best) &&
              answer.value.attempts == |x.starts| && (answer.value.limited <==> |kept| == MAX_CANDIDATES)
    ensures answer.None? ==> stop.first || (exists k: nat :: stop.fit(k)) || (exists k: nat :: stop.pick(k))
  {
    if stop.first {
      return None;
    }
    var originals := Originals(x);
    var rows := seq(|x.starts|, k requires 0 <= k < |x.starts| => StartRow(x, k));
    var batch := new Batch(x.s, rows);
    var fitted := batch.Fit(stop.fit, rows);
    if !fitted {
      return None;
    }
    var fit := Rows(batch);
    OffersAgree(x, originals, fit);
    var ok, kept := Pick(x.inspect, fit, originals, stop.pick, Offers(x));
    if !ok {
      return None;
    }
    var best := Best(kept);
    if x.s.pi > 0.0 {
      KeptAreChosen(x);
    }
    answer := Some(Answer(best, |x.starts|, |kept|, |kept| >= MAX_CANDIDATES));
  }
}
