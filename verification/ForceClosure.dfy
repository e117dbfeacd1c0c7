/** Two-contact planar force closure and its friction threshold
    (workbench/research/support/newhug.py, friction_score and closure_at_mu).
    The tangent of the angle between an inward normal and its chord direction is |cross| / dot, and the
    tangent grows with the angle, so the largest ratio stands for the tangent of the worst angle. */
module ForceClosure {
  import opened Roots
  import opened InputErrors
  import opened Planar

  datatype Contacts = Contacts(p0: Vec, p1: Vec, n0: Vec, n1: Vec)

  /** The common threshold; Never stands for an infinite one. */
  datatype Threshold = Finite(mu: real) | Never

  /** From the first contact to the second. */
  function Chord(k: Contacts): Vec { Sub(k.p1, k.p0) }

  predicate WellPosed(k: Contacts) {
    k.n0 != ZERO && k.n1 != ZERO && k.p0 != k.p1
  }

  function TanAngle(normal: Vec, direction: Vec): real
    requires Dot(normal, direction) > 0.0
  {
    Abs(Cross(normal, direction)) / Dot(normal, direction)
  }

  function FrictionScore(k: Contacts): Result<Threshold> {
    if !WellPosed(k) then InputError
    else
      var c := Chord(k);
      var back := Scale(-1.0, c);
      if Dot(k.n0, c) > 0.0 && Dot(k.n1, back) > 0.0 then
        Ok(Finite(Max(TanAngle(k.n0, c), TanAngle(k.n1, back))))
      else Ok(Never)
  }

  function ClosureAtMu(score: Threshold, mu: real): Result<bool> {
    if mu < 0.0 then InputError
    else Ok(score.Finite? && mu > score.mu)
  }

  // ----- the meaning: four friction-cone edge wrenches positively span all planar wrenches

  datatype Wrench = Wrench(force: Vec, torque: real)

  datatype Weights = Weights(a: real, b: real, c: real, d: real)

  function Tangent(n: Vec): Vec { Vec(-n.y, n.x) }

  function Edge(n: Vec, mu: real): Vec { Add(n, Scale(mu, Tangent(n))) }

  /** The wrench of forces f0 at p0 and f1 at p1. */
  function Applied(k: Contacts, f0: Vec, f1: Vec): Wrench {
    Wrench(Add(f0, f1), Cross(k.p0, f0) + Cross(k.p1, f1))
  }

  /** Weighted forces along the edges, the first two applied at p0. */
  function Blend(k: Contacts, e: Edges, w: Weights): Wrench {
    Applied(k, Sum2(w.a, e.e0, w.b, e.f0), Sum2(w.c, e.e1, w.d, e.f1))
  }

  /** The two edge directions at each contact. */
  datatype Edges = Edges(e0: Vec, f0: Vec, e1: Vec, f1: Vec)

  function ConeEdges(k: Contacts, mu: real): Edges {
    Edges(Edge(k.n0, mu), Edge(k.n0, -mu), Edge(k.n1, mu), Edge(k.n1, -mu))
  }

  ghost predicate Produces(k: Contacts, e: Edges, w: Weights, target: Wrench) {
    w.a >= 0.0 && w.b >= 0.0 && w.c >= 0.0 && w.d >= 0.0 && Blend(k, e, w) == target
  }

  ghost predicate Producible(k: Contacts, e: Edges, target: Wrench) {
    exists w :: Produces(k, e, w, target)
  }

  ghost predicate PositivelySpans(k: Contacts, e: Edges) {
    forall target :: Producible(k, e, target)
  }

  /** Force closure: the four friction-cone edge wrenches positively span all planar wrenches. */
  ghost predicate Spans(k: Contacts, mu: real) {
    PositivelySpans(k, ConeEdges(k, mu))
  }

  /** The normal leaves its contact strictly inside the friction cone around the direction. */
  predicate Within(normal: Vec, direction: Vec, mu: real) {
    Dot(normal, direction) > 0.0 && mu * Dot(normal, direction) > Abs(Cross(normal, direction))
  }

  predicate Facing(k: Contacts, mu: real) {
    Within(k.n0, Chord(k), mu) && Within(k.n1, Scale(-1.0, Chord(k)), mu)
  }

  /** Both normals point away from each other along the chord. */
  predicate BothAway(k: Contacts) {
    Dot(k.n0, Chord(k)) < 0.0 && Dot(k.n1, Scale(-1.0, Chord(k))) < 0.0
  }

  lemma RatioBound(num: real, den: real, mu: real)
    requires den > 0.0
    ensures mu > num / den <==> mu * den > num
  {
    var q := num / den;
    assert q * den == num;
    if mu > q { assert (mu - q) * den > 0.0; }
    if mu * den > num { assert (mu - q) * den > 0.0; }
  }

  lemma TanBound(normal: Vec, direction: Vec, mu: real)
    requires Dot(normal, direction) > 0.0
    ensures mu > TanAngle(normal, direction) <==> Within(normal, direction, mu)
  {
    RatioBound(Abs(Cross(normal, direction)), Dot(normal, direction), mu);
  }

  lemma ClosureIsFacing(k: Contacts, mu: real)
    requires WellPosed(k) && mu >= 0.0
    ensures FrictionScore(k).Ok? && ClosureAtMu(FrictionScore(k).value, mu) == Ok(Facing(k, mu))
  {
    var back := Scale(-1.0, Chord(k));
    if Dot(k.n0, Chord(k)) > 0.0 && Dot(k.n1, back) > 0.0 {
      TanBound(k.n0, Chord(k), mu);
      TanBound(k.n1, back, mu);
    }
  }

  // ----- sufficiency

  function AddWeights(v: Weights, s: real, w: Weights): Weights {
    Weights(v.a + s * w.a, v.b + s * w.b, v.c + s * w.c, v.d + s * w.d)
  }

  /** The weighted force of one contact. */
  function ConeForce(n: Vec, mu: real, a: real, b: real): Vec {
    Sum2(a, Edge(n, mu), b, Edge(n, -mu))
  }

  lemma AppliedNull(k: Contacts, f0: Vec, f1: Vec, s: real, g0: Vec, g1: Vec, h0: Vec, h1: Vec)
    requires Applied(k, g0, g1) == Wrench(ZERO, 0.0)
    requires h0 == Add(f0, Scale(s, g0)) && h1 == Add(f1, Scale(s, g1))
    ensures Applied(k, h0, h1) == Applied(k, f0, f1)
  {
    CrossAdd(k.p0, f0, Scale(s, g0));
    CrossAdd(k.p1, f1, Scale(s, g1));
    CrossScale(k.p0, s, g0);
    CrossScale(k.p1, s, g1);
    Opposites(s, Cross(k.p0, g0), Cross(k.p1, g1));
    Opposites(s, g0.x, g1.x);
    Opposites(s, g0.y, g1.y);
  }

  lemma Opposites(s: real, a: real, b: real)
    requires a + b == 0.0
    ensures s * a + s * b == 0.0
  {
    assert b == -a;
  }

  lemma BlendNull(k: Contacts, e: Edges, v: Weights, s: real, w: Weights)
    requires Blend(k, e, w) == Wrench(ZERO, 0.0)
    ensures Blend(k, e, AddWeights(v, s, w)) == Blend(k, e, v)
  {
    var u := AddWeights(v, s, w);
    var f0, f1 := Sum2(v.a, e.e0, v.b, e.f0), Sum2(v.c, e.e1, v.d, e.f1);
    var g0, g1 := Sum2(w.a, e.e0, w.b, e.f0), Sum2(w.c, e.e1, w.d, e.f1);
    var h0, h1 := Sum2(u.a, e.e0, u.b, e.f0), Sum2(u.c, e.e1, u.d, e.f1);
    assert h0 == Add(f0, Scale(s, g0)) by { Sum2Combined(e.e0, e.f0, u.a, u.b, v.a, v.b, s, w.a, w.b); }
    assert h1 == Add(f1, Scale(s, g1)) by { Sum2Combined(e.e1, e.f1, u.c, u.d, v.c, v.d, s, w.c, w.d); }
    AppliedNull(k, f0, f1, s, g0, g1, h0, h1);
  }

  /** The weights with which the two cone edges of n sum to a multiple of d. */
  function Plus(n: Vec, mu: real, d: Vec): real { mu * Dot(n, d) + Cross(n, d) }

  function Minus(n: Vec, mu: real, d: Vec): real { mu * Dot(n, d) - Cross(n, d) }

  lemma ConeReaches(n: Vec, mu: real, d: Vec)
    ensures ConeForce(n, mu, Plus(n, mu, d), Minus(n, mu, d)) == Scale(2.0 * mu * Dot(n, n), d)
  {
    ConeX(n, mu, d, Dot(n, d), Cross(n, d), Dot(n, n), 2.0 * mu * Dot(n, n));
    ConeY(n, mu, d, Dot(n, d), Cross(n, d), Dot(n, n), 2.0 * mu * Dot(n, n));
    ByComponents(ConeForce(n, mu, Plus(n, mu, d), Minus(n, mu, d)), 2.0 * mu * Dot(n, n), d);
  }

  lemma ConeX(n: Vec, mu: real, d: Vec, u: real, v: real, nn: real, q: real)
    requires u == Dot(n, d) && v == Cross(n, d) && nn == Dot(n, n) && q == 2.0 * mu * nn
    ensures ConeForce(n, mu, Plus(n, mu, d), Minus(n, mu, d)).x == q * d.x
  {
    Gram(n, d);
    ConeComponents(n, mu, d, u, v);
    Component(mu, u, v, n.x, -n.y, nn, d.x, q);
  }

  lemma ConeY(n: Vec, mu: real, d: Vec, u: real, v: real, nn: real, q: real)
    requires u == Dot(n, d) && v == Cross(n, d) && nn == Dot(n, n) && q == 2.0 * mu * nn
    ensures ConeForce(n, mu, Plus(n, mu, d), Minus(n, mu, d)).y == q * d.y
  {
    Gram(n, d);
    ConeComponents(n, mu, d, u, v);
    Component(mu, u, v, n.y, n.x, nn, d.y, q);
  }

  lemma Gram(n: Vec, d: Vec)
    ensures Dot(n, d) * n.x + Cross(n, d) * -n.y == Dot(n, n) * d.x
    ensures Dot(n, d) * n.y + Cross(n, d) * n.x == Dot(n, n) * d.y
  {
  }

  lemma ConeComponents(n: Vec, mu: real, d: Vec, u: real, v: real)
    requires u == Dot(n, d) && v == Cross(n, d)
    ensures var f := ConeForce(n, mu, Plus(n, mu, d), Minus(n, mu, d));
      && f.x == (mu * u + v) * (n.x + mu * -n.y) + (mu * u - v) * (n.x + (-mu) * -n.y)
      && f.y == (mu * u + v) * (n.y + mu * n.x) + (mu * u - v) * (n.y + (-mu) * n.x)
  {
  }

  lemma Component(mu: real, u: real, v: real, a: real, t: real, nn: real, x: real, q: real)
    requires u * a + v * t == nn * x && q == 2.0 * mu * nn
    ensures (mu * u + v) * (a + mu * t) + (mu * u - v) * (a + (-mu) * t) == q * x
  {
    Telescope(mu, u, v, a, t);
    Regrouped(mu, nn, x, u * a + v * t, q);
  }

  lemma Regrouped(mu: real, nn: real, x: real, s: real, q: real)
    requires s == nn * x && q == 2.0 * mu * nn
    ensures 2.0 * mu * s == q * x
  {
    assert mu * s == (mu * nn) * x;
  }

  lemma ByComponents(f: Vec, q: real, d: Vec)
    requires f.x == q * d.x && f.y == q * d.y
    ensures f == Scale(q, d)
  {
    assert f == Vec(f.x, f.y);
  }

  lemma Telescope(mu: real, u: real, v: real, a: real, t: real)
    ensures (mu * u + v) * (a + mu * t) + (mu * u - v) * (a + (-mu) * t) == 2.0 * mu * (u * a + v * t)
  {
    assert (mu * u + v) * (a + mu * t) == mu * u * a + mu * u * mu * t + v * a + v * mu * t;
    assert (mu * u - v) * (a + (-mu) * t) == mu * u * a - mu * u * mu * t - v * a + v * mu * t;
  }

  lemma WithinIsPositive(n: Vec, d: Vec, mu: real)
    requires Within(n, d, mu)
    ensures Plus(n, mu, d) > 0.0 && Minus(n, mu, d) > 0.0
  {
  }

  lemma Reverse(s: real, c: Vec)
    ensures Scale(s, Scale(-1.0, c)) == Scale(-s, c)
  {
    ScaleTwice(s, -1.0, c);
  }

  /** Forces of equal size along the chord, towards each other, balance in force and torque. */
  lemma ChordForcesCancel(k: Contacts, s: real)
    ensures Applied(k, Scale(s, Chord(k)), Scale(-s, Chord(k))) == Wrench(ZERO, 0.0)
  {
    var c := Chord(k);
    CrossScale(k.p0, s, c);
    CrossScale(k.p1, -s, c);
    assert Cross(k.p0, c) == Cross(k.p1, c);
    Opposites(1.0, s * c.x, (-s) * c.x);
    assert s * c.x + (-s) * c.x == 0.0 && s * c.y + (-s) * c.y == 0.0;
    assert s * Cross(k.p0, c) + (-s) * Cross(k.p0, c) == 0.0;
  }

  /** Opposed chord forces make a strictly positive combination of the four edges vanish. */
  lemma PositiveNull(k: Contacts, mu: real) returns (w: Weights)
    requires WellPosed(k) && mu > 0.0 && Facing(k, mu)
    ensures w.a > 0.0 && w.b > 0.0 && w.c > 0.0 && w.d > 0.0
    ensures Blend(k, ConeEdges(k, mu), w) == Wrench(ZERO, 0.0)
  {
    var c := Chord(k);
    var back := Scale(-1.0, c);
    NonzeroSquare(k.n0);
    NonzeroSquare(k.n1);
    WithinIsPositive(k.n0, c, mu);
    WithinIsPositive(k.n1, back, mu);
    ConeReaches(k.n0, mu, c);
    ConeReaches(k.n1, mu, back);
    w := NullBlend(k, ConeEdges(k, mu), mu,
                   Dot(k.n0, k.n0), Dot(k.n1, k.n1), Plus(k.n0, mu, c), Minus(k.n0, mu, c),
                   Plus(k.n1, mu, back), Minus(k.n1, mu, back));
  }

  lemma NullBlend(k: Contacts, e: Edges, mu: real, m0: real, m1: real,
                  a: real, b: real, c: real, d: real) returns (w: Weights)
    requires mu > 0.0 && m0 > 0.0 && m1 > 0.0 && a > 0.0 && b > 0.0 && c > 0.0 && d > 0.0
    requires Sum2(a, e.e0, b, e.f0) == Scale(2.0 * mu * m0, Chord(k))
    requires Sum2(c, e.e1, d, e.f1) == Scale(2.0 * mu * m1, Scale(-1.0, Chord(k)))
    ensures w.a > 0.0 && w.b > 0.0 && w.c > 0.0 && w.d > 0.0
    ensures Blend(k, e, w) == Wrench(ZERO, 0.0)
  {
    var a' := Product(m1, a);
    var b' := Product(m1, b);
    var c' := Product(m0, c);
    var d' := Product(m0, d);
    w := Weights(a', b', c', d');
    Sum2Reaches(e.e0, e.f0, m1, a, b, 2.0 * mu * m0, Chord(k));
    Sum2Reaches(e.e1, e.f1, m0, c, d, 2.0 * mu * m1, Scale(-1.0, Chord(k)));
    var s := m1 * (2.0 * mu * m0);
    Reorder(mu, m0, m1);
    Reverse(s, Chord(k));
    ChordForcesCancel(k, s);
  }

  lemma Reorder(mu: real, m0: real, m1: real)
    ensures m0 * (2.0 * mu * m1) == m1 * (2.0 * mu * m0)
  {
  }

  /** Any force is a (signed) combination of the two edges of one cone. */
  lemma EdgesAreABasis(n: Vec, mu: real, g: Vec) returns (a: real, b: real)
    requires n != ZERO && mu > 0.0
    ensures ConeForce(n, mu, a, b) == g
  {
    NonzeroSquare(n);
    var q := Product(mu, Dot(n, n));
    var s := 2.0 * q;
    ConeReaches(n, mu, g);
    assert 2.0 * mu * Dot(n, n) == s;
    a, b := Sum2Unit(Edge(n, mu), Edge(n, -mu), Plus(n, mu, g), Minus(n, mu, g), s, g);
  }

  lemma CrossOfEdge(c: Vec, n: Vec, mu: real)
    ensures Cross(c, Edge(n, mu)) == mu * Dot(n, c) - Cross(n, c)
    ensures Minus(n, mu, Scale(-1.0, c)) == -(mu * Dot(n, c)) + Cross(n, c)
  {
    assert c.x * (n.y + mu * n.x) == c.x * n.y + mu * (c.x * n.x);
    assert c.y * (n.x + mu * -n.y) == c.y * n.x - mu * (c.y * n.y);
  }

  /** The torque arm of the second contact's first edge about p0. */
  lemma LeverIsNegative(k: Contacts, mu: real)
    requires Facing(k, mu)
    ensures Cross(Chord(k), Edge(k.n1, mu)) < 0.0
  {
    var c := Chord(k);
    CrossOfEdge(c, k.n1, mu);
    WithinIsPositive(k.n1, Scale(-1.0, c), mu);
  }

  /** Every wrench is a signed combination: the second contact's first edge carries the torque about p0. */
  lemma LinearSpan(k: Contacts, mu: real, target: Wrench) returns (w: Weights)
    requires WellPosed(k) && mu > 0.0 && Facing(k, mu)
    ensures Blend(k, ConeEdges(k, mu), w) == target
  {
    var c, e := Chord(k), Edge(k.n1, mu);
    LeverIsNegative(k, mu);
    var lever := Cross(c, e);
    var rest := target.torque - Cross(k.p0, target.force);
    var y := rest / lever;
    assert y * lever == rest;
    var g := Sub(target.force, Scale(y, e));
    var a, b := EdgesAreABasis(k.n0, mu, g);
    w := Weights(a, b, y, 0.0);
    assert ConeForce(k.n1, mu, y, 0.0) == Scale(y, e);
    TorqueSplits(k.p0, k.p1, target.force, y, e);
  }

  lemma TorqueSplits(p0: Vec, p1: Vec, f: Vec, y: real, e: Vec)
    ensures Cross(p0, Sub(f, Scale(y, e))) + Cross(p1, Scale(y, e)) == Cross(p0, f) + y * Cross(Sub(p1, p0), e)
    ensures Add(Sub(f, Scale(y, e)), Scale(y, e)) == f
  {
    var h := Scale(y, e);
    assert Cross(p0, Sub(f, h)) == Cross(p0, f) - Cross(p0, h);
    assert Cross(p1, h) - Cross(p0, h) == Cross(Sub(p1, p0), h);
    CrossScale(Sub(p1, p0), y, e);
  }

  /** Enough of a positive weight lifts any weight above zero. */
  lemma Quotient(v: real, w: real) returns (q: real)
    requires w > 0.0
    ensures q >= 0.0 && q * w == Abs(v)
  {
    q := Abs(v) / w;
  }

  lemma Lift(v: real, w: real, q: real, s: real)
    requires w > 0.0 && q * w == Abs(v) && s >= q
    ensures v + s * w >= 0.0
  {
    if s > q {
      var extra := Product(s - q, w);
      assert extra == s * w - q * w;
    }
  }

  lemma Above(a: real, b: real, c: real, d: real) returns (s: real)
    ensures s >= a && s >= b && s >= c && s >= d
  {
    s := Max(Max(a, b), Max(c, d));
  }

  lemma LiftAll(v: Weights, n: Weights) returns (s: real)
    requires n.a > 0.0 && n.b > 0.0 && n.c > 0.0 && n.d > 0.0
    ensures var w := AddWeights(v, s, n); w.a >= 0.0 && w.b >= 0.0 && w.c >= 0.0 && w.d >= 0.0
  {
    var a := Quotient(v.a, n.a);
    var b := Quotient(v.b, n.b);
    var c := Quotient(v.c, n.c);
    var d := Quotient(v.d, n.d);
    s := Above(a, b, c, d);
    Lift(v.a, n.a, a, s);
    Lift(v.b, n.b, b, s);
    Lift(v.c, n.c, c, s);
    Lift(v.d, n.d, d, s);
  }

  lemma FacingSpans(k: Contacts, mu: real)
    requires WellPosed(k) && mu > 0.0 && Facing(k, mu)
    ensures Spans(k, mu)
  {
    var n := PositiveNull(k, mu);
    forall target ensures Producible(k, ConeEdges(k, mu), target) {
      var v := LinearSpan(k, mu, target);
      var s := LiftAll(v, n);
      BlendNull(k, ConeEdges(k, mu), v, s, n);
      assert Produces(k, ConeEdges(k, mu), AddWeights(v, s, n), target);
    }
  }

  // ----- necessity: a functional that is nonnegative on all four edges rules closure out

  /** A functional on a force acting with moment arm r. */
  function Act(m: Vec, kappa: real, r: Vec, f: Vec): real {
    Dot(m, f) + kappa * Cross(r, f)
  }

  /** The functional of a wrench: m . force plus kappa times the torque about p. */
  function Measure(p: Vec, m: Vec, kappa: real, w: Wrench): real {
    Dot(m, w.force) + kappa * (w.torque - Cross(p, w.force))
  }

  lemma ActOfSum(m: Vec, kappa: real, r: Vec, a: real, e: Vec, b: real, f: Vec)
    ensures Act(m, kappa, r, Sum2(a, e, b, f)) == a * Act(m, kappa, r, e) + b * Act(m, kappa, r, f)
  {
    CrossAdd(r, Scale(a, e), Scale(b, f));
    CrossScale(r, a, e);
    CrossScale(r, b, f);
    DotOfSum(m, a, e, b, f);
    Distribute3(kappa, a, b, Cross(r, e), Cross(r, f));
  }

  lemma DotOfSum(m: Vec, a: real, e: Vec, b: real, f: Vec)
    ensures Dot(m, Sum2(a, e, b, f)) == a * Dot(m, e) + b * Dot(m, f)
  {
    assert m.x * (a * e.x + b * f.x) == a * (m.x * e.x) + b * (m.x * f.x);
    assert m.y * (a * e.y + b * f.y) == a * (m.y * e.y) + b * (m.y * f.y);
  }

  lemma Distribute3(kappa: real, a: real, b: real, x: real, y: real)
    ensures kappa * (a * x + b * y) == a * (kappa * x) + b * (kappa * y)
  {
  }

  lemma MeasureOfApplied(k: Contacts, p: Vec, m: Vec, kappa: real, f0: Vec, f1: Vec)
    ensures Measure(p, m, kappa, Applied(k, f0, f1)) ==
            Act(m, kappa, Sub(k.p0, p), f0) + Act(m, kappa, Sub(k.p1, p), f1)
  {
    assert Cross(k.p0, f0) + Cross(k.p1, f1) - Cross(p, Add(f0, f1))
         == Cross(Sub(k.p0, p), f0) + Cross(Sub(k.p1, p), f1);
    var x, y := Cross(Sub(k.p0, p), f0), Cross(Sub(k.p1, p), f1);
    assert kappa * (x + y) == kappa * x + kappa * y;
    assert Dot(m, Add(f0, f1)) == Dot(m, f0) + Dot(m, f1);
  }

  lemma WeightedSign(a: real, x: real, b: real, y: real)
    requires a >= 0.0 && b >= 0.0 && x >= 0.0 && y >= 0.0
    ensures a * x + b * y >= 0.0
  {
  }

  /** The functional is nonnegative on the wrench of every edge. */
  predicate Supports(k: Contacts, e: Edges, p: Vec, m: Vec, kappa: real) {
    && Act(m, kappa, Sub(k.p0, p), e.e0) >= 0.0 && Act(m, kappa, Sub(k.p0, p), e.f0) >= 0.0
    && Act(m, kappa, Sub(k.p1, p), e.e1) >= 0.0 && Act(m, kappa, Sub(k.p1, p), e.f1) >= 0.0
  }

  /** Nonnegative on the four edges, so nonnegative on everything they produce. */
  lemma NonnegativeOnProducts(k: Contacts, e: Edges, p: Vec, m: Vec, kappa: real, w: Weights, target: Wrench)
    requires Produces(k, e, w, target) && Supports(k, e, p, m, kappa)
    ensures Measure(p, m, kappa, target) >= 0.0
  {
    MeasureOfApplied(k, p, m, kappa, Sum2(w.a, e.e0, w.b, e.f0), Sum2(w.c, e.e1, w.d, e.f1));
    ActOfSum(m, kappa, Sub(k.p0, p), w.a, e.e0, w.b, e.f0);
    ActOfSum(m, kappa, Sub(k.p1, p), w.c, e.e1, w.d, e.f1);
    WeightedSign(w.a, Act(m, kappa, Sub(k.p0, p), e.e0), w.b, Act(m, kappa, Sub(k.p0, p), e.f0));
    WeightedSign(w.c, Act(m, kappa, Sub(k.p1, p), e.e1), w.d, Act(m, kappa, Sub(k.p1, p), e.f1));
  }

  /** Closure excludes a functional that supports the edges and is negative somewhere. */
  lemma NoSupport(k: Contacts, e: Edges, p: Vec, m: Vec, kappa: real, target: Wrench)
    requires PositivelySpans(k, e) && Measure(p, m, kappa, target) < 0.0
    ensures !Supports(k, e, p, m, kappa)
  {
    assert Producible(k, e, target);
    var w :| Produces(k, e, w, target);
    if Supports(k, e, p, m, kappa) {
      NonnegativeOnProducts(k, e, p, m, kappa, w, target);
    }
  }

  lemma TorqueOnly(z: Vec, r: Vec, kappa: real, f: Vec)
    requires Dot(z, f) == 0.0
    ensures Act(z, kappa, r, f) == kappa * Cross(r, f)
  {
  }

  lemma NoArm(p: Vec, f: Vec)
    ensures Cross(Sub(p, p), f) == 0.0
  {
  }

  lemma FlipArm(p: Vec, q: Vec, f: Vec)
    ensures Cross(Sub(p, q), f) == -Cross(Sub(q, p), f)
  {
  }

  /** No work on any edge, and none on itself. */
  predicate Idle(z: Vec, p: Vec, e: Edges) {
    && Dot(z, z) == 0.0 && Cross(p, z) == 0.0
    && Dot(z, e.e0) == 0.0 && Dot(z, e.f0) == 0.0 && Dot(z, e.e1) == 0.0 && Dot(z, e.f1) == 0.0
  }

  lemma NoWork(z: Vec, f: Vec)
    requires z.x == 0.0 && z.y == 0.0
    ensures Dot(z, f) == 0.0 && Cross(f, z) == 0.0
  {
  }

  lemma IdleForce(p: Vec, e: Edges) returns (z: Vec)
    ensures Idle(z, p, e)
  {
    z := Vec(0.0, 0.0);
    NoWork(z, z);
    NoWork(z, p);
    NoWork(z, e.e0);
    NoWork(z, e.f0);
    NoWork(z, e.e1);
    NoWork(z, e.f1);
  }

  lemma MeasureByParts(p: Vec, m: Vec, kappa: real, w: Wrench, d: real, y: real)
    requires d == Dot(m, w.force) && d == 0.0 && y == w.torque - Cross(p, w.force)
    ensures Measure(p, m, kappa, w) == kappa * y
  {
  }

  lemma OppositeUnits(kappa: real, y: real)
    requires (kappa == 1.0 || kappa == -1.0) && y == -kappa
    ensures kappa * y == -1.0
  {
  }

  /** A turn by kappa about p is opposed by the opposite torque. */
  lemma TurnOpposed(p: Vec, m: Vec, kappa: real, w: Wrench)
    requires (kappa == 1.0 || kappa == -1.0) && w.torque == -kappa
    requires Dot(m, w.force) == 0.0 && Cross(p, w.force) == 0.0
    ensures Measure(p, m, kappa, w) < 0.0
  {
    MeasureByParts(p, m, kappa, w, Dot(m, w.force), w.torque);
    OppositeUnits(kappa, w.torque);
  }

  /** No contact force keeps a body from being turned about p. */
  lemma NoTurnSupport(k: Contacts, e: Edges, p: Vec, m: Vec, kappa: real)
    requires PositivelySpans(k, e) && (kappa == 1.0 || kappa == -1.0) && Dot(m, m) == 0.0 && Cross(p, m) == 0.0
    ensures !Supports(k, e, p, m, kappa)
  {
    TurnOpposed(p, m, kappa, Wrench(m, -kappa));
    NoSupport(k, e, p, m, kappa, Wrench(m, -kappa));
  }

  /** A contact has no leverage about its own point. */
  lemma NoLeverage(z: Vec, p: Vec, kappa: real, f: Vec)
    requires Dot(z, f) == 0.0
    ensures Act(z, kappa, Sub(p, p), f) == 0.0
  {
    TorqueOnly(z, Sub(p, p), kappa, f);
    NoArm(p, f);
  }

  lemma SupportsAt0(k: Contacts, e: Edges, z: Vec, kappa: real)
    requires Idle(z, k.p0, e) && kappa * Cross(Chord(k), e.e1) >= 0.0 && kappa * Cross(Chord(k), e.f1) >= 0.0
    ensures Supports(k, e, k.p0, z, kappa)
  {
    NoLeverage(z, k.p0, kappa, e.e0);
    NoLeverage(z, k.p0, kappa, e.f0);
    TorqueOnly(z, Chord(k), kappa, e.e1);
    TorqueOnly(z, Chord(k), kappa, e.f1);
  }

  /** Torque about one contact: the other contact's two edges must turn strictly opposite ways. */
  lemma StraddleAt0(k: Contacts, e: Edges, kappa: real)
    requires PositivelySpans(k, e) && (kappa == 1.0 || kappa == -1.0)
    ensures kappa * Cross(Chord(k), e.e1) < 0.0 || kappa * Cross(Chord(k), e.f1) < 0.0
  {
    var z := IdleForce(k.p0, e);
    NoTurnSupport(k, e, k.p0, z, kappa);
    if kappa * Cross(Chord(k), e.e1) >= 0.0 && kappa * Cross(Chord(k), e.f1) >= 0.0 {
      SupportsAt0(k, e, z, kappa);
    }
  }

  lemma SupportsAt1(k: Contacts, e: Edges, z: Vec, kappa: real, turn: real)
    requires turn == -kappa && Idle(z, k.p1, e)
    requires kappa * Cross(Chord(k), e.e0) >= 0.0 && kappa * Cross(Chord(k), e.f0) >= 0.0
    ensures Supports(k, e, k.p1, z, turn)
  {
    NoLeverage(z, k.p1, turn, e.e1);
    NoLeverage(z, k.p1, turn, e.f1);
    LeverFlipped(k, z, kappa, turn, e.e0);
    LeverFlipped(k, z, kappa, turn, e.f0);
  }

  lemma LeverFlipped(k: Contacts, z: Vec, kappa: real, turn: real, f: Vec)
    requires turn == -kappa && Dot(z, f) == 0.0
    ensures Act(z, turn, Sub(k.p0, k.p1), f) == kappa * Cross(Chord(k), f)
  {
    TorqueOnly(z, Sub(k.p0, k.p1), turn, f);
    FlipArm(k.p0, k.p1, f);
    TwoSigns(kappa, turn, Cross(Chord(k), f), Cross(Sub(k.p0, k.p1), f));
  }

  lemma TwoSigns(a: real, b: real, x: real, y: real)
    requires b == -a && y == -x
    ensures b * y == a * x
  {
  }

  lemma StraddleAt1(k: Contacts, e: Edges, kappa: real)
    requires PositivelySpans(k, e) && (kappa == 1.0 || kappa == -1.0)
    ensures kappa * Cross(Chord(k), e.e0) < 0.0 || kappa * Cross(Chord(k), e.f0) < 0.0
  {
    var turn := -kappa;
    var z := IdleForce(k.p1, e);
    NoTurnSupport(k, e, k.p1, z, turn);
    if kappa * Cross(Chord(k), e.e0) >= 0.0 && kappa * Cross(Chord(k), e.f0) >= 0.0 {
      SupportsAt1(k, e, z, kappa, turn);
    }
  }

  /** The friction angle exceeds the angle between the normal and the chord line. */
  predicate Steep(n: Vec, c: Vec, mu: real) {
    mu * Abs(Dot(n, c)) > Abs(Cross(n, c))
  }

  lemma EdgesStraddle(k: Contacts, mu: real)
    requires Spans(k, mu) && mu >= 0.0
    ensures Steep(k.n0, Chord(k), mu) && Steep(k.n1, Chord(k), mu)
  {
    var e := ConeEdges(k, mu);
    StraddleAt0(k, e, 1.0);
    StraddleAt0(k, e, -1.0);
    StraddleAt1(k, e, 1.0);
    StraddleAt1(k, e, -1.0);
    TurnsOpposite(Chord(k), k.n0, mu);
    TurnsOpposite(Chord(k), k.n1, mu);
  }

  /** Edges on strictly opposite sides of the chord: the friction angle exceeds the angle to the chord line. */
  lemma TurnsOpposite(c: Vec, n: Vec, mu: real)
    requires mu >= 0.0
    requires Cross(c, Edge(n, mu)) < 0.0 || Cross(c, Edge(n, -mu)) < 0.0
    requires Cross(c, Edge(n, mu)) > 0.0 || Cross(c, Edge(n, -mu)) > 0.0
    ensures Steep(n, c, mu)
  {
    var nu := -mu;
    CrossOfEdge(c, n, mu);
    CrossOfEdge(c, n, nu);
    SteepWhenOpposed(mu, nu, Dot(n, c), Cross(n, c), Cross(c, Edge(n, mu)), Cross(c, Edge(n, nu)));
  }

  lemma SteepWhenOpposed(mu: real, nu: real, u: real, v: real, e: real, e': real)
    requires mu >= 0.0 && nu == -mu && e == mu * u - v && e' == nu * u - v
    requires (e < 0.0 || e' < 0.0) && (e > 0.0 || e' > 0.0)
    ensures mu * Abs(u) > Abs(v)
  {
    assert nu * u == -(mu * u);
    MulAbs(mu, u);
    Opposed(mu * u, nu * u, v);
  }

  lemma Opposed(u: real, u': real, v: real)
    requires u' == -u
    requires u - v > 0.0 || u' - v > 0.0
    requires u - v < 0.0 || u' - v < 0.0
    ensures Abs(u) > Abs(v)
  {
  }

  lemma MulAbs(mu: real, u: real)
    requires mu >= 0.0
    ensures mu * Abs(u) == Abs(mu * u)
  {
    if mu > 0.0 && u > 0.0 {
      var p := Product(mu, u);
    } else if mu > 0.0 && u < 0.0 {
      var p := Product(mu, -u);
    }
  }

  /** The plane's two-term expansion along c and its tangent. */
  lemma Parseval(c: Vec, d: Vec, f: Vec)
    ensures Dot(c, c) * Dot(d, f) == Dot(d, c) * Dot(c, f) + Dot(d, Tangent(c)) * Cross(c, f)
  {
    assert Dot(c, c) * Dot(d, f)
         == c.x * c.x * d.x * f.x + c.x * c.x * d.y * f.y + c.y * c.y * d.x * f.x + c.y * c.y * d.y * f.y;
    assert Dot(d, c) * Dot(c, f)
         == c.x * c.x * d.x * f.x + c.x * c.y * d.x * f.y + c.x * c.y * d.y * f.x + c.y * c.y * d.y * f.y;
    assert Dot(d, Tangent(c)) * Cross(c, f) ==
           (-c.y * d.x + c.x * d.y) * (c.x * f.y - c.y * f.x);
    assert (-c.y * d.x + c.x * d.y) * (c.x * f.y - c.y * f.x) ==
           -(c.x * c.y * d.x * f.y) + c.y * c.y * d.x * f.x + c.x * c.x * d.y * f.y - c.x * c.y * d.y * f.x;
  }

  lemma DotSub(a: Vec, b: Vec, f: Vec)
    ensures Dot(Sub(a, b), f) == Dot(a, f) - Dot(b, f)
  {
  }

  lemma DotScale(s: real, a: Vec, f: Vec)
    ensures Dot(Scale(s, a), f) == s * Dot(a, f)
  {
    assert (s * a.x) * f.x == s * (a.x * f.x) && (s * a.y) * f.y == s * (a.y * f.y);
  }

  /** Moving the reference point along the chord turns a functional proportional to a into one proportional to b. */
  lemma DualShift(c: Vec, a: Vec, b: Vec, f: Vec)
    requires Dot(a, c) == Dot(b, c)
    ensures var q := Dot(c, c); Act(Scale(q, a), Dot(Sub(b, a), Tangent(c)), c, f) == q * Dot(b, f)
  {
    var d := Sub(b, a);
    DotSub(b, a, c);
    DotSub(b, a, f);
    Parseval(c, d, f);
    DotScale(Dot(c, c), a, f);
    Distribute2(Dot(c, c), Dot(b, f), Dot(a, f));
    ZeroTimes(Dot(d, c), Dot(c, f));
  }

  lemma Distribute2(q: real, x: real, y: real)
    ensures q * (x - y) == q * x - q * y
  {
  }

  lemma ZeroTimes(x: real, y: real)
    requires x == 0.0
    ensures x * y == 0.0
  {
  }

  lemma EdgeProjects(n: Vec, mu: real)
    ensures Dot(n, Edge(n, mu)) == Dot(n, n)
  {
    assert n.x * (n.x + mu * -n.y) == n.x * n.x - mu * (n.x * n.y);
    assert n.y * (n.y + mu * n.x) == n.y * n.y + mu * (n.x * n.y);
  }

  /** Both normals lean the same way along the chord: one functional is positive on every edge. */
  lemma SameSideBlocks(k: Contacts, mu: real)
    requires WellPosed(k) && Spans(k, mu)
    requires Dot(k.n0, Chord(k)) != 0.0 && Dot(k.n1, Chord(k)) != 0.0
    ensures (Dot(k.n0, Chord(k)) > 0.0) != (Dot(k.n1, Chord(k)) > 0.0)
  {
    var c, e := Chord(k), ConeEdges(k, mu);
    var u0, u1 := Abs(Dot(k.n0, c)), Abs(Dot(k.n1, c));
    if (Dot(k.n0, c) > 0.0) == (Dot(k.n1, c) > 0.0) {
      var a, b := Scale(u1, k.n0), Scale(u0, k.n1);
      DotScale(u1, k.n0, c);
      DotScale(u0, k.n1, c);
      SameProduct(Dot(k.n0, c), Dot(k.n1, c));
      assert c == Vec(c.x, c.y) && c != ZERO by { ChordNonzero(k); }
      NonzeroSquare(c);
      NonzeroSquare(k.n0);
      NonzeroSquare(k.n1);
      EdgeProjects(k.n0, mu);
      EdgeProjects(k.n0, -mu);
      EdgeProjects(k.n1, mu);
      EdgeProjects(k.n1, -mu);
      var q := Dot(c, c);
      ScaledEdge(u1, k.n0, e.e0);
      ScaledEdge(u1, k.n0, e.f0);
      ScaledEdge(u0, k.n1, e.e1);
      ScaledEdge(u0, k.n1, e.f1);
      SupportFromDuals(k, e, a, b);
    }
  }

  lemma ChordNonzero(k: Contacts)
    requires k.p0 != k.p1
    ensures Chord(k) != ZERO
  {
    assert k.p0 == Vec(k.p0.x, k.p0.y) && k.p1 == Vec(k.p1.x, k.p1.y);
  }

  lemma SameProduct(x: real, y: real)
    requires (x > 0.0) == (y > 0.0) && x != 0.0 && y != 0.0
    ensures Abs(y) * x == Abs(x) * y
  {
  }

  lemma ScaledEdge(u: real, n: Vec, e: Vec)
    requires u > 0.0 && Dot(n, e) > 0.0
    ensures Dot(Scale(u, n), e) > 0.0
  {
    DotScale(u, n, e);
    var p := Product(u, Dot(n, e));
  }

  lemma SupportFromDuals(k: Contacts, e: Edges, a: Vec, b: Vec)
    requires Chord(k) != ZERO && Dot(a, Chord(k)) == Dot(b, Chord(k))
    requires Dot(a, e.e0) > 0.0 && Dot(a, e.f0) > 0.0 && Dot(b, e.e1) > 0.0 && Dot(b, e.f1) > 0.0
    ensures !PositivelySpans(k, e)
  {
    var c := Chord(k);
    var q := Dot(c, c);
    NonzeroSquare(c);
    var m, kappa := Scale(q, a), Dot(Sub(b, a), Tangent(c));
    ContactPart(m, kappa, k.p0, q, a, e.e0);
    ContactPart(m, kappa, k.p0, q, a, e.f0);
    DualShift(c, a, b, e.e1);
    DualShift(c, a, b, e.f1);
    var p := Product(q, Dot(b, e.e1));
    var r := Product(q, Dot(b, e.f1));
    assert Supports(k, e, k.p0, m, kappa);
    var target := Wrench(Scale(-1.0, m), -Cross(k.p0, m));
    assert m != ZERO by { NotOrthogonal(m, q, a, e.e0); }
    NonzeroSquare(m);
    TargetNegative(k.p0, m, kappa);
    if PositivelySpans(k, e) {
      NoSupport(k, e, k.p0, m, kappa, target);
    }
  }

  lemma ContactPart(m: Vec, kappa: real, p: Vec, q: real, a: Vec, f: Vec)
    requires q > 0.0 && m == Scale(q, a) && Dot(a, f) > 0.0
    ensures Act(m, kappa, Sub(p, p), f) > 0.0
  {
    NoArm(p, f);
    ZeroTimes(Cross(Sub(p, p), f), kappa);
    ScaledEdge(q, a, f);
  }

  lemma NotOrthogonal(m: Vec, q: real, a: Vec, f: Vec)
    requires q > 0.0 && m == Scale(q, a) && Dot(a, f) > 0.0
    ensures m != ZERO
  {
    ScaledEdge(q, a, f);
  }

  lemma TargetNegative(p: Vec, m: Vec, kappa: real)
    requires Dot(m, m) > 0.0
    ensures Measure(p, m, kappa, Wrench(Scale(-1.0, m), -Cross(p, m))) < 0.0
  {
    var back := Scale(-1.0, m);
    CrossScale(p, -1.0, m);
    DotScale(-1.0, m, m);
    DotCommutes(m, back);
    NegativeMeasure(p, m, kappa, back);
  }

  lemma DotCommutes(a: Vec, b: Vec)
    ensures Dot(a, b) == Dot(b, a)
  {
  }

  lemma NegativeMeasure(p: Vec, m: Vec, kappa: real, back: Vec)
    requires Dot(m, back) == -1.0 * Dot(m, m) && Dot(m, m) > 0.0 && Cross(p, back) == -1.0 * Cross(p, m)
    ensures Measure(p, m, kappa, Wrench(back, -Cross(p, m))) < 0.0
  {
    NoTorqueLeft(p, m, kappa, Wrench(back, -Cross(p, m)));
  }

  lemma NoTorqueLeft(p: Vec, m: Vec, kappa: real, w: Wrench)
    requires w.torque == Cross(p, w.force)
    ensures Measure(p, m, kappa, w) == Dot(m, w.force)
  {
  }

  // ----- the threshold theorem

  /** The mirror image of facing: each normal strictly inside the cone around the outward chord direction. */
  predicate FacingAway(k: Contacts, mu: real) {
    Within(k.n0, Scale(-1.0, Chord(k)), mu) && Within(k.n1, Chord(k), mu)
  }

  function Negated(k: Contacts): Contacts {
    Contacts(k.p0, k.p1, Scale(-1.0, k.n0), Scale(-1.0, k.n1))
  }

  lemma EdgeOfNegated(n: Vec, mu: real)
    ensures Edge(Scale(-1.0, n), mu) == Scale(-1.0, Edge(n, mu))
  {
  }

  lemma BlendNegated(k: Contacts, e: Edges, w: Weights, target: Wrench)
    requires Blend(k, Edges(Scale(-1.0, e.e0), Scale(-1.0, e.f0), Scale(-1.0, e.e1), Scale(-1.0, e.f1)), w) == target
    ensures Blend(k, e, w) == Wrench(Scale(-1.0, target.force), -target.torque)
  {
    var f0, f1 := Sum2(w.a, e.e0, w.b, e.f0), Sum2(w.c, e.e1, w.d, e.f1);
    NegatedSum(w.a, e.e0, w.b, e.f0);
    NegatedSum(w.c, e.e1, w.d, e.f1);
    CrossScale(k.p0, -1.0, f0);
    CrossScale(k.p1, -1.0, f1);
  }

  lemma NegatedSum(a: real, e: Vec, b: real, f: Vec)
    ensures Sum2(a, Scale(-1.0, e), b, Scale(-1.0, f)) == Scale(-1.0, Sum2(a, e, b, f))
  {
  }

  /** Turning all normals around turns every producible wrench around. */
  lemma NegationKeepsSpan(k: Contacts, mu: real)
    requires Spans(Negated(k), mu)
    ensures Spans(k, mu)
  {
    var e := ConeEdges(k, mu);
    EdgeOfNegated(k.n0, mu);
    EdgeOfNegated(k.n0, -mu);
    EdgeOfNegated(k.n1, mu);
    EdgeOfNegated(k.n1, -mu);
    forall target: Wrench ensures Producible(k, e, target) {
      var opposite := Wrench(Scale(-1.0, target.force), -target.torque);
      assert Producible(Negated(k), ConeEdges(Negated(k), mu), opposite);
      var w :| Produces(Negated(k), ConeEdges(Negated(k), mu), w, opposite);
      BlendNegated(k, e, w, opposite);
      assert Scale(-1.0, opposite.force) == target.force;
      assert Produces(k, e, w, target);
    }
  }

  lemma WithinNegated(n: Vec, d: Vec, mu: real)
    ensures Within(Scale(-1.0, n), d, mu) <==> Within(n, Scale(-1.0, d), mu)
  {
    DotScale(-1.0, n, d);
    assert Cross(Scale(-1.0, n), d) == -Cross(n, d) && Cross(n, Scale(-1.0, d)) == -Cross(n, d);
    assert Dot(n, Scale(-1.0, d)) == -Dot(n, d);
  }

  lemma AwaySpans(k: Contacts, mu: real)
    requires WellPosed(k) && mu > 0.0 && FacingAway(k, mu)
    ensures Spans(k, mu)
  {
    var c := Chord(k);
    WithinNegated(k.n0, c, mu);
    WithinNegated(k.n1, Scale(-1.0, c), mu);
    TwiceNegated(c);
    TwiceNegated(k.n0);
    TwiceNegated(k.n1);
    assert WellPosed(Negated(k)) && Facing(Negated(k), mu);
    FacingSpans(Negated(k), mu);
    NegationKeepsSpan(k, mu);
  }

  lemma TwiceNegated(v: Vec)
    ensures Scale(-1.0, Scale(-1.0, v)) == v
    ensures v != ZERO ==> Scale(-1.0, v) != ZERO
  {
  }

  lemma WithinNeedsFriction(n: Vec, d: Vec, mu: real)
    requires Within(n, d, mu) && mu >= 0.0
    ensures mu > 0.0
  {
    if mu == 0.0 {
      ZeroTimes(mu, Dot(n, d));
    }
  }

  lemma SpansImplies(k: Contacts, mu: real)
    requires WellPosed(k) && mu >= 0.0 && Spans(k, mu)
    ensures Facing(k, mu) || FacingAway(k, mu)
  {
    EdgesStraddle(k, mu);
    SteepIsWithin(k.n0, Chord(k), mu);
    SteepIsWithin(k.n1, Chord(k), mu);
    SameSideBlocks(k, mu);
  }

  /** Exactly when two frictional contacts close: each normal inside the cone around its chord direction, or
      each inside the cone around the opposite direction. */
  lemma SpansExactly(k: Contacts, mu: real)
    requires WellPosed(k) && mu >= 0.0
    ensures Spans(k, mu) <==> Facing(k, mu) || FacingAway(k, mu)
  {
    if Facing(k, mu) {
      WithinNeedsFriction(k.n0, Chord(k), mu);
      FacingSpans(k, mu);
    }
    if FacingAway(k, mu) {
      WithinNeedsFriction(k.n1, Chord(k), mu);
      AwaySpans(k, mu);
    }
    if Spans(k, mu) {
      SpansImplies(k, mu);
    }
  }

  lemma SteepIsWithin(n: Vec, c: Vec, mu: real)
    requires Steep(n, c, mu) && mu >= 0.0
    ensures Dot(n, c) != 0.0
    ensures Dot(n, c) > 0.0 ==> Within(n, c, mu)
    ensures Dot(n, c) < 0.0 ==> Within(n, Scale(-1.0, c), mu)
  {
    assert Cross(n, Scale(-1.0, c)) == -Cross(n, c) && Dot(n, Scale(-1.0, c)) == -Dot(n, c);
  }

  /** The reported answer is force closure, for every friction coefficient, unless both normals point away
      from each other along the chord; the inequality at the threshold is strict on both sides. */
  lemma ClosureIsForceClosure(k: Contacts, mu: real)
    requires WellPosed(k) && mu >= 0.0
    ensures FrictionScore(k).Ok?
    ensures ClosureAtMu(FrictionScore(k).value, mu) == Ok(Spans(k, mu) && !BothAway(k))
  {
    ClosureIsFacing(k, mu);
    SpansExactly(k, mu);
    assert Dot(k.n0, Scale(-1.0, Chord(k))) == -Dot(k.n0, Chord(k));
    assert Dot(k.n1, Scale(-1.0, Chord(k))) == -Dot(k.n1, Chord(k));
  }

  /** The excepted case occurs: two contacts pulling apart close at mu 1 and are reported as never closing. */
  lemma PullingApartIsMissed(k: Contacts, mu: real)
    requires k == Contacts(Vec(0.0, 0.0), Vec(1.0, 0.0), Vec(-1.0, 0.0), Vec(1.0, 0.0)) && mu > 0.0
    ensures WellPosed(k) && Spans(k, mu) && FrictionScore(k) == Ok(Never)
  {
    PullingIsPosed(k);
    PullingFacesAway(k, Chord(k), Scale(-1.0, Chord(k)), mu);
    AwaySpans(k, mu);
    NeverWhenAway(k, Dot(k.n0, Chord(k)));
  }

  lemma NeverWhenAway(k: Contacts, d: real)
    requires WellPosed(k) && d == Dot(k.n0, Chord(k)) && d < 0.0
    ensures FrictionScore(k) == Ok(Never)
  {
  }

  lemma PullingIsPosed(k: Contacts)
    requires k == Contacts(Vec(0.0, 0.0), Vec(1.0, 0.0), Vec(-1.0, 0.0), Vec(1.0, 0.0))
    ensures WellPosed(k) && Chord(k) == Vec(1.0, 0.0) && Scale(-1.0, Chord(k)) == Vec(-1.0, 0.0)
    ensures Dot(k.n0, Chord(k)) == -1.0
  {
  }

  lemma PullingFacesAway(k: Contacts, c: Vec, back: Vec, mu: real)
    requires c == Chord(k) && back == Scale(-1.0, c) && mu > 0.0
    requires c == k.n1 == Vec(1.0, 0.0) && back == k.n0 == Vec(-1.0, 0.0)
    ensures FacingAway(k, mu)
  {
    AlongItself(k.n0, -1.0, mu);
    AlongItself(k.n1, 1.0, mu);
  }

  lemma AlongItself(n: Vec, x: real, mu: real)
    requires n == Vec(x, 0.0) && (x == 1.0 || x == -1.0) && mu > 0.0
    ensures Within(n, n, mu)
  {
    WithinBySigns(n, n, mu, Dot(n, n), Cross(n, n));
  }

  lemma WithinBySigns(n: Vec, c: Vec, mu: real, d: real, x: real)
    requires d == Dot(n, c) && x == Cross(n, c) && d == 1.0 && x == 0.0 && mu > 0.0
    ensures Within(n, c, mu)
  {
    assert mu * d == mu;
  }
}
