/** Proper rotations and the rotation about an axis (Rodrigues). */
module Rotations {
  import opened Spatial
  import opened Trigonometry
  import opened Roots

  const X_AXIS := Vec3(1.0, 0.0, 0.0)
  const Y_AXIS := Vec3(0.0, 1.0, 0.0)
  const Z_AXIS := Vec3(0.0, 0.0, 1.0)

  function Cross(u: Vec3, v: Vec3): Vec3 {
    Vec3(u.y * v.z - u.z * v.y, u.z * v.x - u.x * v.z, u.x * v.y - u.y * v.x)
  }

  /** Orthogonal with determinant one. */
  predicate Proper(m: Mat) { Orthogonal(m) && Dot(m.a, Cross(m.b, m.c)) == 1.0 }

  /** c I + k a a' + s [a]x. */
  function Blend(c: real, k: real, s: real, a: Vec3): Mat {
    Mat(Vec3(c + k * a.x * a.x, k * a.x * a.y - s * a.z, k * a.x * a.z + s * a.y),
        Vec3(k * a.y * a.x + s * a.z, c + k * a.y * a.y, k * a.y * a.z - s * a.x),
        Vec3(k * a.z * a.x - s * a.y, k * a.z * a.y + s * a.x, c + k * a.z * a.z))
  }

  /** Rotation about a unit axis (Rodrigues). */
  function AxisRotation(g: Trig, axis: Vec3, angle: real): Mat {
    Blend(g.cos(angle), 1.0 - g.cos(angle), g.sin(angle), axis)
  }

  // ----- cross products under proper rotations

  lemma Lagrange(u: Vec3, v: Vec3)
    ensures Dot(Cross(u, v), Cross(u, v)) == Dot(u, u) * Dot(v, v) - Dot(u, v) * Dot(u, v)
  {
  }

  lemma BinetCauchy(a: Vec3, b: Vec3, u: Vec3, v: Vec3)
    ensures Dot(Cross(a, b), Cross(u, v)) == Dot(a, u) * Dot(b, v) - Dot(a, v) * Dot(b, u)
  {
  }

  lemma CyclicTriple(a: Vec3, b: Vec3, c: Vec3)
    ensures Dot(a, Cross(b, c)) == Dot(b, Cross(c, a)) == Dot(c, Cross(a, b))
  {
    Triple(a, b, c);
    Triple(b, c, a);
    Triple(c, a, b);
  }

  lemma Triple(a: Vec3, b: Vec3, c: Vec3)
    ensures Dot(a, Cross(b, c)) == a.x * b.y * c.z - a.x * b.z * c.y + a.y * b.z * c.x - a.y * b.x * c.z
                                 + a.z * b.x * c.y - a.z * b.y * c.x
  {
    Minor(a.x, b.y, c.z, b.z, c.y);
    Minor(a.y, b.z, c.x, b.x, c.z);
    Minor(a.z, b.x, c.y, b.y, c.x);
  }

  lemma Minor(k: real, p: real, q: real, r: real, s: real)
    ensures k * (p * q - r * s) == k * p * q - k * r * s
  {
  }

  lemma AllZero(x: real, y: real, z: real)
    requires x >= 0.0 && y >= 0.0 && z >= 0.0 && x + y + z == 0.0
    ensures x == 0.0 && y == 0.0 && z == 0.0
  {
  }

  lemma ZeroLength(u: Vec3)
    requires Dot(u, u) == 0.0
    ensures u == ORIGIN
  {
    var d := Dot(u, u);
    SquaresVanish(u.x, u.y, u.z, d);
    Components(u);
  }

  lemma Components(u: Vec3)
    requires u.x == 0.0 && u.y == 0.0 && u.z == 0.0
    ensures u == ORIGIN
  {
    assert u == Vec3(u.x, u.y, u.z);
  }

  lemma SquaresVanish(x: real, y: real, z: real, d: real)
    requires d == x * x + y * y + z * z && d == 0.0
    ensures x == 0.0 && y == 0.0 && z == 0.0
  {
    var a := SquareSign(x);
    var b := SquareSign(y);
    var c := SquareSign(z);
    AllZero(a, b, c);
  }

  lemma SquaredDistance(a: Vec3, w: Vec3)
    ensures Dot(Sub(a, w), Sub(a, w)) == Dot(a, a) - 2.0 * Dot(a, w) + Dot(w, w)
  {
  }

  lemma UnitAndAligned(a: Vec3, w: Vec3)
    requires Dot(a, a) == 1.0 && Dot(a, w) == 1.0 && Dot(w, w) == 1.0
    ensures a == w
  {
    SquaredDistance(a, w);
    ZeroLength(Sub(a, w));
    SubZero(a, w);
  }

  lemma SubZero(a: Vec3, w: Vec3)
    requires Sub(a, w) == ORIGIN
    ensures a == w
  {
    assert a == Vec3(a.x, a.y, a.z) && w == Vec3(w.x, w.y, w.z);
  }

  /** In a right-handed orthonormal triple each vector is the cross product of the other two. */
  lemma RightHanded(a: Vec3, b: Vec3, c: Vec3)
    requires Dot(a, a) == 1.0 && Dot(b, b) == 1.0 && Dot(c, c) == 1.0 && Dot(b, c) == 0.0
    requires Dot(a, Cross(b, c)) == 1.0
    ensures Cross(b, c) == a
  {
    UnitCross(b, c, Dot(b, b), Dot(c, c), Dot(b, c));
    UnitAndAligned(a, Cross(b, c));
  }

  lemma UnitCross(b: Vec3, c: Vec3, bb: real, cc: real, bc: real)
    requires bb == Dot(b, b) == 1.0 && cc == Dot(c, c) == 1.0 && bc == Dot(b, c) == 0.0
    ensures Dot(Cross(b, c), Cross(b, c)) == 1.0
  {
    Lagrange(b, c);
    assert Dot(b, b) * Dot(c, c) == bb * cc && Dot(b, c) * Dot(b, c) == bc * bc;
  }

  lemma ProperRows(m: Mat)
    requires Proper(m)
    ensures Cross(m.b, m.c) == m.a && Cross(m.c, m.a) == m.b && Cross(m.a, m.b) == m.c
  {
    RowProducts(m);
    CyclicTriple(m.a, m.b, m.c);
    RightHanded(m.a, m.b, m.c);
    RightHanded(m.b, m.c, m.a);
    RightHanded(m.c, m.a, m.b);
  }

  lemma RowProducts(m: Mat)
    requires Mul(m, Transpose(m)) == IDENTITY
    ensures Dot(m.a, m.a) == 1.0 && Dot(m.b, m.b) == 1.0 && Dot(m.c, m.c) == 1.0
    ensures Dot(m.a, m.b) == 0.0 && Dot(m.b, m.c) == 0.0 && Dot(m.c, m.a) == 0.0
  {
    TransposeTwice(m);
    var mm := Mul(m, Transpose(m));
    assert mm.a == Apply(m, m.a) && mm.b == Apply(m, m.b) && mm.c == Apply(m, m.c);
  }

  /** A proper rotation turns cross products along. */
  lemma CrossTurns(m: Mat, u: Vec3, v: Vec3)
    requires Proper(m)
    ensures Apply(m, Cross(u, v)) == Cross(Apply(m, u), Apply(m, v))
  {
    ProperRows(m);
    BinetCauchy(m.b, m.c, u, v);
    BinetCauchy(m.c, m.a, u, v);
    BinetCauchy(m.a, m.b, u, v);
  }

  lemma ProperTranspose(m: Mat)
    requires Proper(m)
    ensures Proper(Transpose(m))
  {
    TransposeOrthogonal(m);
    SameDeterminant(m);
  }

  lemma ProperIdentity() returns (r: Mat)
    ensures r == IDENTITY && Proper(r)
  {
    r := IDENTITY;
    TransposedIdentity();
    MulIdentity(IDENTITY);
    AxesAreRightHanded();
  }

  lemma TransposedIdentity()
    ensures Transpose(IDENTITY) == IDENTITY
  {
  }

  lemma AxesAreRightHanded()
    ensures Dot(X_AXIS, Cross(Y_AXIS, Z_AXIS)) == 1.0
    ensures IDENTITY == Mat(X_AXIS, Y_AXIS, Z_AXIS)
  {
  }

  lemma SameDeterminant(m: Mat)
    ensures var t := Transpose(m); Dot(t.a, Cross(t.b, t.c)) == Dot(m.a, Cross(m.b, m.c))
  {
  }

  lemma ProperProduct(m: Mat, n: Mat)
    requires Proper(m) && Proper(n)
    ensures Proper(Mul(m, n))
  {
    ProductOrthogonal(m, n);
    ProperRows(m);
    ProperTranspose(n);
    CrossTurns(Transpose(n), m.b, m.c);
    RowProducts(Mul(m, n));
  }

  // ----- rotations about turned axes

  function MatAdd(m: Mat, n: Mat): Mat { Mat(Add(m.a, n.a), Add(m.b, n.b), Add(m.c, n.c)) }

  function MatScale(k: real, m: Mat): Mat { Mat(Scale(k, m.a), Scale(k, m.b), Scale(k, m.c)) }

  /** a a' */
  function Outer(a: Vec3): Mat { Mat(Scale(a.x, a), Scale(a.y, a), Scale(a.z, a)) }

  /** [a]x */
  function Skew(a: Vec3): Mat {
    Mat(Vec3(0.0, -a.z, a.y), Vec3(a.z, 0.0, -a.x), Vec3(-a.y, a.x, 0.0))
  }

  lemma BlendIsSum(c: real, k: real, s: real, a: Vec3)
    ensures Blend(c, k, s, a) ==
            MatAdd(MatAdd(MatScale(c, IDENTITY), MatScale(k, Outer(a))), MatScale(s, Skew(a)))
  {
    ScaledIdentity(c);
    ScaledOuter(k, a);
    ScaledSkew(s, a);
    FirstRow(c, k, s, a);
    SecondRow(c, k, s, a);
    ThirdRow(c, k, s, a);
  }

  lemma FirstRow(c: real, k: real, s: real, a: Vec3)
    ensures Blend(c, k, s, a).a == Add(Add(Vec3(c, 0.0, 0.0), Vec3(k * a.x * a.x, k * a.x * a.y, k * a.x * a.z)),
                                       Vec3(0.0, -(s * a.z), s * a.y))
  {
  }

  lemma SecondRow(c: real, k: real, s: real, a: Vec3)
    ensures Blend(c, k, s, a).b == Add(Add(Vec3(0.0, c, 0.0), Vec3(k * a.y * a.x, k * a.y * a.y, k * a.y * a.z)),
                                       Vec3(s * a.z, 0.0, -(s * a.x)))
  {
  }

  lemma ThirdRow(c: real, k: real, s: real, a: Vec3)
    ensures Blend(c, k, s, a).c == Add(Add(Vec3(0.0, 0.0, c), Vec3(k * a.z * a.x, k * a.z * a.y, k * a.z * a.z)),
                                       Vec3(-(s * a.y), s * a.x, 0.0))
  {
  }

  lemma ScaledIdentity(c: real)
    ensures MatScale(c, IDENTITY) == Mat(Vec3(c, 0.0, 0.0), Vec3(0.0, c, 0.0), Vec3(0.0, 0.0, c))
  {
  }

  lemma ScaledOuter(k: real, a: Vec3)
    ensures MatScale(k, Outer(a)) == Mat(Vec3(k * a.x * a.x, k * a.x * a.y, k * a.x * a.z),
                                         Vec3(k * a.y * a.x, k * a.y * a.y, k * a.y * a.z),
                                         Vec3(k * a.z * a.x, k * a.z * a.y, k * a.z * a.z))
  {
    Regroup(k, a.x, a);
    Regroup(k, a.y, a);
    Regroup(k, a.z, a);
  }

  lemma ScaledSkew(s: real, a: Vec3)
    ensures MatScale(s, Skew(a)) == Mat(Vec3(0.0, -(s * a.z), s * a.y), Vec3(s * a.z, 0.0, -(s * a.x)),
                                        Vec3(-(s * a.y), s * a.x, 0.0))
  {
  }

  lemma Regroup(k: real, x: real, a: Vec3)
    ensures Scale(k, Scale(x, a)) == Vec3(k * x * a.x, k * x * a.y, k * x * a.z)
  {
  }

  lemma DotAdd(u: Vec3, w: Vec3, v: Vec3)
    ensures Dot(Add(u, w), v) == Dot(u, v) + Dot(w, v) == Dot(v, Add(u, w))
  {
  }

  lemma DotScale(k: real, u: Vec3, v: Vec3)
    ensures Dot(Scale(k, u), v) == k * Dot(u, v) == Dot(v, Scale(k, u))
  {
  }

  lemma SumAction(m: Mat, n: Mat, v: Vec3)
    ensures Apply(MatAdd(m, n), v) == Add(Apply(m, v), Apply(n, v))
  {
    DotAdd(m.a, n.a, v);
    DotAdd(m.b, n.b, v);
    DotAdd(m.c, n.c, v);
  }

  lemma RowTimesScale(k: real, a: Vec3, v: Vec3, x: real, y: real)
    requires x == Dot(a, v) && y == Dot(Scale(k, a), v)
    ensures y == k * x
  {
    DotScale(k, a, v);
  }

  /** A vector by its components. */
  lemma IsScale(u: Vec3, d: real, a: Vec3)
    requires u.x == d * a.x && u.y == d * a.y && u.z == d * a.z
    ensures u == Scale(d, a)
  {
    assert u == Vec3(u.x, u.y, u.z);
  }

  lemma ScaledAction(k: real, m: Mat, v: Vec3)
    ensures Apply(MatScale(k, m), v) == Scale(k, Apply(m, v))
  {
    var u, w := Apply(MatScale(k, m), v), Apply(m, v);
    RowTimesScale(k, m.a, v, w.x, u.x);
    RowTimesScale(k, m.b, v, w.y, u.y);
    RowTimesScale(k, m.c, v, w.z, u.z);
    IsScale(u, k, w);
  }

  lemma OuterAction(a: Vec3, v: Vec3)
    ensures Apply(Outer(a), v) == Scale(Dot(a, v), a)
  {
    var u, d := Apply(Outer(a), v), Dot(a, v);
    RowTimesScale(a.x, a, v, d, u.x);
    RowTimesScale(a.y, a, v, d, u.y);
    RowTimesScale(a.z, a, v, d, u.z);
    IsScale(u, d, a);
  }

  lemma SkewAction(a: Vec3, v: Vec3)
    ensures Apply(Skew(a), v) == Cross(a, v)
  {
  }

  /** c v + k (a.v) a + s (a x v). */
  function Swung(c: real, k: real, s: real, a: Vec3, v: Vec3): Vec3 {
    Add(Add(Scale(c, v), Scale(k, Scale(Dot(a, v), a))), Scale(s, Cross(a, v)))
  }

  lemma BlendAction(c: real, k: real, s: real, a: Vec3, v: Vec3)
    ensures Apply(Blend(c, k, s, a), v) == Swung(c, k, s, a, v)
  {
    var turn, along, across := MatScale(c, IDENTITY), MatScale(k, Outer(a)), MatScale(s, Skew(a));
    BlendIsSum(c, k, s, a);
    SumAction(MatAdd(turn, along), across, v);
    SumAction(turn, along, v);
    ScaledAction(c, IDENTITY, v);
    ApplyIdentity(v);
    ScaledAction(k, Outer(a), v);
    OuterAction(a, v);
    ScaledAction(s, Skew(a), v);
    SkewAction(a, v);
  }

  /** Rodrigues' formula. */
  lemma Rodrigues(g: Trig, axis: Vec3, angle: real, v: Vec3)
    ensures Apply(AxisRotation(g, axis, angle), v)
         == Swung(g.cos(angle), 1.0 - g.cos(angle), g.sin(angle), axis, v)
  {
    BlendAction(g.cos(angle), 1.0 - g.cos(angle), g.sin(angle), axis, v);
  }

  lemma ApplyAdd(m: Mat, u: Vec3, w: Vec3)
    ensures Apply(m, Add(u, w)) == Add(Apply(m, u), Apply(m, w))
  {
    DotAdd(u, w, m.a);
    DotAdd(u, w, m.b);
    DotAdd(u, w, m.c);
  }

  lemma ApplyScale(m: Mat, k: real, u: Vec3)
    ensures Apply(m, Scale(k, u)) == Scale(k, Apply(m, u))
  {
    DotScale(k, u, m.a);
    DotScale(k, u, m.b);
    DotScale(k, u, m.c);
  }

  /** A proper rotation keeps inner and cross products, so it turns the whole combination. */
  lemma TurnSwung(m: Mat, c: real, k: real, s: real, a: Vec3, u: Vec3)
    requires Proper(m) && Dot(Apply(m, a), Apply(m, u)) == Dot(a, u)
    ensures Apply(m, Swung(c, k, s, a, u)) == Swung(c, k, s, Apply(m, a), Apply(m, u))
  {
    var d := Dot(a, u);
    ApplyAdd(m, Add(Scale(c, u), Scale(k, Scale(d, a))), Scale(s, Cross(a, u)));
    ApplyAdd(m, Scale(c, u), Scale(k, Scale(d, a)));
    ApplyScale(m, c, u);
    ApplyScale(m, k, Scale(d, a));
    ApplyScale(m, d, a);
    ApplyScale(m, s, Cross(a, u));
    CrossTurns(m, a, u);
  }

  lemma ProductsKept(m: Mat, a: Vec3, u: Vec3)
    requires Orthogonal(m)
    ensures Dot(Apply(m, a), Apply(m, u)) == Dot(a, u)
  {
    RowApply(Apply(m, u), m, a);
    Undo(m, u);
  }

  /** The same matrix does the same to the three axes. */
  lemma SameAction(m: Mat, n: Mat)
    requires Apply(m, X_AXIS) == Apply(n, X_AXIS) && Apply(m, Y_AXIS) == Apply(n, Y_AXIS)
    requires Apply(m, Z_AXIS) == Apply(n, Z_AXIS)
    ensures m == n
  {
    assert m == Mat(Vec3(m.a.x, m.a.y, m.a.z), Vec3(m.b.x, m.b.y, m.b.z), Vec3(m.c.x, m.c.y, m.c.z));
    assert n == Mat(Vec3(n.a.x, n.a.y, n.a.z), Vec3(n.b.x, n.b.y, n.b.z), Vec3(n.c.x, n.c.y, n.c.z));
  }

  lemma ConjugateAt(g: Trig, m: Mat, axis: Vec3, angle: real, v: Vec3)
    requires Proper(m)
    ensures Apply(Mul(Mul(m, AxisRotation(g, axis, angle)), Transpose(m)), v)
         == Apply(AxisRotation(g, Apply(m, axis), angle), v)
  {
    var u := Apply(Transpose(m), v);
    ApplyMul(Mul(m, AxisRotation(g, axis, angle)), Transpose(m), v);
    ApplyMul(m, AxisRotation(g, axis, angle), u);
    Rodrigues(g, axis, angle, u);
    ProductsKept(m, axis, u);
    TurnSwung(m, g.cos(angle), 1.0 - g.cos(angle), g.sin(angle), axis, u);
    Undo(m, v);
    Rodrigues(g, Apply(m, axis), angle, v);
  }

  /** Turning the axis of a rotation by a proper rotation conjugates it. */
  lemma Conjugate(g: Trig, m: Mat, axis: Vec3, angle: real)
    requires Proper(m)
    ensures AxisRotation(g, Apply(m, axis), angle) == Mul(Mul(m, AxisRotation(g, axis, angle)), Transpose(m))
  {
    ConjugateAt(g, m, axis, angle, X_AXIS);
    ConjugateAt(g, m, axis, angle, Y_AXIS);
    ConjugateAt(g, m, axis, angle, Z_AXIS);
    SameAction(Mul(Mul(m, AxisRotation(g, axis, angle)), Transpose(m)), AxisRotation(g, Apply(m, axis), angle));
  }

  // ----- rotations are rigid

  lemma CrossParts(a: Vec3, v: Vec3, w: Vec3)
    requires w == Cross(a, v)
    ensures w.x == a.y * v.z - a.z * v.y && w.y == a.z * v.x - a.x * v.z && w.z == a.x * v.y - a.y * v.x
  {
  }

  lemma DotParts(a: Vec3, v: Vec3, d: real)
    requires d == Dot(a, v)
    ensures d == a.x * v.x + a.y * v.y + a.z * v.z
  {
  }

  lemma CrossTwice(a: Vec3, v: Vec3, n: real, d: real)
    requires n == Dot(a, a) && n == 1.0 && d == Dot(a, v)
    ensures Cross(a, Cross(a, v)) == Sub(Scale(d, a), v)
  {
    var w := Cross(a, v);
    var u := Cross(a, w);
    CrossParts(a, v, w);
    CrossParts(a, w, u);
    DotParts(a, a, n);
    DotParts(a, v, d);
    DoubleCrossParts(a, v, n, d, w, u);
    IsDifference(u, d, a, v);
  }

  lemma DoubleCrossParts(a: Vec3, v: Vec3, n: real, d: real, w: Vec3, u: Vec3)
    requires n == a.x * a.x + a.y * a.y + a.z * a.z && n == 1.0 && d == a.x * v.x + a.y * v.y + a.z * v.z
    requires w.x == a.y * v.z - a.z * v.y && w.y == a.z * v.x - a.x * v.z && w.z == a.x * v.y - a.y * v.x
    requires u.x == a.y * w.z - a.z * w.y && u.y == a.z * w.x - a.x * w.z && u.z == a.x * w.y - a.y * w.x
    ensures u.x == d * a.x - v.x && u.y == d * a.y - v.y && u.z == d * a.z - v.z
  {
    var x, y, z := a.x, a.y, a.z;
    var p, q, r := v.x, v.y, v.z;
    var f, g, h := w.x, w.y, w.z;
    var i, j, k := u.x, u.y, u.z;
    DoubleCrosses(x, y, z, p, q, r, n, d, f, g, h, i, j, k);
  }

  lemma DoubleCrosses(x: real, y: real, z: real, p: real, q: real, r: real, n: real, d: real,
                      f: real, g: real, h: real, i: real, j: real, k: real)
    requires n == x * x + y * y + z * z && n == 1.0 && d == x * p + y * q + z * r
    requires f == y * r - z * q && g == z * p - x * r && h == x * q - y * p
    requires i == y * h - z * g && j == z * f - x * h && k == x * g - y * f
    ensures i == d * x - p && j == d * y - q && k == d * z - r
  {
    DoubleCross(x, y, z, p, q, r, n, d, g, h, i);
    Rotated(x, y, z, p, q, r, n, d);
    DoubleCross(y, z, x, q, r, p, n, d, h, f, j);
    Rotated(y, z, x, q, r, p, n, d);
    DoubleCross(z, x, y, r, p, q, n, d, f, g, k);
  }

  lemma Rotated(x: real, y: real, z: real, p: real, q: real, r: real, n: real, d: real)
    requires n == x * x + y * y + z * z && d == x * p + y * q + z * r
    ensures n == y * y + z * z + x * x && d == y * q + z * r + x * p
  {
  }

  lemma DoubleCross(x: real, y: real, z: real, p: real, q: real, r: real, n: real, d: real, f: real, h: real, u: real)
    requires n == x * x + y * y + z * z && n == 1.0 && d == x * p + y * q + z * r
    requires f == z * p - x * r && h == x * q - y * p && u == y * h - z * f
    ensures u == d * x - p
  {
    assert u == d * x - n * p;
  }

  lemma IsDifference(u: Vec3, d: real, a: Vec3, v: Vec3)
    requires u.x == d * a.x - v.x && u.y == d * a.y - v.y && u.z == d * a.z - v.z
    ensures u == Sub(Scale(d, a), v)
  {
    assert u == Vec3(u.x, u.y, u.z);
  }

  lemma SwungParts(c: real, k: real, s: real, a: Vec3, v: Vec3, d: real, x: Vec3, w: Vec3)
    requires d == Dot(a, v) && x == Cross(a, v) && w == Swung(c, k, s, a, v)
    ensures w.x == c * v.x + k * (d * a.x) + s * x.x
    ensures w.y == c * v.y + k * (d * a.y) + s * x.y
    ensures w.z == c * v.z + k * (d * a.z) + s * x.z
  {
  }

  /** A turn there and back. */
  lemma SwingBack(c: real, s: real, a: Vec3, v: Vec3)
    requires Dot(a, a) == 1.0 && c * c + s * s == 1.0
    ensures Swung(c, 1.0 - c, -s, a, Swung(c, 1.0 - c, s, a, v)) == v
  {
    var k, n, d, x := 1.0 - c, -s, Dot(a, v), Cross(a, v);
    var w := Swung(c, k, s, a, v);
    var y, u := Cross(a, w), Swung(c, k, n, a, w);
    AlongAxis(c, k, s, a, v);
    AcrossAxis(c, k, s, a, v);
    SwungParts(c, k, s, a, v, d, x, w);
    SwungParts(c, k, n, a, w, d, y, u);
    BackParts(c, k, s, n, d, a, v, x, w, y, u);
    assert u == Vec3(u.x, u.y, u.z) && v == Vec3(v.x, v.y, v.z);
  }

  lemma BackParts(c: real, k: real, s: real, n: real, d: real, a: Vec3, v: Vec3, x: Vec3, w: Vec3, y: Vec3, u: Vec3)
    requires c * c + s * s == 1.0 && k == 1.0 - c && n == -s
    requires w.x == c * v.x + k * (d * a.x) + s * x.x && w.y == c * v.y + k * (d * a.y) + s * x.y
    requires w.z == c * v.z + k * (d * a.z) + s * x.z
    requires y == Add(Scale(c, x), Scale(s, Sub(Scale(d, a), v)))
    requires u.x == c * w.x + k * (d * a.x) + n * y.x && u.y == c * w.y + k * (d * a.y) + n * y.y
    requires u.z == c * w.z + k * (d * a.z) + n * y.z
    ensures u.x == v.x && u.y == v.y && u.z == v.z
  {
    AcrossParts(c, s, d, a, v, x, y);
    BackEach(c, k, s, n, d, a, v, x, w, y, u);
  }

  lemma BackEach(c: real, k: real, s: real, n: real, d: real, a: Vec3, v: Vec3, x: Vec3, w: Vec3, y: Vec3, u: Vec3)
    requires c * c + s * s == 1.0 && k == 1.0 - c && n == -s
    requires w.x == c * v.x + k * (d * a.x) + s * x.x && w.y == c * v.y + k * (d * a.y) + s * x.y
    requires w.z == c * v.z + k * (d * a.z) + s * x.z
    requires y.x == c * x.x + s * (d * a.x - v.x) && y.y == c * x.y + s * (d * a.y - v.y)
    requires y.z == c * x.z + s * (d * a.z - v.z)
    requires u.x == c * w.x + k * (d * a.x) + n * y.x && u.y == c * w.y + k * (d * a.y) + n * y.y
    requires u.z == c * w.z + k * (d * a.z) + n * y.z
    ensures u.x == v.x && u.y == v.y && u.z == v.z
  {
    BackAgain(c, k, s, n, d, a.x, v.x, x.x, w.x, y.x, u.x);
    BackAgain(c, k, s, n, d, a.y, v.y, x.y, w.y, y.y, u.y);
    BackAgain(c, k, s, n, d, a.z, v.z, x.z, w.z, y.z, u.z);
  }

  lemma AcrossParts(c: real, s: real, d: real, a: Vec3, v: Vec3, x: Vec3, y: Vec3)
    requires y == Add(Scale(c, x), Scale(s, Sub(Scale(d, a), v)))
    ensures y.x == c * x.x + s * (d * a.x - v.x)
    ensures y.y == c * x.y + s * (d * a.y - v.y)
    ensures y.z == c * x.z + s * (d * a.z - v.z)
  {
  }

  lemma BackAgain(c: real, k: real, s: real, n: real, d: real, a: real, v: real, x: real, w: real, y: real, u: real)
    requires c * c + s * s == 1.0 && k == 1.0 - c && n == -s
    requires w == c * v + k * (d * a) + s * x && y == c * x + s * (d * a - v) && u == c * w + k * (d * a) + n * y
    ensures u == v
  {
    var e := d * a;
    assert u == (c * c + s * s) * v + (c * k + k - s * s) * e;
    assert c * k + k - s * s == 0.0;
  }

  lemma CrossAdd(a: Vec3, u: Vec3, v: Vec3)
    ensures Cross(a, Add(u, v)) == Add(Cross(a, u), Cross(a, v))
  {
  }

  lemma CrossScale(a: Vec3, k: real, v: Vec3)
    ensures Cross(a, Scale(k, v)) == Scale(k, Cross(a, v))
  {
    var w, s := Cross(a, v), Scale(k, v);
    var u := Cross(a, s);
    CrossParts(a, v, w);
    CrossParts(a, s, u);
    ScaledMinor(k, a.y, a.z, v.y, v.z, s.y, s.z, w.x, u.x);
    ScaledMinor(k, a.z, a.x, v.z, v.x, s.z, s.x, w.y, u.y);
    ScaledMinor(k, a.x, a.y, v.x, v.y, s.x, s.y, w.z, u.z);
    IsScale(u, k, w);
  }

  lemma ScaledMinor(k: real, p: real, q: real, r: real, s: real, x: real, y: real, w: real, u: real)
    requires x == k * r && y == k * s && w == p * s - q * r && u == p * y - q * x
    ensures u == k * w
  {
  }

  lemma CrossItself(a: Vec3, v: Vec3)
    ensures Cross(a, a) == ORIGIN && Dot(a, Cross(a, v)) == 0.0
  {
  }

  lemma AlongAxis(c: real, k: real, s: real, a: Vec3, v: Vec3)
    requires Dot(a, a) == 1.0 && k == 1.0 - c
    ensures Dot(a, Swung(c, k, s, a, v)) == Dot(a, v)
  {
    var d := Dot(a, v);
    DotAdd(Add(Scale(c, v), Scale(k, Scale(d, a))), Scale(s, Cross(a, v)), a);
    DotAdd(Scale(c, v), Scale(k, Scale(d, a)), a);
    DotScale(c, v, a);
    DotScale(k, Scale(d, a), a);
    DotScale(d, a, a);
    DotScale(s, Cross(a, v), a);
    CrossItself(a, v);
    AlongSum(c, k, s, d, Dot(a, a), Dot(a, Cross(a, v)), Dot(Swung(c, k, s, a, v), a));
  }

  lemma AlongSum(c: real, k: real, s: real, d: real, n: real, z: real, sum: real)
    requires n == 1.0 && z == 0.0 && k == 1.0 - c && sum == c * d + k * (d * n) + s * z
    ensures sum == d
  {
    assert d * n == d && s * z == 0.0;
    assert c * d + k * d == (c + k) * d;
  }

  lemma AcrossAxis(c: real, k: real, s: real, a: Vec3, v: Vec3)
    requires Dot(a, a) == 1.0
    ensures Cross(a, Swung(c, k, s, a, v)) == Add(Scale(c, Cross(a, v)), Scale(s, Sub(Scale(Dot(a, v), a), v)))
  {
    var d := Dot(a, v);
    CrossAdd(a, Add(Scale(c, v), Scale(k, Scale(d, a))), Scale(s, Cross(a, v)));
    CrossAdd(a, Scale(c, v), Scale(k, Scale(d, a)));
    CrossScale(a, c, v);
    CrossScale(a, k, Scale(d, a));
    CrossScale(a, d, a);
    CrossScale(a, s, Cross(a, v));
    CrossItself(a, v);
    CrossTwice(a, v, Dot(a, a), d);
  }

  lemma BlendTransposes(c: real, k: real, s: real, a: Vec3)
    ensures Transpose(Blend(c, k, s, a)) == Blend(c, k, -s, a)
  {
  }

  lemma BlendInverts(c: real, s: real, a: Vec3)
    requires Dot(a, a) == 1.0 && c * c + s * s == 1.0
    ensures Mul(Blend(c, 1.0 - c, -s, a), Blend(c, 1.0 - c, s, a)) == IDENTITY
  {
    var m := Mul(Blend(c, 1.0 - c, -s, a), Blend(c, 1.0 - c, s, a));
    InvertsAt(c, s, a, X_AXIS);
    InvertsAt(c, s, a, Y_AXIS);
    InvertsAt(c, s, a, Z_AXIS);
    ApplyIdentity(X_AXIS);
    ApplyIdentity(Y_AXIS);
    ApplyIdentity(Z_AXIS);
    SameAction(m, IDENTITY);
  }

  lemma InvertsAt(c: real, s: real, a: Vec3, v: Vec3)
    requires Dot(a, a) == 1.0 && c * c + s * s == 1.0
    ensures Apply(Mul(Blend(c, 1.0 - c, -s, a), Blend(c, 1.0 - c, s, a)), v) == v
  {
    ApplyMul(Blend(c, 1.0 - c, -s, a), Blend(c, 1.0 - c, s, a), v);
    BlendAction(c, 1.0 - c, s, a, v);
    BlendAction(c, 1.0 - c, -s, a, Swung(c, 1.0 - c, s, a, v));
    SwingBack(c, s, a, v);
  }

  /** A rotation about a unit axis is rigid. */
  lemma RotationTurns(g: Trig, axis: Vec3, angle: real)
    requires IsTrig(g) && Dot(axis, axis) == 1.0
    ensures Orthogonal(AxisRotation(g, axis, angle))
  {
    var c, s := g.cos(angle), g.sin(angle);
    assert UnitLaw(g, angle);
    BlendTransposes(c, 1.0 - c, s, axis);
    BlendInverts(c, s, axis);
    BlendInverts(c, -s, axis);
  }
}
