/** Exact three-dimensional vectors, matrices and rigid poses. */
module Spatial {

  datatype Vec3 = Vec3(x: real, y: real, z: real)

  /** A matrix by its rows. */
  datatype Mat = Mat(a: Vec3, b: Vec3, c: Vec3)

  datatype Pose = Pose(p: Vec3, r: Mat)

  const ORIGIN := Vec3(0.0, 0.0, 0.0)
  const IDENTITY := Mat(Vec3(1.0, 0.0, 0.0), Vec3(0.0, 1.0, 0.0), Vec3(0.0, 0.0, 1.0))

  function Add(u: Vec3, v: Vec3): Vec3 { Vec3(u.x + v.x, u.y + v.y, u.z + v.z) }

  function Sub(u: Vec3, v: Vec3): Vec3 { Vec3(u.x - v.x, u.y - v.y, u.z - v.z) }

  function Scale(k: real, v: Vec3): Vec3 { Vec3(k * v.x, k * v.y, k * v.z) }

  function Dot(u: Vec3, v: Vec3): real { u.x * v.x + u.y * v.y + u.z * v.z }

  function Apply(m: Mat, v: Vec3): Vec3 { Vec3(Dot(m.a, v), Dot(m.b, v), Dot(m.c, v)) }

  function Transpose(m: Mat): Mat {
    Mat(Vec3(m.a.x, m.b.x, m.c.x), Vec3(m.a.y, m.b.y, m.c.y), Vec3(m.a.z, m.b.z, m.c.z))
  }

  /** The row vector u times m. */
  function RowTimes(u: Vec3, m: Mat): Vec3 { Apply(Transpose(m), u) }

  function Mul(m: Mat, n: Mat): Mat { Mat(RowTimes(m.a, n), RowTimes(m.b, n), RowTimes(m.c, n)) }

  /** A point given in the posed frame, seen from the frame the pose is given in. */
  function Place(t: Pose, v: Vec3): Vec3 { Add(t.p, Apply(t.r, v)) }

  function Compose(t: Pose, u: Pose): Pose { Pose(Place(t, u.p), Mul(t.r, u.r)) }

  predicate Orthogonal(m: Mat) {
    Mul(m, Transpose(m)) == IDENTITY && Mul(Transpose(m), m) == IDENTITY
  }

  lemma RowAssociative(u: Vec3, m: Mat, n: Mat)
    ensures RowTimes(RowTimes(u, m), n) == RowTimes(u, Mul(m, n))
  {
    Interchange(u, m, n.a.x, n.b.x, n.c.x);
    Interchange(u, m, n.a.y, n.b.y, n.c.y);
    Interchange(u, m, n.a.z, n.b.z, n.c.z);
  }

  /** Summing over the inner index first or last. */
  lemma Interchange(u: Vec3, m: Mat, x: real, y: real, z: real)
    ensures (m.a.x * u.x + m.b.x * u.y + m.c.x * u.z) * x + (m.a.y * u.x + m.b.y * u.y + m.c.y * u.z) * y
              + (m.a.z * u.x + m.b.z * u.y + m.c.z * u.z) * z
         == (x * m.a.x + y * m.a.y + z * m.a.z) * u.x + (x * m.b.x + y * m.b.y + z * m.b.z) * u.y
              + (x * m.c.x + y * m.c.y + z * m.c.z) * u.z
  {
  }

  lemma MulAssociative(k: Mat, m: Mat, n: Mat)
    ensures Mul(Mul(k, m), n) == Mul(k, Mul(m, n))
  {
    RowAssociative(k.a, m, n);
    RowAssociative(k.b, m, n);
    RowAssociative(k.c, m, n);
  }

  lemma MulIdentity(m: Mat)
    ensures Mul(m, IDENTITY) == m && Mul(IDENTITY, m) == m
  {
  }

  lemma ApplyMul(m: Mat, n: Mat, v: Vec3)
    ensures Apply(Mul(m, n), v) == Apply(m, Apply(n, v))
  {
    RowApply(m.a, n, v);
    RowApply(m.b, n, v);
    RowApply(m.c, n, v);
  }

  lemma RowApply(u: Vec3, n: Mat, v: Vec3)
    ensures Dot(RowTimes(u, n), v) == Dot(u, Apply(n, v))
  {
    Interchange(v, Transpose(n), u.x, u.y, u.z);
  }

  lemma ApplyIdentity(v: Vec3)
    ensures Apply(IDENTITY, v) == v
  {
  }

  lemma TransposeMul(m: Mat, n: Mat)
    ensures Transpose(Mul(m, n)) == Mul(Transpose(n), Transpose(m))
  {
  }

  lemma TransposeTwice(m: Mat)
    ensures Transpose(Transpose(m)) == m
  {
    assert m == Mat(Vec3(m.a.x, m.a.y, m.a.z), Vec3(m.b.x, m.b.y, m.b.z), Vec3(m.c.x, m.c.y, m.c.z));
  }

  lemma TransposeOrthogonal(m: Mat)
    requires Orthogonal(m)
    ensures Orthogonal(Transpose(m))
  {
    TransposeTwice(m);
  }

  /** M (N N') M' is the identity when both factors are orthogonal. */
  lemma HalfOrthogonal(m: Mat, n: Mat)
    requires Mul(m, Transpose(m)) == IDENTITY && Mul(n, Transpose(n)) == IDENTITY
    ensures Mul(Mul(m, n), Transpose(Mul(m, n))) == IDENTITY
  {
    TransposeMul(m, n);
    var mt, nt := Transpose(m), Transpose(n);
    MulAssociative(m, n, Mul(nt, mt));
    MulAssociative(n, nt, mt);
    MulIdentity(mt);
  }

  lemma ProductOrthogonal(m: Mat, n: Mat)
    requires Orthogonal(m) && Orthogonal(n)
    ensures Orthogonal(Mul(m, n))
  {
    HalfOrthogonal(m, n);
    TransposeTwice(m);
    TransposeTwice(n);
    HalfOrthogonal(Transpose(n), Transpose(m));
    TransposeMul(m, n);
    TransposeTwice(Mul(m, n));
  }

  /** Turning there and back. */
  lemma Undo(m: Mat, v: Vec3)
    requires Orthogonal(m)
    ensures Apply(m, Apply(Transpose(m), v)) == v && Apply(Transpose(m), Apply(m, v)) == v
  {
    ApplyMul(m, Transpose(m), v);
    ApplyMul(Transpose(m), m, v);
    ApplyIdentity(v);
  }

  lemma UndoMul(m: Mat, n: Mat)
    requires Orthogonal(m)
    ensures Mul(m, Mul(Transpose(m), n)) == n && Mul(Transpose(m), Mul(m, n)) == n
  {
    MulAssociative(m, Transpose(m), n);
    MulAssociative(Transpose(m), m, n);
    MulIdentity(n);
  }

  lemma UndoRight(n: Mat, m: Mat)
    requires Orthogonal(m)
    ensures Mul(Mul(n, Transpose(m)), m) == n
  {
    MulAssociative(n, Transpose(m), m);
    MulIdentity(n);
  }
}
