/** Forward kinematics at any joint values: where the pilot's and the simulator's loop put the parts, against the URDF
    (model/elesim_model_builder/urdf_converter.py). */
module JointMotion {
  import opened Roots
  import opened Spatial
  import opened Trigonometry
  import opened Rotations
  import opened Layout
  import opened LinkFrames

  /** The joint as the manifest has it: its axis brought to length one. */
  ghost predicate IsWritten(raw: JointLayout, j: JointLayout) {
    && j == raw.(axis := j.axis)
    && (Moves(j.kind) ==> Dot(j.axis, j.axis) == 1.0 && exists k :: k > 0.0 && raw.axis == Scale(k, j.axis))
  }

  predicate Moves(kind: JointKind) { kind == PrismaticJoint || kind == RevoluteJoint }

  /** The manifest's joints of an assembly. */
  ghost predicate AreWritten(parts: map<Name, Part>, edges: seq<Edge>, poses: map<Name, Pose>,
                             raw: seq<JointLayout>, joints: seq<JointLayout>) {
    && AreJoints(parts, edges, poses, raw) && |joints| == |raw|
    && forall i :: 0 <= i < |joints| ==> IsWritten(raw[i], joints[i])
  }

  // ----- one joint

  /** A URDF joint moves after its origin, along or about the axis in the child's frame. */
  function UrdfStep(g: Trig, j: JointLayout, parent: Pose, child: Pose, q: real): Pose {
    var axis := UrdfAxis(j, child);
    var motion := match j.kind
      case PrismaticJoint => Pose(Scale(q, axis), IDENTITY)
      case RevoluteJoint => Pose(ORIGIN, AxisRotation(g, axis, q))
      case _ => Pose(ORIGIN, IDENTITY);
    Compose(UrdfOrigin(parent, child), motion)
  }

  lemma RelativeIsProper(parent: Pose, child: Pose)
    requires Proper(parent.r) && Proper(child.r)
    ensures Proper(UrdfOrigin(parent, child).r)
  {
    ProperTranspose(parent.r);
    ProperProduct(Transpose(parent.r), child.r);
  }

  lemma AxisTurns(j: JointLayout, parent: Pose, child: Pose)
    requires Orthogonal(child.r)
    ensures IkAxis(j, parent) == Apply(UrdfOrigin(parent, child).r, UrdfAxis(j, child))
  {
    ApplyMul(Transpose(parent.r), child.r, UrdfAxis(j, child));
    Undo(child.r, j.axis);
  }

  lemma StayAtOrigin(at: Pose)
    ensures Place(at, ORIGIN) == at.p
  {
    assert at.p == Vec3(at.p.x, at.p.y, at.p.z);
  }

  /** The URDF's joint, moving before the child's own turn along or about the axis in the parent's frame. */
  lemma UrdfStepped(g: Trig, j: JointLayout, parent: Pose, child: Pose, q: real)
    requires Proper(parent.r) && Proper(child.r)
    ensures UrdfStep(g, j, parent, child, q)
         == Stepped(g, j.kind, UrdfOrigin(parent, child).p, IkAxis(j, parent), UrdfOrigin(parent, child).r, q)
  {
    var at, axis := UrdfOrigin(parent, child), UrdfAxis(j, child);
    AxisTurns(j, parent, child);
    MulIdentity(at.r);
    StayAtOrigin(at);
    ApplyScale(at.r, q, axis);
    if j.kind == RevoluteJoint {
      RelativeIsProper(parent, child);
      Conjugate(g, at.r, axis, q);
      UndoRight(Mul(at.r, AxisRotation(g, axis, q)), at.r);
    }
  }

  lemma UrdfStepTurns(g: Trig, j: JointLayout, parent: Pose, child: Pose, q: real)
    requires IsTrig(g) && Proper(parent.r) && Proper(child.r) && (Moves(j.kind) ==> Dot(j.axis, j.axis) == 1.0)
    ensures Orthogonal(UrdfStep(g, j, parent, child, q).r)
  {
    var at, axis := UrdfOrigin(parent, child), UrdfAxis(j, child);
    RelativeIsProper(parent, child);
    MulIdentity(at.r);
    if j.kind == RevoluteJoint {
      TransposeOrthogonal(child.r);
      ProductsKept(Transpose(child.r), j.axis, j.axis);
      RotationTurns(g, axis, q);
      ProductOrthogonal(at.r, AxisRotation(g, axis, q));
    }
  }

  /** Two joints of one kind start at the same point and, if they move, have the same axis. */
  ghost predicate SameMotion(kind: JointKind, o: Vec3, u: Vec3, p: Vec3, v: Vec3) {
    o == p && (Moves(kind) ==> u == v)
  }

  lemma StepsDetermine(g: Trig, kind: JointKind, o: Vec3, u: Vec3, p: Vec3, v: Vec3, turn: Mat)
    requires IsTrig(g) && Orthogonal(turn)
    requires Stepped(g, kind, o, u, turn, 0.0) == Stepped(g, kind, p, v, turn, 0.0)
    requires Stepped(g, kind, o, u, turn, g.pi / 2.0) == Stepped(g, kind, p, v, turn, g.pi / 2.0)
    ensures SameMotion(kind, o, u, p, v)
  {
    match kind {
      case PrismaticJoint =>
        NoShift(o, u);
        NoShift(p, v);
        CancelPlace(o, Scale(g.pi / 2.0, u), Scale(g.pi / 2.0, v));
        CancelScale(g.pi / 2.0, u, v);
      case RevoluteJoint =>
        CancelRight(AxisRotation(g, u, g.pi / 2.0), AxisRotation(g, v, g.pi / 2.0), turn);
        QuarterTurnTells(g, u, v);
      case _ =>
    }
  }

  lemma NoShift(o: Vec3, u: Vec3)
    ensures Add(o, Scale(0.0, u)) == o
  {
    assert o == Vec3(o.x, o.y, o.z);
  }

  lemma CancelScale(k: real, u: Vec3, v: Vec3)
    requires k > 0.0 && Scale(k, u) == Scale(k, v)
    ensures u == v
  {
    SameVector(k, u, v);
  }

  lemma SameVector(k: real, u: Vec3, v: Vec3)
    requires k != 0.0 && k * u.x == k * v.x && k * u.y == k * v.y && k * u.z == k * v.z
    ensures u == v
  {
    CancelFactor(k, u.x, v.x);
    CancelFactor(k, u.y, v.y);
    CancelFactor(k, u.z, v.z);
    assert u == Vec3(u.x, u.y, u.z) && v == Vec3(v.x, v.y, v.z);
  }

  lemma CancelFactor(k: real, x: real, y: real)
    requires k != 0.0 && k * x == k * y
    ensures x == y
  {
    assert k * (x - y) == 0.0;
  }

  lemma CancelRight(m: Mat, n: Mat, turn: Mat)
    requires Orthogonal(turn) && Mul(m, turn) == Mul(n, turn)
    ensures m == n
  {
    MulAssociative(m, turn, Transpose(turn));
    MulAssociative(n, turn, Transpose(turn));
    MulIdentity(m);
    MulIdentity(n);
  }

  lemma QuarterTurnTells(g: Trig, u: Vec3, v: Vec3)
    requires IsTrig(g) && AxisRotation(g, u, g.pi / 2.0) == AxisRotation(g, v, g.pi / 2.0)
    ensures u == v
  {
    var c, s := g.cos(g.pi / 2.0), g.sin(g.pi / 2.0);
    QuarterTurn(g, c, s);
    SameBlend(c, 1.0 - c, s, u, v);
  }

  lemma SameBlend(c: real, k: real, s: real, u: Vec3, v: Vec3)
    requires s != 0.0 && Blend(c, k, s, u) == Blend(c, k, s, v)
    ensures u == v
  {
    var m, t := Blend(c, k, s, u), 2.0 * s;
    SkewPart(c, k, s, u, m, t);
    SkewPart(c, k, s, v, m, t);
    SameVector(t, u, v);
  }

  /** The antisymmetric part of a rotation is its axis. */
  lemma SkewPart(c: real, k: real, s: real, a: Vec3, m: Mat, t: real)
    requires m == Blend(c, k, s, a) && t == 2.0 * s
    ensures m.c.y - m.b.z == t * a.x && m.a.z - m.c.x == t * a.y && m.b.x - m.a.y == t * a.z
  {
    Swap(k, a.y, a.z);
    Swap(k, a.z, a.x);
    Swap(k, a.x, a.y);
  }

  lemma Swap(k: real, x: real, y: real)
    ensures k * x * y == k * y * x
  {
  }

  lemma QuarterTurn(g: Trig, c: real, s: real)
    requires IsTrig(g) && c == g.cos(g.pi / 2.0) && s == g.sin(g.pi / 2.0)
    ensures s != 0.0
  {
    assert AdditionLaw(g, g.pi / 2.0, g.pi / 2.0);
    assert g.pi / 2.0 + g.pi / 2.0 == g.pi;
    NotBoth(c, s);
  }

  lemma NotBoth(c: real, s: real)
    requires c * c - s * s == -1.0
    ensures s != 0.0
  {
    var square := SquareSign(c);
  }

  // ----- the readers' entries

  /** The entry starts where the URDF's joint does and moves along or about the same axis. */
  ghost predicate Fits(reader: Reader, j: JointLayout, parent: Pose, child: Pose) {
    var e := EntryOf(reader, j, parent, child);
    SameMotion(j.kind, e.origin, e.axis, UrdfOrigin(parent, child).p, IkAxis(j, parent))
  }

  lemma EntryTurns(reader: Reader, j: JointLayout, parent: Pose, child: Pose)
    ensures EntryOf(reader, j, parent, child).turn == UrdfOrigin(parent, child).r
  {
  }

  function EntryStep(g: Trig, reader: Reader, j: JointLayout, parent: Pose, child: Pose, q: real): Pose {
    var e := EntryOf(reader, j, parent, child);
    Stepped(g, e.kind, e.origin, e.axis, e.turn, q)
  }

  lemma FittingSteps(g: Trig, reader: Reader, j: JointLayout, parent: Pose, child: Pose, q: real)
    requires Proper(parent.r) && Proper(child.r) && Fits(reader, j, parent, child)
    ensures EntryStep(g, reader, j, parent, child, q) == UrdfStep(g, j, parent, child, q)
  {
    EntryTurns(reader, j, parent, child);
    UrdfStepped(g, j, parent, child, q);
  }

  lemma StepsFit(g: Trig, reader: Reader, j: JointLayout, parent: Pose, child: Pose)
    requires IsTrig(g) && Proper(parent.r) && Proper(child.r)
    requires EntryStep(g, reader, j, parent, child, 0.0) == UrdfStep(g, j, parent, child, 0.0)
    requires EntryStep(g, reader, j, parent, child, g.pi / 2.0) == UrdfStep(g, j, parent, child, g.pi / 2.0)
    ensures Fits(reader, j, parent, child)
  {
    var e, at := EntryOf(reader, j, parent, child), UrdfOrigin(parent, child);
    EntryTurns(reader, j, parent, child);
    RelativeIsProper(parent, child);
    UrdfStepped(g, j, parent, child, 0.0);
    UrdfStepped(g, j, parent, child, g.pi / 2.0);
    StepsDetermine(g, j.kind, e.origin, e.axis, at.p, IkAxis(j, parent), at.r);
  }

  // ----- whole chains

  function UrdfStepOf(g: Trig, poses: Frames, q: map<string, real>): JointLayout -> Pose {
    (j: JointLayout) => UrdfStep(g, j, PoseOf(poses, j.parent), PoseOf(poses, j.child), Value(q, j.name))
  }

  /** The URDF's joints at the values q. */
  function UrdfSteps(g: Trig, poses: Frames, joints: seq<JointLayout>, q: map<string, real>): seq<Pose> {
    StepsOf(UrdfStepOf(g, poses, q), joints)
  }

  function StepsOf(step: JointLayout -> Pose, joints: seq<JointLayout>): seq<Pose> {
    seq(|joints|, i requires 0 <= i < |joints| => step(joints[i]))
  }

  ghost predicate FitsIn(reader: Reader, poses: Frames, j: JointLayout) {
    Fits(reader, j, PoseOf(poses, j.parent), PoseOf(poses, j.child))
  }

  ghost predicate AllFit(reader: Reader, poses: Frames, joints: seq<JointLayout>) {
    forall i :: 0 <= i < |joints| ==> FitsIn(reader, poses, joints[i])
  }

  lemma ReadStep(g: Trig, reader: Reader, poses: Frames, j: JointLayout, q: map<string, real>)
    ensures Motion(g, q)(Reading(reader, poses)(j))
         == EntryStep(g, reader, j, PoseOf(poses, j.parent), PoseOf(poses, j.child), Value(q, j.name))
  {
  }

  /** At the values q the joint's entry moves as the URDF's joint. */
  ghost predicate Alike(g: Trig, reader: Reader, poses: Frames, q: map<string, real>, j: JointLayout) {
    Motion(g, q)(Reading(reader, poses)(j)) == UrdfStepOf(g, poses, q)(j)
  }

  ghost predicate RigidFrames(poses: Frames) { forall n :: n in poses ==> Proper(poses[n].r) }

  lemma FrameIsProper(poses: Frames, n: Name)
    requires RigidFrames(poses)
    ensures Proper(PoseOf(poses, n).r)
  {
    if n !in poses {
      DefaultIsProper(PoseOf(poses, n));
    }
  }

  lemma DefaultIsProper(p: Pose)
    requires p == Pose(ORIGIN, IDENTITY)
    ensures Proper(p.r)
  {
    var i := ProperIdentity();
  }

  lemma FittingIsAlike(g: Trig, reader: Reader, poses: Frames, q: map<string, real>, j: JointLayout)
    requires RigidFrames(poses) && FitsIn(reader, poses, j)
    ensures Alike(g, reader, poses, q, j)
  {
    FrameIsProper(poses, j.parent);
    FrameIsProper(poses, j.child);
    ReadStep(g, reader, poses, j, q);
    FittingSteps(g, reader, j, PoseOf(poses, j.parent), PoseOf(poses, j.child), Value(q, j.name));
  }

  lemma AlikeIsFitting(g: Trig, reader: Reader, poses: Frames, rest: map<string, real>, turned: map<string, real>,
                       j: JointLayout)
    requires IsTrig(g) && RigidFrames(poses) && Value(rest, j.name) == 0.0 && Value(turned, j.name) == g.pi / 2.0
    requires Alike(g, reader, poses, rest, j) && Alike(g, reader, poses, turned, j)
    ensures FitsIn(reader, poses, j)
  {
    FrameIsProper(poses, j.parent);
    FrameIsProper(poses, j.child);
    ReadStep(g, reader, poses, j, rest);
    ReadStep(g, reader, poses, j, turned);
    StepsFit(g, reader, j, PoseOf(poses, j.parent), PoseOf(poses, j.child));
  }

  lemma MatchIsAlike(g: Trig, reader: Reader, poses: Frames, joints: seq<JointLayout>, q: map<string, real>)
    ensures StepsMatch(Motion(g, q), Each(Reading(reader, poses), joints), UrdfSteps(g, poses, joints, q))
       <==> forall i :: 0 <= i < |joints| ==> Alike(g, reader, poses, q, joints[i])
  {
    MatchOneByOne(Motion(g, q), Reading(reader, poses), UrdfStepOf(g, poses, q), joints);
  }

  lemma MatchOneByOne(motion: Entry -> Pose, entry: JointLayout -> Entry, step: JointLayout -> Pose,
                      joints: seq<JointLayout>)
    ensures StepsMatch(motion, Each(entry, joints), StepsOf(step, joints))
       <==> forall i :: 0 <= i < |joints| ==> motion(entry(joints[i])) == step(joints[i])
  {
    var entries, steps := Each(entry, joints), StepsOf(step, joints);
    assert forall i :: 0 <= i < |joints| ==> entries[i] == entry(joints[i]) && steps[i] == step(joints[i]);
  }

  /** The loop over the reader's chain puts exactly the parts of the tree where the URDF puts them. */
  ghost predicate ForwardExact(g: Trig, reader: Reader, root: Name, edges: seq<Edge>, t: Evidence, base: Pose,
                               poses: Frames, joints: seq<JointLayout>, q: map<string, real>)
    requires IsTree(root, poses.Keys, edges, t) && |joints| == |edges|
  {
    Exact(Motion(g, q), reader, root, poses.Keys, edges, t, RootFrame(reader, base, poses[root]),
          Each(Reading(reader, poses), joints), Compose(base, poses[root]), UrdfSteps(g, poses, joints, q))
  }

  ghost predicate NothingSkipped(reader: Reader, root: Name, edges: seq<Edge>) {
    AllListed(reader, edges) && ParentsFirst(root, edges)
  }

  lemma AtTheseValues(g: Trig, reader: Reader, root: Name, edges: seq<Edge>, t: Evidence, base: Pose,
                      poses: Frames, joints: seq<JointLayout>, q: map<string, real>)
    requires IsTree(root, poses.Keys, edges, t) && Matching(edges, joints) && RigidFrames(poses) && Orthogonal(base.r)
    requires IsTrig(g) && UnitAxes(joints)
    ensures ForwardExact(g, reader, root, edges, t, base, poses, joints, q)
       <==> NothingSkipped(reader, root, edges) && RootFrame(reader, base, poses[root]) == Compose(base, poses[root])
            && forall i :: 0 <= i < |joints| ==> Alike(g, reader, poses, q, joints[i])
  {
    var entries, steps := Each(Reading(reader, poses), joints), UrdfSteps(g, poses, joints, q);
    EntriesFollow(reader, poses, edges, joints);
    AllStepsTurn(g, base, poses, root, joints, q);
    MatchIsAlike(g, reader, poses, joints, q);
    ExactIffStepsMatch(Motion(g, q), reader, root, poses.Keys, edges, t, RootFrame(reader, base, poses[root]), entries,
                       Compose(base, poses[root]), steps);
  }

  ghost predicate UnitAxes(joints: seq<JointLayout>) {
    forall i :: 0 <= i < |joints| && Moves(joints[i].kind) ==> Dot(joints[i].axis, joints[i].axis) == 1.0
  }

  ghost predicate Matching(edges: seq<Edge>, joints: seq<JointLayout>) {
    |joints| == |edges| && forall i :: 0 <= i < |edges| ==>
      joints[i].parent == edges[i].parent && joints[i].child == edges[i].child && joints[i].name == edges[i].name
  }

  lemma EntriesFollow(reader: Reader, poses: Frames, edges: seq<Edge>, joints: seq<JointLayout>)
    requires Matching(edges, joints)
    ensures Follow(edges, Each(Reading(reader, poses), joints))
  {
    ReadingKeepsNames(reader, poses);
    NamesFollow(Reading(reader, poses), edges, joints);
  }

  lemma NamesFollow(entry: JointLayout -> Entry, edges: seq<Edge>, joints: seq<JointLayout>)
    requires Matching(edges, joints) && KeepsNames(entry)
    ensures Follow(edges, Each(entry, joints))
  {
  }

  lemma AllStepsTurn(g: Trig, base: Pose, poses: Frames, root: Name, joints: seq<JointLayout>, q: map<string, real>)
    requires IsTrig(g) && RigidFrames(poses) && Orthogonal(base.r) && root in poses && UnitAxes(joints)
    ensures AllTurn(Compose(base, poses[root]), UrdfSteps(g, poses, joints, q))
  {
    ProductOrthogonal(base.r, poses[root].r);
    forall i | 0 <= i < |joints| ensures Orthogonal(UrdfSteps(g, poses, joints, q)[i].r) {
      StepTurns(g, poses, joints[i], q);
    }
  }

  lemma StepTurns(g: Trig, poses: Frames, j: JointLayout, q: map<string, real>)
    requires IsTrig(g) && RigidFrames(poses) && (Moves(j.kind) ==> Dot(j.axis, j.axis) == 1.0)
    ensures Orthogonal(UrdfStepOf(g, poses, q)(j).r)
  {
    FrameIsProper(poses, j.parent);
    FrameIsProper(poses, j.child);
    UrdfStepTurns(g, j, PoseOf(poses, j.parent), PoseOf(poses, j.child), Value(q, j.name));
  }

  lemma FitIsExact(g: Trig, reader: Reader, root: Name, edges: seq<Edge>, t: Evidence, base: Pose, poses: Frames,
                   joints: seq<JointLayout>, q: map<string, real>)
    requires IsTree(root, poses.Keys, edges, t) && Matching(edges, joints) && RigidFrames(poses) && Orthogonal(base.r)
    requires IsTrig(g) && UnitAxes(joints) && NothingSkipped(reader, root, edges) && AllFit(reader, poses, joints)
    requires RootFrame(reader, base, poses[root]) == Compose(base, poses[root])
    ensures ForwardExact(g, reader, root, edges, t, base, poses, joints, q)
  {
    AtTheseValues(g, reader, root, edges, t, base, poses, joints, q);
    forall i | 0 <= i < |joints| ensures Alike(g, reader, poses, q, joints[i]) {
      FittingIsAlike(g, reader, poses, q, joints[i]);
    }
  }

  lemma ExactIsFit(g: Trig, reader: Reader, root: Name, edges: seq<Edge>, t: Evidence, base: Pose, poses: Frames,
                   joints: seq<JointLayout>, rest: map<string, real>, turned: map<string, real>)
    requires IsTree(root, poses.Keys, edges, t) && Matching(edges, joints) && RigidFrames(poses) && Orthogonal(base.r)
    requires IsTrig(g) && UnitAxes(joints)
    requires forall i :: 0 <= i < |joints| ==>
      Value(rest, joints[i].name) == 0.0 && Value(turned, joints[i].name) == g.pi / 2.0
    requires ForwardExact(g, reader, root, edges, t, base, poses, joints, rest)
    requires ForwardExact(g, reader, root, edges, t, base, poses, joints, turned)
    ensures NothingSkipped(reader, root, edges) && AllFit(reader, poses, joints)
    ensures RootFrame(reader, base, poses[root]) == Compose(base, poses[root])
  {
    AtTheseValues(g, reader, root, edges, t, base, poses, joints, rest);
    AtTheseValues(g, reader, root, edges, t, base, poses, joints, turned);
    forall i | 0 <= i < |joints| ensures FitsIn(reader, poses, joints[i]) {
      AlikeIsFitting(g, reader, poses, rest, turned, joints[i]);
    }
  }

  /** The values that put every joint at v. */
  lemma AllAt(joints: seq<JointLayout>, v: real) returns (q: map<string, real>)
    ensures forall i :: 0 <= i < |joints| ==> Value(q, joints[i].name) == v
  {
    q := map j | j in joints :: j.name := v;
    assert forall i :: 0 <= i < |joints| ==> joints[i] in joints;
  }

  /** At all joint values: nothing is skipped, the roots are one and every entry fits. */
  lemma AtAllValues(g: Trig, reader: Reader, root: Name, edges: seq<Edge>, t: Evidence, base: Pose, poses: Frames,
                    joints: seq<JointLayout>)
    requires IsTree(root, poses.Keys, edges, t) && Matching(edges, joints) && RigidFrames(poses) && Orthogonal(base.r)
    requires IsTrig(g) && UnitAxes(joints)
    ensures (forall q :: ForwardExact(g, reader, root, edges, t, base, poses, joints, q))
       <==> NothingSkipped(reader, root, edges) && RootFrame(reader, base, poses[root]) == Compose(base, poses[root])
            && AllFit(reader, poses, joints)
  {
    if NothingSkipped(reader, root, edges) && RootFrame(reader, base, poses[root]) == Compose(base, poses[root])
       && AllFit(reader, poses, joints) {
      forall q ensures ForwardExact(g, reader, root, edges, t, base, poses, joints, q) {
        FitIsExact(g, reader, root, edges, t, base, poses, joints, q);
      }
    }
    if forall q :: ForwardExact(g, reader, root, edges, t, base, poses, joints, q) {
      var rest := AllAt(joints, 0.0);
      var turned := AllAt(joints, g.pi / 2.0);
      ExactIsFit(g, reader, root, edges, t, base, poses, joints, rest, turned);
    }
  }
}
