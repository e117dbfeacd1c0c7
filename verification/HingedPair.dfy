/** The smallest assembly whose IK chain and URDF disagree: one revolute joint whose child has its `from` frame one
    unit above its own origin. */
module HingedPair {
  import opened Options
  import opened Spatial
  import opened Rotations
  import opened Layout

  lemma PairIsTree(e: Edge, t: Evidence)
    requires e.parent != e.child
    requires t == Evidence(map[e.parent := 0, e.child := 1], map[e.parent := 0, e.child := 0])
    ensures IsTree(e.parent, {e.parent, e.child}, [e], t)
  {
  }

  lemma PairIsAssembled(parts: map<Name, Part>, e: Edge, poses: map<Name, Pose>, i: Mat)
    requires parts.Keys == poses.Keys == {e.parent, e.child} && Proper(i)
    requires poses[e.parent].r == poses[e.child].r == i
    requires FramesMeet(parts, e, poses[e.parent], poses[e.child])
    ensures IsAssembled(e.parent, parts, [e], poses[e.parent], poses)
  {
  }

  lemma PairIsRigid(parts: map<Name, Part>, i: Mat)
    requires Proper(i) && forall n :: n in parts ==> parts[n].from.pose.r == parts[n].to.pose.r == i
    ensures RigidParts(parts)
  {
  }

  /** Two parts on one joint, all frames alike but for the child's incoming one. */
  lemma Pair(e: Edge, still: Pose, from: Connector, child: Pose)
    returns (parts: map<Name, Part>, poses: map<Name, Pose>, joints: seq<JointLayout>, t: Evidence)
    requires e.parent != e.child && e.parentTo == To && e.childFrom == From && Proper(still.r)
    requires from.pose.r == child.r == still.r && from.joint.Some? && from.joint.value.kind == e.kind
    requires Compose(still, still) == Compose(child, from.pose)
    ensures parts.Keys == {e.parent, e.child} && RigidParts(parts) && Inward(parts, e) == from
    ensures e.parent in poses && IsAssembled(e.parent, parts, [e], poses[e.parent], poses)
    ensures poses[e.parent] == still && e.child in poses && poses[e.child] == child
    ensures AreJoints(parts, [e], poses, joints) && joints[0].anchor == Place(still, still.p)
    ensures IsTree(e.parent, parts.Keys, [e], t)
  {
    var plain := Connector(still, None);
    parts := map[e.parent := Part(e.parent, plain, plain), e.child := Part(e.child, from, plain)];
    poses := map[e.parent := still, e.child := child];
    joints := [JointOf(parts, poses, e)];
    t := Evidence(map[e.parent := 0, e.child := 1], map[e.parent := 0, e.child := 0]);
    PairIsTree(e, t);
    PairIsRigid(parts, still.r);
    PairIsAssembled(parts, e, poses, still.r);
  }

  /** The IK chain starts a revolute child at the joint's anchor. */
  lemma StartsAtAnchor(j: JointLayout, parent: Pose, child: Pose)
    requires j.kind == RevoluteJoint && Orthogonal(parent.r)
    ensures Compose(parent, IkOrigin(j, parent, child)).p == j.anchor
  {
    RelativePoseComposes(parent, j.anchor, child.r);
  }

  lemma OneStep(parts: map<Name, Part>, e: Edge, t: Evidence, rootPose: Pose, origins: seq<Pose>)
    requires IsTree(e.parent, parts.Keys, [e], t) && e.child in parts && |origins| == 1
    ensures Compounded(e.parent, parts.Keys, [e], t, rootPose, origins, e.child) == Compose(rootPose, origins[0])
  {
    HookOfChild(e.parent, parts.Keys, [e], t, 0);
    assert Compounded(e.parent, parts.Keys, [e], t, rootPose, origins, e.parent) == rootPose;
  }

  /** In an assembly of one revolute joint the URDF puts the child at its pose, the IK chain at the anchor. */
  lemma TwoNeutralFrames(parts: map<Name, Part>, e: Edge, t: Evidence, poses: map<Name, Pose>, joints: seq<JointLayout>)
    requires IsTree(e.parent, parts.Keys, [e], t) && e.parent in poses && e.child in parts && e.kind == RevoluteJoint
    requires IsAssembled(e.parent, parts, [e], poses[e.parent], poses) && AreJoints(parts, [e], poses, joints)
    ensures Compounded(e.parent, parts.Keys, [e], t, poses[e.parent], UrdfOrigins([e], poses), e.child)
         == poses[e.child]
    ensures Compounded(e.parent, parts.Keys, [e], t, poses[e.parent], IkOrigins([e], joints, poses), e.child).p
         == joints[0].anchor
  {
    UrdfRebuildsPoses(e.parent, parts, [e], t, poses[e.parent], poses, e.child);
    OneStep(parts, e, t, poses[e.parent], IkOrigins([e], joints, poses));
    StartsAtAnchor(joints[0], poses[e.parent], poses[e.child]);
  }

  /** The identity and what it does to the two points that matter. */
  lemma Upright(o: Vec3, offset: Vec3) returns (r: Mat)
    ensures r == IDENTITY && Proper(r) && Mul(r, r) == r && Apply(r, o) == o && Apply(r, offset) == offset
  {
    r := ProperIdentity();
    MulIdentity(r);
    ApplyIdentity(o);
    ApplyIdentity(offset);
  }

  lemma Meeting(r: Mat, o: Vec3, offset: Vec3, below: Vec3)
    requires Mul(r, r) == r && Apply(r, o) == o && Apply(r, offset) == offset && Add(below, offset) == o
    requires Add(o, o) == o
    ensures Compose(Pose(o, r), Pose(o, r)) == Compose(Pose(below, r), Pose(offset, r))
    ensures Place(Pose(o, r), o) == o
  {
  }

  /** The pair and where its two encodings put the child. */
  ghost predicate Placed(e: Edge, parts: map<Name, Part>, t: Evidence, poses: map<Name, Pose>, joints: seq<JointLayout>,
                         from: Connector, urdf: Vec3, ik: Vec3) {
    && e.parent in poses && e.child in parts && Inward(parts, e) == from && RigidParts(parts)
    && IsTree(e.parent, parts.Keys, [e], t) && IsAssembled(e.parent, parts, [e], poses[e.parent], poses)
    && AreJoints(parts, [e], poses, joints) && joints[0].anchor == ik
    && Compounded(e.parent, parts.Keys, [e], t, poses[e.parent], UrdfOrigins([e], poses), e.child).p == urdf
    && Compounded(e.parent, parts.Keys, [e], t, poses[e.parent], IkOrigins([e], joints, poses), e.child).p == ik
  }

  lemma PlacedPair(e: Edge, still: Pose, from: Connector, child: Pose)
    returns (parts: map<Name, Part>, t: Evidence, poses: map<Name, Pose>, joints: seq<JointLayout>)
    requires e.parent != e.child && e.parentTo == To && e.childFrom == From && Proper(still.r)
    requires from.pose.r == child.r == still.r && from.joint.Some? && from.joint.value.kind == e.kind == RevoluteJoint
    requires Compose(still, still) == Compose(child, from.pose)
    ensures Placed(e, parts, t, poses, joints, from, child.p, Place(still, still.p))
  {
    parts, poses, joints, t := Pair(e, still, from, child);
    TwoNeutralFrames(parts, e, t, poses, joints);
  }

  lemma Hinge(pose: Pose) returns (from: Connector)
    ensures from.pose == pose && from.joint.Some? && from.joint.value.kind == RevoluteJoint
  {
    from := Connector(pose, Some(JointMeta(RevoluteJoint, X_AXIS)));
  }

  lemma OffsetMovesFrame(e: Edge, o: Vec3, offset: Vec3, below: Vec3)
    returns (parts: map<Name, Part>, t: Evidence, poses: map<Name, Pose>, joints: seq<JointLayout>, from: Connector)
    requires e.parent != e.child && e.kind == RevoluteJoint && e.parentTo == To && e.childFrom == From
    requires Add(below, offset) == o && Add(o, o) == o
    ensures from.pose.p == offset && from.pose.r == IDENTITY
    ensures Placed(e, parts, t, poses, joints, from, below, o)
  {
    var r := Upright(o, offset);
    Meeting(r, o, offset, below);
    from := Hinge(Pose(offset, r));
    parts, t, poses, joints := PlacedPair(e, Pose(o, r), from, Pose(below, r));
  }

  /** The layout and the URDF put the child one unit below the joint, the IK chain puts it at the joint. */
  lemma OffsetMovesNeutralFrame(e: Edge, offset: Vec3, below: Vec3)
    returns (parts: map<Name, Part>, t: Evidence, poses: map<Name, Pose>, joints: seq<JointLayout>, from: Connector)
    requires e.parent != e.child && e.kind == RevoluteJoint && e.parentTo == To && e.childFrom == From
    requires offset == Vec3(0.0, 0.0, 1.0) && below == Vec3(0.0, 0.0, -1.0)
    ensures from.pose.p == offset && from.pose.r == IDENTITY
    ensures Placed(e, parts, t, poses, joints, from, below, ORIGIN)
  {
    parts, t, poses, joints, from := OffsetMovesFrame(e, ORIGIN, offset, below);
  }
}
