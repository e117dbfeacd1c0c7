/** When forward kinematics meets the URDF: the pilot's (iklib/kinematics.py over the chain of context_builder.py) and
    the simulator's (elesim_sim/runtime.py over its own chain). */
module ForwardKinematics {
  import opened Spatial
  import opened Trigonometry
  import opened Rotations
  import opened Layout
  import opened LinkFrames
  import opened JointMotion

  /** An assembly posed from its root, and its manifest. */
  ghost predicate IsManifest(root: Name, parts: map<Name, Part>, edges: seq<Edge>, t: Evidence, poses: Frames,
                             raw: seq<JointLayout>, joints: seq<JointLayout>) {
    && IsTree(root, parts.Keys, edges, t) && poses.Keys == parts.Keys
    && IsAssembled(root, parts, edges, poses[root], poses) && AreWritten(parts, edges, poses, raw, joints)
  }

  lemma ManifestMatches(root: Name, parts: map<Name, Part>, edges: seq<Edge>, t: Evidence, poses: Frames,
                        raw: seq<JointLayout>, joints: seq<JointLayout>)
    requires IsManifest(root, parts, edges, t, poses, raw, joints)
    ensures Matching(edges, joints) && UnitAxes(joints) && RigidFrames(poses) && IsTree(root, poses.Keys, edges, t)
  {
    forall i | 0 <= i < |edges|
      ensures joints[i].parent == edges[i].parent && joints[i].child == edges[i].child
      ensures joints[i].name == edges[i].name && (Moves(joints[i].kind) ==> Dot(joints[i].axis, joints[i].axis) == 1.0)
    {
      WrittenNames(parts, edges[i], poses, raw[i], joints[i]);
    }
  }

  lemma WrittenNames(parts: map<Name, Part>, e: Edge, poses: Frames, raw: JointLayout, j: JointLayout)
    requires IsJoint(parts, e, poses, raw) && IsWritten(raw, j)
    ensures j.parent == e.parent && j.child == e.child && j.name == e.name && j.kind == e.kind
    ensures Moves(j.kind) ==> Dot(j.axis, j.axis) == 1.0
  {
  }

  // ----- the pilot

  /** No entry starts away from its child's own origin. */
  ghost predicate NoOffsets(parts: map<Name, Part>, edges: seq<Edge>) {
    forall i :: 0 <= i < |edges| ==> NoOffset(parts, edges[i])
  }

  ghost predicate NoOffset(parts: map<Name, Part>, e: Edge) {
    StartsAtChild(e.kind) || (e.child in parts && Inward(parts, e).pose.p == ORIGIN)
  }

  lemma SeenAlike(back: Mat, u: Vec3, v: Vec3, from: Vec3)
    requires Orthogonal(back)
    ensures Apply(Transpose(back), Sub(u, from)) == Apply(Transpose(back), Sub(v, from)) <==> u == v
  {
    Undo(back, Sub(u, from));
    Undo(back, Sub(v, from));
    Sum(u, from);
    Sum(v, from);
  }

  lemma PilotFits(parts: map<Name, Part>, e: Edge, poses: Frames, raw: JointLayout, j: JointLayout)
    requires e.child in poses && IsJoint(parts, e, poses, raw) && IsWritten(raw, j)
    requires FramesMeet(parts, e, poses[e.parent], poses[e.child])
    requires Orthogonal(poses[e.parent].r) && Orthogonal(poses[e.child].r)
    ensures FitsIn(Pilot, poses, j) <==> NoOffset(parts, e)
  {
    var parent, child, offset := poses[e.parent], poses[e.child], Inward(parts, e).pose.p;
    WrittenNames(parts, e, poses, raw, j);
    AnchorIsPlaced(parts, e, poses, raw, j);
    StaysPut(child, offset);
    SeenAlike(parent.r, if StartsAtChild(j.kind) then child.p else j.anchor, child.p, parent.p);
    PilotEntry(j, parent, child);
  }

  lemma AnchorIsPlaced(parts: map<Name, Part>, e: Edge, poses: Frames, raw: JointLayout, j: JointLayout)
    requires e.child in poses && IsJoint(parts, e, poses, raw) && IsWritten(raw, j)
    requires FramesMeet(parts, e, poses[e.parent], poses[e.child])
    ensures j.anchor == Place(poses[e.child], Inward(parts, e).pose.p)
  {
  }

  lemma PilotEntry(j: JointLayout, parent: Pose, child: Pose)
    ensures Fits(Pilot, j, parent, child) <==>
            (Apply(Transpose(parent.r), Sub(if StartsAtChild(j.kind) then child.p else j.anchor, parent.p))
             == Apply(Transpose(parent.r), Sub(child.p, parent.p)))
  {
  }

  lemma AllPilotFits(root: Name, parts: map<Name, Part>, edges: seq<Edge>, t: Evidence, poses: Frames,
                     raw: seq<JointLayout>, joints: seq<JointLayout>)
    requires IsManifest(root, parts, edges, t, poses, raw, joints)
    ensures AllFit(Pilot, poses, joints) <==> NoOffsets(parts, edges)
  {
    forall i | 0 <= i < |edges| ensures FitsIn(Pilot, poses, joints[i]) <==> NoOffset(parts, edges[i]) {
      PilotFits(parts, edges[i], poses, raw[i], joints[i]);
    }
  }

  /** The pilot's forward kinematics puts every part where the URDF does, at all joint values, if and only if no joint
      is skipped for an empty name, none is listed before its parent's, and every child that does not start at its own
      pose has its `from` frame at its origin. */
  lemma PilotExactIff(g: Trig, root: Name, parts: map<Name, Part>, edges: seq<Edge>, t: Evidence, base: Pose,
                      poses: Frames, raw: seq<JointLayout>, joints: seq<JointLayout>)
    requires IsTrig(g) && Orthogonal(base.r) && IsManifest(root, parts, edges, t, poses, raw, joints)
    ensures (forall q :: ForwardExact(g, Pilot, root, edges, t, base, poses, joints, q))
       <==> AllListed(Pilot, edges) && ParentsFirst(root, edges) && NoOffsets(parts, edges)
  {
    ManifestMatches(root, parts, edges, t, poses, raw, joints);
    AllPilotFits(root, parts, edges, t, poses, raw, joints);
    AtAllValues(g, Pilot, root, edges, t, base, poses, joints);
  }

  lemma SameStart(g: Trig, kind: JointKind, o: Vec3, p: Vec3, axis: Vec3, turn: Mat)
    requires Stepped(g, kind, o, axis, turn, 0.0) == Stepped(g, kind, p, axis, turn, 0.0)
    ensures o == p
  {
    NoShift(o, axis);
    NoShift(p, axis);
  }

  lemma PilotFitsAtRest(g: Trig, poses: Frames, j: JointLayout, rest: map<string, real>)
    requires RigidFrames(poses) && Value(rest, j.name) == 0.0 && Alike(g, Pilot, poses, rest, j)
    ensures FitsIn(Pilot, poses, j)
  {
    var parent, child := PoseOf(poses, j.parent), PoseOf(poses, j.child);
    FrameIsProper(poses, j.parent);
    FrameIsProper(poses, j.child);
    ReadStep(g, Pilot, poses, j, rest);
    EntryTurns(Pilot, j, parent, child);
    UrdfStepped(g, j, parent, child, 0.0);
    SameStart(g, j.kind, EntryOf(Pilot, j, parent, child).origin, UrdfOrigin(parent, child).p, IkAxis(j, parent),
              UrdfOrigin(parent, child).r);
  }

  /** The resting values alone decide: a chain the pilot follows wrongly anywhere it follows wrongly at rest. */
  lemma RestDecides(g: Trig, root: Name, parts: map<Name, Part>, edges: seq<Edge>, t: Evidence, base: Pose,
                    poses: Frames, raw: seq<JointLayout>, joints: seq<JointLayout>, rest: map<string, real>)
    requires IsTrig(g) && Orthogonal(base.r) && IsManifest(root, parts, edges, t, poses, raw, joints)
    requires forall i :: 0 <= i < |joints| ==> Value(rest, joints[i].name) == 0.0
    requires IsTree(root, poses.Keys, edges, t) && ForwardExact(g, Pilot, root, edges, t, base, poses, joints, rest)
    ensures AllListed(Pilot, edges) && ParentsFirst(root, edges) && NoOffsets(parts, edges)
  {
    ManifestMatches(root, parts, edges, t, poses, raw, joints);
    AllPilotFits(root, parts, edges, t, poses, raw, joints);
    AtTheseValues(g, Pilot, root, edges, t, base, poses, joints, rest);
    forall i | 0 <= i < |joints| ensures FitsIn(Pilot, poses, joints[i]) {
      PilotFitsAtRest(g, poses, joints[i], rest);
    }
  }

  // ----- the simulator

  /** Seen from the root, the joint's anchor lies from its parent where, seen from the parent, the child lies; a moving
      joint's axis is the same seen from either. */
  ghost predicate Unturned(poses: Frames, j: JointLayout) {
    j.parent in poses && j.child in poses && SeenFromRoot(j, poses[j.parent], poses[j.child])
  }

  predicate SeenFromRoot(j: JointLayout, parent: Pose, child: Pose) {
    && Sub(j.anchor, parent.p) == Apply(Transpose(parent.r), Sub(child.p, parent.p))
    && (Moves(j.kind) ==> j.axis == Apply(Transpose(parent.r), j.axis))
  }

  lemma SimulatorEntryFits(j: JointLayout, parent: Pose, child: Pose)
    ensures Fits(Simulator, j, parent, child) <==> SeenFromRoot(j, parent, child)
  {
  }

  lemma SimulatorFits(poses: Frames, j: JointLayout)
    requires j.parent in poses && j.child in poses
    ensures FitsIn(Simulator, poses, j) <==> Unturned(poses, j)
  {
    SimulatorEntryFits(j, poses[j.parent], poses[j.child]);
  }

  lemma AllSimulatorFits(poses: Frames, edges: seq<Edge>, joints: seq<JointLayout>)
    requires Matching(edges, joints)
    requires forall i {:trigger edges[i]} :: 0 <= i < |edges| ==> edges[i].parent in poses && edges[i].child in poses
    ensures AllFit(Simulator, poses, joints) <==> AllUnturned(poses, joints)
  {
    forall i | 0 <= i < |edges| ensures FitsIn(Simulator, poses, joints[i]) <==> Unturned(poses, joints[i]) {
      assert edges[i].parent in poses && edges[i].child in poses;
      SimulatorFits(poses, joints[i]);
    }
  }

  /** The simulator puts the root where the URDF has it. */
  ghost predicate RootsMeet(base: Pose, at: Pose) { RootFrame(Simulator, base, at) == Compose(base, at) }

  lemma RootsMeetIffUnturned(base: Pose, at: Pose)
    requires Orthogonal(base.r)
    ensures RootsMeet(base, at) <==> at.r == IDENTITY
  {
    MulIdentity(base.r);
    UndoMul(base.r, at.r);
    UndoMul(base.r, IDENTITY);
  }

  ghost predicate AllUnturned(poses: Frames, joints: seq<JointLayout>) {
    forall i :: 0 <= i < |joints| ==> Unturned(poses, joints[i])
  }

  /** The simulator's forward kinematics puts every part where the URDF does, at all joint values, if and only if no
      joint is skipped, none is listed before its parent's, the root is not turned, and origins and axes look from the
      root as they do from their parents. */
  lemma SimulatorExactIff(g: Trig, root: Name, parts: map<Name, Part>, edges: seq<Edge>, t: Evidence, base: Pose,
                          poses: Frames, raw: seq<JointLayout>, joints: seq<JointLayout>)
    requires IsTrig(g) && Orthogonal(base.r) && IsManifest(root, parts, edges, t, poses, raw, joints)
    ensures (forall q :: ForwardExact(g, Simulator, root, edges, t, base, poses, joints, q))
       <==> AllListed(Simulator, edges) && ParentsFirst(root, edges)
            && RootsMeet(base, poses[root]) && AllUnturned(poses, joints)
  {
    ManifestMatches(root, parts, edges, t, poses, raw, joints);
    AllSimulatorFits(poses, edges, joints);
    AtAllValues(g, Simulator, root, edges, t, base, poses, joints);
  }

  // ----- rotations

  /** The rotation of every part the pilot places is the URDF's, whatever the order of the joints and the offsets. */
  lemma PilotTurnsRight(g: Trig, root: Name, parts: map<Name, Part>, edges: seq<Edge>, t: Evidence, base: Pose,
                        poses: Frames, raw: seq<JointLayout>, joints: seq<JointLayout>, q: map<string, real>, n: Name)
    requires IsManifest(root, parts, edges, t, poses, raw, joints) && n in poses
    requires n in PilotFrames(g, root, base, poses, joints, q)
    ensures PilotFrames(g, root, base, poses, joints, q)[n].r
         == Compounded(root, poses.Keys, edges, t, Compose(base, poses[root]), UrdfSteps(g, poses, joints, q), n).r
  {
    var entries := Each(Reading(Pilot, poses), joints);
    ManifestMatches(root, parts, edges, t, poses, raw, joints);
    EntriesFollow(Pilot, poses, edges, joints);
    PlacedIsCompounded(Motion(g, q), Pilot, root, poses.Keys, edges, t, Compose(base, poses[root]), entries, n);
    var a, b := Steps(Motion(g, q), entries), UrdfSteps(g, poses, joints, q);
    forall i | 0 <= i < |edges| ensures a[i].r == b[i].r {
      PilotStepTurns(g, poses, joints[i], q);
    }
    SameTurns(root, poses.Keys, edges, t, Compose(base, poses[root]), a, b, n);
  }

  function PilotFrames(g: Trig, root: Name, base: Pose, poses: Frames, joints: seq<JointLayout>, q: map<string, real>)
    : Frames
    requires root in poses
  {
    Framed(Hanging(Motion(g, q)), Pilot, root, Compose(base, poses[root]), Each(Reading(Pilot, poses), joints))
  }

  lemma PilotStepTurns(g: Trig, poses: Frames, j: JointLayout, q: map<string, real>)
    requires RigidFrames(poses)
    ensures Motion(g, q)(Reading(Pilot, poses)(j)).r == UrdfStepOf(g, poses, q)(j).r
  {
    var parent, child, v := PoseOf(poses, j.parent), PoseOf(poses, j.child), Value(q, j.name);
    FrameIsProper(poses, j.parent);
    FrameIsProper(poses, j.child);
    ReadStep(g, Pilot, poses, j, q);
    EntryTurns(Pilot, j, parent, child);
    UrdfStepped(g, j, parent, child, v);
    SteppedTurns(g, j.kind, IkOrigin(j, parent, child).p, UrdfOrigin(parent, child).p, IkAxis(j, parent),
                 UrdfOrigin(parent, child).r, v);
  }

  /** How a step turns does not depend on where it starts. */
  lemma SteppedTurns(g: Trig, kind: JointKind, o: Vec3, p: Vec3, axis: Vec3, turn: Mat, q: real)
    ensures Stepped(g, kind, o, axis, turn, q).r == Stepped(g, kind, p, axis, turn, q).r
  {
  }

  /** Steps that turn alike give every part the same rotation. */
  lemma {:induction false} SameTurns(root: Name, names: set<Name>, edges: seq<Edge>, t: Evidence, start: Pose,
                                     a: seq<Pose>, b: seq<Pose>, n: Name)
    requires IsTree(root, names, edges, t) && |a| == |b| == |edges| && n in names
    requires forall i :: 0 <= i < |edges| ==> a[i].r == b[i].r
    ensures Compounded(root, names, edges, t, start, a, n).r == Compounded(root, names, edges, t, start, b, n).r
    decreases t.rank[n]
  {
    if n != root {
      SameTurns(root, names, edges, t, start, a, b, edges[t.hook[n]].parent);
    }
  }
}
