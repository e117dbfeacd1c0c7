/** Two small trees that the loops get wrong: one listed child first, one with a turned link. */
module TurnedLink {
  import opened Options
  import opened Spatial
  import opened Trigonometry
  import opened Rotations
  import opened Layout
  import opened LinkFrames
  import opened JointMotion
  import opened ForwardKinematics

  /** Two joints in a row, the lower one listed first: the plan is a tree, and whatever the frames and joint values its
      last part is never placed. */
  lemma ChildListedFirst(hang: Hang, reader: Reader, lower: Edge, upper: Edge, start: Pose, entries: seq<Entry>)
    returns (t: Evidence)
    requires lower.parent == upper.child && lower.child != upper.parent
    requires lower.parent != lower.child && upper.parent != upper.child
    requires Follow([lower, upper], entries)
    ensures IsTree(upper.parent, {upper.parent, upper.child, lower.child}, [lower, upper], t)
    ensures lower.child !in Framed(hang, reader, upper.parent, start, entries)
  {
    var root, names, edges := upper.parent, {upper.parent, upper.child, lower.child}, [lower, upper];
    t := Evidence(map[root := 0, upper.child := 1, lower.child := 2],
                  map[root := 0, upper.child := 1, lower.child := 0]);
    assert IsTree(root, names, edges, t);
    var tf := Framed(hang, reader, root, start, entries);
    if lower.child in tf {
      PlacedByHook(hang, reader, root, names, edges, t, start, entries, lower.child);
      PlacedByHook(hang, reader, root, names, edges, t, start, entries, upper.child);
      KeptChain(reader, entries);
      TreeChain(hang, reader, root, names, edges, t, start, entries);
      FirstHangsOnRoot(root, entries);
    }
  }

  lemma FirstHangsOnRoot(root: Name, chain: seq<Entry>)
    requires chain != []
    ensures HangsEarlier(root, chain, 0) ==> chain[0].parent == root
  {
  }

  // ----- the turned link

  const QUARTER := Mat(Vec3(0.0, -1.0, 0.0), Vec3(1.0, 0.0, 0.0), Vec3(0.0, 0.0, 1.0))

  lemma QuarterThere(m: Mat)
    requires m == QUARTER
    ensures Mul(m, Transpose(m)) == IDENTITY
  {
  }

  lemma QuarterBack(m: Mat)
    requires m == QUARTER
    ensures Mul(Transpose(m), m) == IDENTITY
  {
  }

  lemma QuarterTriple(m: Mat)
    requires m == QUARTER
    ensures Dot(m.a, Cross(m.b, m.c)) == 1.0
  {
  }

  lemma QuarterIsProper(m: Mat)
    requires m == QUARTER
    ensures Proper(m)
  {
    QuarterThere(m);
    QuarterBack(m);
    QuarterTriple(m);
  }

  lemma QuarterMoves(m: Mat)
    requires m == QUARTER
    ensures Apply(m, X_AXIS) == Y_AXIS && Apply(m, Vec3(0.0, -1.0, 0.0)) == X_AXIS && Apply(m, ORIGIN) == ORIGIN
  {
  }

  /** A quarter turn about z. */
  lemma AQuarterTurn(o: Vec3, x: Vec3, y: Vec3, down: Vec3) returns (turn: Mat)
    requires o == ORIGIN && x == X_AXIS && y == Y_AXIS && down == Vec3(0.0, -1.0, 0.0)
    ensures Proper(turn) && Apply(turn, x) == y && Apply(turn, down) == x && Apply(turn, o) == o
  {
    turn := QUARTER;
    QuarterIsProper(turn);
    QuarterMoves(turn);
  }

  /** What is used of the two rotations, the origin and the three points. */
  ghost predicate Turns(turn: Mat, i: Mat, o: Vec3, x: Vec3, y: Vec3, down: Vec3) {
    && Proper(turn) && Proper(i) && Transpose(i) == i && Mul(i, turn) == turn && Mul(turn, i) == turn
    && Apply(i, o) == o && Apply(turn, o) == o && Apply(turn, x) == y && Apply(turn, down) == x
    && Add(o, o) == o && Add(o, x) == x && Add(x, o) == x && Sub(o, o) == o && Sub(x, o) == x && x != down
  }

  /** The base is not changed by the unit, nor by the origin. */
  ghost predicate Stays(base: Pose, i: Mat, o: Vec3) {
    Mul(base.r, i) == base.r && Apply(base.r, o) == o && Add(base.p, o) == base.p
  }

  lemma QuarterTurns(base: Pose, o: Vec3, x: Vec3, y: Vec3, down: Vec3) returns (turn: Mat, i: Mat)
    requires o == ORIGIN && x == X_AXIS && y == Y_AXIS && down == Vec3(0.0, -1.0, 0.0)
    ensures Turns(turn, i, o, x, y, down) && Stays(base, i, o)
  {
    turn := AQuarterTurn(o, x, y, down);
    i := Unit(turn, o, base.r);
    FromOrigin(o, x);
    FromOrigin(o, base.p);
  }

  lemma Unit(turn: Mat, o: Vec3, m: Mat) returns (i: Mat)
    requires o == ORIGIN
    ensures Proper(i) && Transpose(i) == i && Mul(i, turn) == turn && Mul(turn, i) == turn && Apply(i, o) == o
    ensures Mul(m, i) == m && Apply(m, o) == o
  {
    i := ProperIdentity();
    TransposedIdentity();
    MulIdentity(turn);
    MulIdentity(m);
    ApplyIdentity(o);
    ApplyOrigin(m);
  }

  lemma ApplyOrigin(m: Mat)
    ensures Apply(m, ORIGIN) == ORIGIN
  {
  }

  lemma FromOrigin(o: Vec3, v: Vec3)
    requires o == ORIGIN
    ensures Add(o, v) == v && Add(v, o) == v && Sub(v, o) == v && Add(o, o) == o && Sub(o, o) == o
  {
    assert v == Vec3(v.x, v.y, v.z);
  }

  // ----- the assembly

  ghost predicate Row(ab: Edge, bc: Edge) {
    && ab.child == bc.parent && ab.parent != ab.child && bc.parent != bc.child && ab.parent != bc.child
    && ab.kind == FixedJoint && bc.kind == RevoluteJoint
    && ab.parentTo == bc.parentTo == To && ab.childFrom == bc.childFrom == From
  }

  lemma RowIsTree(ab: Edge, bc: Edge) returns (t: Evidence)
    requires Row(ab, bc)
    ensures IsTree(ab.parent, {ab.parent, ab.child, bc.child}, [ab, bc], t) && ParentsFirst(ab.parent, [ab, bc])
  {
    t := Evidence(map[ab.parent := 0, ab.child := 1, bc.child := 2], map[ab.parent := 0, ab.child := 0, bc.child := 1]);
  }

  /** B is fixed to A with a turn, C revolves on B at x and hangs by its own origin. */
  ghost predicate IsTurned(ab: Edge, bc: Edge, parts: map<Name, Part>, poses: Frames, turn: Mat, i: Mat, o: Vec3,
                           x: Vec3, down: Vec3, axis: Vec3) {
    && parts.Keys == poses.Keys == {ab.parent, ab.child, bc.child} && bc.parent == ab.child
    && Outward(parts, ab).pose == Pose(o, turn)
    && Inward(parts, ab) == Connector(Pose(o, i), Some(JointMeta(FixedJoint, axis)))
    && Outward(parts, bc).pose == Pose(down, i)
    && Inward(parts, bc) == Connector(Pose(o, i), Some(JointMeta(RevoluteJoint, axis)))
    && poses[ab.parent] == Pose(o, i) && poses[ab.child] == Pose(o, turn) && poses[bc.child] == Pose(x, turn)
  }

  lemma TurnedParts(ab: Edge, bc: Edge, turn: Mat, i: Mat, o: Vec3, x: Vec3, down: Vec3, axis: Vec3)
    returns (parts: map<Name, Part>, poses: Frames)
    requires Row(ab, bc)
    ensures IsTurned(ab, bc, parts, poses, turn, i, o, x, down, axis)
  {
    var plain := Connector(Pose(o, i), None);
    parts := map[ab.parent := Part(ab.parent, plain, Connector(Pose(o, turn), None)),
                 ab.child := Part(ab.child, Connector(Pose(o, i), Some(JointMeta(FixedJoint, axis))),
                                  Connector(Pose(down, i), None)),
                 bc.child := Part(bc.child, Connector(Pose(o, i), Some(JointMeta(RevoluteJoint, axis))), plain)];
    poses := map[ab.parent := Pose(o, i), ab.child := Pose(o, turn), bc.child := Pose(x, turn)];
  }

  lemma FixedMeets(turn: Mat, i: Mat, o: Vec3)
    requires Mul(i, turn) == turn && Mul(turn, i) == turn && Apply(i, o) == o && Apply(turn, o) == o
    ensures Compose(Pose(o, i), Pose(o, turn)) == Compose(Pose(o, turn), Pose(o, i))
  {
  }

  lemma RevoluteMeets(turn: Mat, i: Mat, o: Vec3, x: Vec3, down: Vec3)
    requires Apply(turn, down) == x && Apply(turn, o) == o && Add(o, x) == x && Add(x, o) == x
    ensures Compose(Pose(o, turn), Pose(down, i)) == Compose(Pose(x, turn), Pose(o, i))
  {
  }

  lemma RowIsAssembled(ab: Edge, bc: Edge, parts: map<Name, Part>, poses: Frames)
    requires Row(ab, bc) && poses.Keys == parts.Keys == {ab.parent, ab.child, bc.child}
    requires FramesMeet(parts, ab, poses[ab.parent], poses[ab.child])
    requires FramesMeet(parts, bc, poses[bc.parent], poses[bc.child])
    requires Proper(poses[ab.parent].r) && Proper(poses[ab.child].r) && Proper(poses[bc.child].r)
    ensures IsAssembled(ab.parent, parts, [ab, bc], poses[ab.parent], poses)
  {
  }

  lemma Meets(parts: map<Name, Part>, e: Edge, parent: Pose, child: Pose, to: Pose, from: Pose)
    requires Known(parts, e) && Outward(parts, e).pose == to && Inward(parts, e).pose == from
    requires Compose(parent, to) == Compose(child, from)
    ensures FramesMeet(parts, e, parent, child)
  {
  }

  lemma TurnedIsAssembled(ab: Edge, bc: Edge, parts: map<Name, Part>, poses: Frames, turn: Mat, i: Mat, o: Vec3,
                          x: Vec3, y: Vec3, down: Vec3, axis: Vec3)
    requires Row(ab, bc) && Turns(turn, i, o, x, y, down)
    requires IsTurned(ab, bc, parts, poses, turn, i, o, x, down, axis)
    ensures IsAssembled(ab.parent, parts, [ab, bc], poses[ab.parent], poses)
  {
    FixedMeets(turn, i, o);
    Meets(parts, ab, Pose(o, i), Pose(o, turn), Pose(o, turn), Pose(o, i));
    RevoluteMeets(turn, i, o, x, down);
    Meets(parts, bc, Pose(o, turn), Pose(x, turn), Pose(down, i), Pose(o, i));
    RowIsAssembled(ab, bc, parts, poses);
  }

  lemma HangsByOrigin(ab: Edge, bc: Edge, parts: map<Name, Part>, o: Vec3)
    requires Row(ab, bc) && bc.child in parts && Inward(parts, bc).pose.p == o == ORIGIN
    ensures NoOffsets(parts, [ab, bc])
  {
  }

  lemma TurnedFixed(ab: Edge, bc: Edge, parts: map<Name, Part>, poses: Frames, turn: Mat, i: Mat, o: Vec3, x: Vec3,
                    down: Vec3, axis: Vec3) returns (j: JointLayout)
    requires Row(ab, bc) && IsTurned(ab, bc, parts, poses, turn, i, o, x, down, axis)
    requires Apply(i, o) == o && Add(o, o) == o
    ensures IsJoint(parts, ab, poses, j) && IsWritten(j, j) && j.anchor == o
  {
    j := JointAnchor(parts, poses, ab, Pose(o, i), Pose(o, turn), o);
    WrittenAsIs(j);
  }

  lemma TurnedRevolute(ab: Edge, bc: Edge, parts: map<Name, Part>, poses: Frames, turn: Mat, i: Mat, o: Vec3, x: Vec3,
                       down: Vec3, axis: Vec3) returns (j: JointLayout)
    requires Row(ab, bc) && IsTurned(ab, bc, parts, poses, turn, i, o, x, down, axis)
    requires Apply(turn, down) == x && Add(o, x) == x && Mul(turn, i) == turn
    requires Dot(Apply(turn, axis), Apply(turn, axis)) == 1.0
    ensures IsJoint(parts, bc, poses, j) && IsWritten(j, j) && j.anchor == x
  {
    j := JointAnchor(parts, poses, bc, Pose(o, turn), Pose(down, i), x);
    WrittenAsIs(j);
  }

  lemma JointAnchor(parts: map<Name, Part>, poses: Frames, e: Edge, at: Pose, to: Pose, p: Vec3)
    returns (j: JointLayout)
    requires Known(parts, e) && e.parent in poses && JointGiven(parts, e) && poses[e.parent] == at
    requires Outward(parts, e).pose == to && Add(at.p, Apply(at.r, to.p)) == p
    ensures IsJoint(parts, e, poses, j) && j.anchor == p && j.kind == e.kind
    ensures j.axis == Apply(Mul(at.r, to.r), Inward(parts, e).joint.value.axis)
  {
    j := JointOf(parts, poses, e);
  }

  lemma JointPair(parts: map<Name, Part>, poses: Frames, ab: Edge, bc: Edge, fixed: JointLayout, revolute: JointLayout)
    returns (joints: seq<JointLayout>)
    requires IsJoint(parts, ab, poses, fixed) && IsWritten(fixed, fixed)
    requires IsJoint(parts, bc, poses, revolute) && IsWritten(revolute, revolute)
    ensures joints == [fixed, revolute] && AreWritten(parts, [ab, bc], poses, joints, joints)
  {
    joints := [fixed, revolute];
  }

  lemma WrittenAsIs(j: JointLayout)
    ensures (Moves(j.kind) ==> Dot(j.axis, j.axis) == 1.0) ==> IsWritten(j, j)
  {
    assert j.axis == Scale(1.0, j.axis) by { assert j.axis == Vec3(j.axis.x, j.axis.y, j.axis.z); }
  }

  // ----- the two loops on it

  /** A loop that keeps both joints ends two steps below the root. */
  lemma RowFrames(motion: Entry -> Pose, reader: Reader, ab: Edge, bc: Edge, t: Evidence, start: Pose,
                  entries: seq<Entry>)
    requires Row(ab, bc) && IsTree(ab.parent, {ab.parent, ab.child, bc.child}, [ab, bc], t)
    requires Follow([ab, bc], entries) && AllListed(reader, [ab, bc])
    ensures var tf := Framed(Hanging(motion), reader, ab.parent, start, entries);
      (bc.child in tf && tf[bc.child] == Compose(Compose(start, motion(entries[0])), motion(entries[1])))
  {
    var root, names, edges := ab.parent, {ab.parent, ab.child, bc.child}, [ab, bc];
    var tf := Framed(Hanging(motion), reader, root, start, entries);
    HookOfChild(root, names, edges, t, 0);
    HookOfChild(root, names, edges, t, 1);
    assert ParentsFirst(root, edges);
    PlacesAllParts(Hanging(motion), reader, root, names, edges, t, start, entries);
    TreeChain(Hanging(motion), reader, root, names, edges, t, start, entries);
    PlacedByHook(Hanging(motion), reader, root, names, edges, t, start, entries, ab.child);
    PlacedByHook(Hanging(motion), reader, root, names, edges, t, start, entries, bc.child);
    HungAt(motion, tf, entries[0]);
    HungAt(motion, tf, entries[1]);
  }

  lemma TwoStepPlace(start: Pose, m: Pose, n: Pose, turn: Mat, o: Vec3, v: Vec3, w: Vec3)
    requires m == Pose(o, turn) && n.p == v && Apply(turn, v) == w
    requires Apply(start.r, o) == o && Add(start.p, o) == start.p
    ensures Compose(Compose(start, m), n).p == Place(start, w)
  {
    ApplyMul(start.r, turn, v);
  }

  lemma FixedStep(g: Trig, reader: Reader, j: JointLayout, i: Mat, turn: Mat, o: Vec3, v: real)
    requires j.kind == FixedJoint && j.anchor == o && Transpose(i) == i && Mul(i, turn) == turn
    requires Sub(o, o) == o && Apply(i, o) == o
    ensures EntryStep(g, reader, j, Pose(o, i), Pose(o, turn), v) == Pose(o, turn)
  {
  }

  /** The simulator steps to x along the root's axes, the pilot to the same point along the turned parent's. */
  lemma RevoluteStep(g: Trig, reader: Reader, j: JointLayout, turn: Mat, o: Vec3, x: Vec3, down: Vec3, v: real)
    requires j.kind == RevoluteJoint && j.anchor == x && Sub(x, o) == x && Apply(Transpose(turn), x) == down
    ensures EntryStep(g, reader, j, Pose(o, turn), Pose(x, turn), v).p == if reader == Simulator then x else down
  {
  }

  /** The row, its manifest and the facts behind them. */
  ghost predicate IsTurnedRow(ab: Edge, bc: Edge, parts: map<Name, Part>, t: Evidence, poses: Frames,
                              joints: seq<JointLayout>, o: Vec3, x: Vec3, turn: Mat, i: Mat) {
    && parts.Keys == poses.Keys == {ab.parent, ab.child, bc.child}
    && poses[ab.parent] == Pose(o, i) && poses[ab.child] == Pose(o, turn) && poses[bc.child] == Pose(x, turn)
    && IsManifest(ab.parent, parts, [ab, bc], t, poses, joints, joints) && NoOffsets(parts, [ab, bc])
    && |joints| == 2 && joints[0].anchor == o && joints[1].anchor == x
  }

  lemma RowOf(ab: Edge, bc: Edge, parts: map<Name, Part>, poses: Frames, turn: Mat, i: Mat, o: Vec3, x: Vec3,
              down: Vec3, axis: Vec3, fixed: JointLayout, revolute: JointLayout)
    returns (t: Evidence, joints: seq<JointLayout>)
    requires Row(ab, bc) && IsTurned(ab, bc, parts, poses, turn, i, o, x, down, axis) && NoOffsets(parts, [ab, bc])
    requires IsAssembled(ab.parent, parts, [ab, bc], poses[ab.parent], poses)
    requires IsJoint(parts, ab, poses, fixed) && IsWritten(fixed, fixed) && fixed.anchor == o
    requires IsJoint(parts, bc, poses, revolute) && IsWritten(revolute, revolute) && revolute.anchor == x
    ensures IsTurnedRow(ab, bc, parts, t, poses, joints, o, x, turn, i)
  {
    t := RowIsTree(ab, bc);
    joints := JointPair(parts, poses, ab, bc, fixed, revolute);
  }

  lemma TurnedRow(ab: Edge, bc: Edge, axis: Vec3, turn: Mat, i: Mat, o: Vec3, x: Vec3, y: Vec3, down: Vec3)
    returns (parts: map<Name, Part>, t: Evidence, poses: Frames, joints: seq<JointLayout>)
    requires Row(ab, bc) && Turns(turn, i, o, x, y, down) && Dot(axis, axis) == 1.0 && o == ORIGIN
    ensures IsTurnedRow(ab, bc, parts, t, poses, joints, o, x, turn, i)
  {
    parts, poses := TurnedParts(ab, bc, turn, i, o, x, down, axis);
    TurnedIsAssembled(ab, bc, parts, poses, turn, i, o, x, y, down, axis);
    var fixed := TurnedFixed(ab, bc, parts, poses, turn, i, o, x, down, axis);
    ProductsKept(turn, axis, axis);
    var revolute := TurnedRevolute(ab, bc, parts, poses, turn, i, o, x, down, axis);
    HangsByOrigin(ab, bc, parts, o);
    t, joints := RowOf(ab, bc, parts, poses, turn, i, o, x, down, axis, fixed, revolute);
  }

  lemma RootIsBase(reader: Reader, base: Pose, o: Vec3, i: Mat)
    requires Stays(base, i, o)
    ensures RootFrame(reader, base, Pose(o, i)) == base
  {
  }

  lemma FixedMotion(g: Trig, q: map<string, real>, reader: Reader, poses: Frames, j: JointLayout, i: Mat, turn: Mat,
                    o: Vec3)
    requires j.parent in poses && poses[j.parent] == Pose(o, i) && j.child in poses && poses[j.child] == Pose(o, turn)
    requires j.kind == FixedJoint && j.anchor == o && Transpose(i) == i && Mul(i, turn) == turn
    requires Sub(o, o) == o && Apply(i, o) == o
    ensures Motion(g, q)(Reading(reader, poses)(j)) == Pose(o, turn)
  {
    ReadStep(g, reader, poses, j, q);
    FixedStep(g, reader, j, i, turn, o, Value(q, j.name));
  }

  lemma RevoluteMotion(g: Trig, q: map<string, real>, reader: Reader, poses: Frames, j: JointLayout, turn: Mat,
                       o: Vec3, x: Vec3, down: Vec3)
    requires j.parent in poses && poses[j.parent] == Pose(o, turn)
    requires j.child in poses && poses[j.child] == Pose(x, turn)
    requires j.kind == RevoluteJoint && j.anchor == x && Sub(x, o) == x && Apply(Transpose(turn), x) == down
    ensures Motion(g, q)(Reading(reader, poses)(j)).p == if reader == Simulator then x else down
  {
    ReadStep(g, reader, poses, j, q);
    RevoluteStep(g, reader, j, turn, o, x, down, Value(q, j.name));
  }

  lemma RowPlaceOf(motion: Entry -> Pose, reader: Reader, ab: Edge, bc: Edge, t: Evidence, start: Pose,
                   entries: seq<Entry>, turn: Mat, o: Vec3, v: Vec3, w: Vec3)
    requires Row(ab, bc) && IsTree(ab.parent, {ab.parent, ab.child, bc.child}, [ab, bc], t)
    requires Follow([ab, bc], entries) && AllListed(reader, [ab, bc])
    requires motion(entries[0]) == Pose(o, turn) && motion(entries[1]).p == v && Apply(turn, v) == w
    requires Apply(start.r, o) == o && Add(start.p, o) == start.p
    ensures var tf := Framed(Hanging(motion), reader, ab.parent, start, entries);
      (bc.child in tf && tf[bc.child].p == Place(start, w))
  {
    RowFrames(motion, reader, ab, bc, t, start, entries);
    TwoStepPlace(start, motion(entries[0]), motion(entries[1]), turn, o, v, w);
  }

  lemma RowFollows(reader: Reader, ab: Edge, bc: Edge, parts: map<Name, Part>, t: Evidence, poses: Frames,
                   joints: seq<JointLayout>, o: Vec3, x: Vec3, turn: Mat, i: Mat)
    requires Row(ab, bc) && IsTurnedRow(ab, bc, parts, t, poses, joints, o, x, turn, i)
    ensures Follow([ab, bc], Each(Reading(reader, poses), joints))
    ensures joints[0].kind == FixedJoint && joints[0].parent == ab.parent && joints[0].child == ab.child
    ensures joints[1].kind == RevoluteJoint && joints[1].parent == ab.child && joints[1].child == bc.child
  {
    ManifestMatches(ab.parent, parts, [ab, bc], t, poses, joints, joints);
    EntriesFollow(reader, poses, [ab, bc], joints);
    WrittenNames(parts, ab, poses, joints[0], joints[0]);
    WrittenNames(parts, bc, poses, joints[1], joints[1]);
  }

  predicate PutsAt(tf: Frames, n: Name, p: Vec3) { n in tf && tf[n].p == p }

  lemma StepsPlace(g: Trig, q: map<string, real>, reader: Reader, ab: Edge, bc: Edge, t: Evidence, poses: Frames,
                   joints: seq<JointLayout>, base: Pose, turn: Mat, i: Mat, o: Vec3, x: Vec3, y: Vec3, down: Vec3)
    requires Row(ab, bc) && AllListed(reader, [ab, bc]) && |joints| == 2
    requires IsTree(ab.parent, {ab.parent, ab.child, bc.child}, [ab, bc], t)
    requires Follow([ab, bc], Each(Reading(reader, poses), joints))
    requires joints[0].kind == FixedJoint && joints[0].parent == ab.parent && joints[0].child == ab.child
    requires joints[1].kind == RevoluteJoint && joints[1].parent == ab.child && joints[1].child == bc.child
    requires joints[0].anchor == o && joints[1].anchor == x
    requires poses.Keys == {ab.parent, ab.child, bc.child}
    requires poses[ab.parent] == Pose(o, i) && poses[ab.child] == Pose(o, turn) && poses[bc.child] == Pose(x, turn)
    requires Transpose(i) == i && Mul(i, turn) == turn && Sub(o, o) == o && Apply(i, o) == o && Sub(x, o) == x
    requires Apply(Transpose(turn), x) == down && Apply(turn, x) == y && Apply(turn, down) == x
    requires Apply(base.r, o) == o && Add(base.p, o) == base.p
    ensures PutsAt(Framed(Hanging(Motion(g, q)), reader, ab.parent, base, Each(Reading(reader, poses), joints)),
                   bc.child, Place(base, if reader == Simulator then y else x))
  {
    var entries := Each(Reading(reader, poses), joints);
    FixedMotion(g, q, reader, poses, joints[0], i, turn, o);
    RevoluteMotion(g, q, reader, poses, joints[1], turn, o, x, down);
    RowPlaceOf(Motion(g, q), reader, ab, bc, t, base, entries, turn, o,
               if reader == Simulator then x else down, if reader == Simulator then y else x);
  }

  // ----- the failing input

  /** B is fixed to A with a quarter turn about z, and C revolves on B about any axis at (1, 0, 0) with its `from` frame
      at its origin. */
  lemma TurnedRowExists(ab: Edge, bc: Edge, axis: Vec3, base: Pose, o: Vec3, x: Vec3, y: Vec3, down: Vec3)
    returns (parts: map<Name, Part>, t: Evidence, poses: Frames, joints: seq<JointLayout>, turn: Mat, i: Mat)
    requires Row(ab, bc) && Dot(axis, axis) == 1.0 && o == ORIGIN
    requires x == Vec3(1.0, 0.0, 0.0) && y == Vec3(0.0, 1.0, 0.0) && down == Vec3(0.0, -1.0, 0.0)
    ensures IsTurnedRow(ab, bc, parts, t, poses, joints, o, x, turn, i)
    ensures Turns(turn, i, o, x, y, down) && Stays(base, i, o)
  {
    turn, i := QuarterTurns(base, o, x, y, down);
    parts, t, poses, joints := TurnedRow(ab, bc, axis, turn, i, o, x, y, down);
  }

  /** At all joint values, relative to the base, the pilot's loop puts C at x and the simulator's at y. */
  lemma TurnedLinkIsMisplaced(g: Trig, q: map<string, real>, reader: Reader, ab: Edge, bc: Edge,
                              parts: map<Name, Part>, t: Evidence, poses: Frames, joints: seq<JointLayout>, base: Pose,
                              turn: Mat, i: Mat, o: Vec3, x: Vec3, y: Vec3, down: Vec3)
    requires Row(ab, bc) && Turns(turn, i, o, x, y, down) && Stays(base, i, o) && AllListed(reader, [ab, bc])
    requires IsTurnedRow(ab, bc, parts, t, poses, joints, o, x, turn, i)
    ensures RootFrame(reader, base, Pose(o, i)) == base && poses[ab.parent] == Pose(o, i)
    ensures PutsAt(Framed(Hanging(Motion(g, q)), reader, ab.parent, base, Each(Reading(reader, poses), joints)),
                   bc.child, Place(base, if reader == Simulator then y else x))
  {
    RootIsBase(reader, base, o, i);
    RowFollows(reader, ab, bc, parts, t, poses, joints, o, x, turn, i);
    Undo(turn, down);
    StepsPlace(g, q, reader, ab, bc, t, poses, joints, base, turn, i, o, x, y, down);
  }

  /** And the pilot is right about every part. */
  lemma PilotIsExactThere(g: Trig, ab: Edge, bc: Edge, parts: map<Name, Part>, t: Evidence, base: Pose, poses: Frames,
                          joints: seq<JointLayout>, o: Vec3, x: Vec3, turn: Mat, i: Mat)
    requires IsTrig(g) && Row(ab, bc) && AllListed(Pilot, [ab, bc]) && Orthogonal(base.r)
    requires IsTurnedRow(ab, bc, parts, t, poses, joints, o, x, turn, i)
    ensures forall q :: ForwardExact(g, Pilot, ab.parent, [ab, bc], t, base, poses, joints, q)
  {
    RowParentsFirst(ab, bc);
    PilotExactIff(g, ab.parent, parts, [ab, bc], t, base, poses, joints, joints);
  }

  lemma RowParentsFirst(ab: Edge, bc: Edge)
    requires ab.child == bc.parent
    ensures ParentsFirst(ab.parent, [ab, bc])
  {
    var edges := [ab, bc];
    assert edges[0].child == bc.parent;
  }
}
