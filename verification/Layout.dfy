/** The kinematic tree of an assembly: root poses by stack traversal
    (model/elesim_model_builder/json_builder.py, robot_defs.py), and the same tree encoded as URDF origins
    (urdf_converter.py) and as the IK chain (context_builder.py). Rotations are exact proper orthogonal matrices. */
module Layout {
  import opened Results
  import opened Options
  import opened Spatial
  import opened Rotations

  type Name = string

  datatype JointKind = FixedJoint | RevoluteJoint | PrismaticJoint | UnknownJoint

  datatype JointMeta = JointMeta(kind: JointKind, axis: Vec3)

  datatype Connector = Connector(pose: Pose, joint: Option<JointMeta>)

  datatype Key = From | To

  datatype Part = Part(name: Name, from: Connector, to: Connector) {
    function Get(key: Key): Connector { match key case From => from case To => to }
  }

  datatype Edge = Edge(parent: Name, child: Name, name: string, kind: JointKind, parentTo: Key, childFrom: Key)

  /** A joint of the manifest; the axis is given before normalization. */
  datatype JointLayout = JointLayout(name: string, kind: JointKind, parent: Name, child: Name, anchor: Vec3, axis: Vec3)

  class AssemblyPlan {
    const root: Name
    var parts: map<Name, Part>
    var edges: seq<Edge>

    constructor (rootName: Name)
      ensures root == rootName && parts == map[] && edges == []
    {
      root := rootName;
      parts := map[];
      edges := [];
    }

    method AddPart(part: Part)
      modifies this`parts
      ensures parts == old(parts)[part.name := part]
    {
      parts := parts[part.name := part];
    }

    method Connect(edge: Edge)
      modifies this`edges
      ensures edges == old(edges) + [edge]
    {
      edges := edges + [edge];
    }

    method Validate() returns (r: Result<()>)
      ensures r.Ok? <==> root in parts && forall e :: e in edges ==> e.parent in parts && e.child in parts
    {
      if root !in parts {
        return Error("root part is not added");
      }
      for i := 0 to |edges|
        invariant forall k :: 0 <= k < i ==> edges[k].parent in parts && edges[k].child in parts
      {
        if edges[i].parent !in parts {
          return Error("missing parent part");
        }
        if edges[i].child !in parts {
          return Error("missing child part");
        }
      }
      return Ok(());
    }
  }

  // ----- rooted trees

  /** Evidence that a plan is a rooted tree: a rank that grows along every edge, and each part's one incoming edge. */
  datatype Evidence = Evidence(rank: map<Name, nat>, hook: map<Name, nat>)

  /** Every edge leads away from the root and every other part hangs on exactly one edge. */
  ghost predicate IsTree(root: Name, names: set<Name>, edges: seq<Edge>, t: Evidence) {
    && root in names && t.rank.Keys == names && t.hook.Keys == names
    && (forall i {:trigger edges[i]} :: 0 <= i < |edges| ==>
          edges[i].parent in names && edges[i].child in names && edges[i].child != root &&
          t.rank[edges[i].parent] < t.rank[edges[i].child])
    && ChildrenDiffer(edges)
    && (forall n {:trigger t.hook[n]} :: n in names && n != root ==> t.hook[n] < |edges| && edges[t.hook[n]].child == n)
  }

  ghost predicate RigidParts(parts: map<Name, Part>) {
    forall n :: n in parts ==> Proper(parts[n].from.pose.r) && Proper(parts[n].to.pose.r)
  }

  /** The traversal's child pose: the parent's outgoing frame times the inverse of the child's incoming one. */
  function ChildPose(parent: Pose, to: Pose, from: Pose): Pose {
    var r := Mul(Mul(parent.r, to.r), Transpose(from.r));
    Pose(Sub(Add(parent.p, Apply(parent.r, to.p)), Apply(r, from.p)), r)
  }

  lemma AddSub(u: Vec3, v: Vec3)
    ensures Add(Sub(u, v), v) == u && Sub(Add(u, v), u) == v
  {
    assert u == Vec3(u.x, u.y, u.z) && v == Vec3(v.x, v.y, v.z);
  }

  lemma ChildPoseCoincides(parent: Pose, to: Pose, from: Pose)
    requires Orthogonal(parent.r) && Orthogonal(to.r) && Orthogonal(from.r)
    ensures Compose(ChildPose(parent, to, from), from) == Compose(parent, to)
    ensures Orthogonal(ChildPose(parent, to, from).r)
  {
    var child := ChildPose(parent, to, from);
    UndoRight(Mul(parent.r, to.r), from.r);
    AddSub(Place(parent, to.p), Apply(child.r, from.p));
    ProductOrthogonal(parent.r, to.r);
    TransposeOrthogonal(from.r);
    ProductOrthogonal(Mul(parent.r, to.r), Transpose(from.r));
  }

  lemma ChildPoseIsProper(parent: Pose, to: Pose, from: Pose)
    requires Proper(parent.r) && Proper(to.r) && Proper(from.r)
    ensures Proper(ChildPose(parent, to, from).r)
  {
    ProperProduct(parent.r, to.r);
    ProperTranspose(from.r);
    ProperProduct(Mul(parent.r, to.r), Transpose(from.r));
  }

  /** What coincides determines the child's pose. */
  lemma CoincidenceIsUnique(child: Pose, other: Pose, from: Pose)
    requires Orthogonal(from.r) && Compose(child, from) == Compose(other, from)
    ensures child == other
  {
    var back := Transpose(from.r);
    MulAssociative(child.r, from.r, back);
    MulAssociative(other.r, from.r, back);
    MulIdentity(child.r);
    MulIdentity(other.r);
    assert child.r == other.r;
    CancelAdd(child.p, other.p, Apply(child.r, from.p));
  }

  lemma CancelAdd(u: Vec3, v: Vec3, w: Vec3)
    requires Add(u, w) == Add(v, w)
    ensures u == v
  {
    assert u == Vec3(u.x, u.y, u.z) && v == Vec3(v.x, v.y, v.z);
  }

  // ----- the traversal

  /** The edges leaving a part, in edge order. */
  function Leaving(edges: seq<Edge>, parent: Name): (out: seq<Edge>)
    ensures forall e :: e in out <==> e in edges && e.parent == parent
  {
    if edges == [] then []
    else
      var last := edges[|edges| - 1];
      var out := Leaving(edges[..|edges| - 1], parent);
      assert forall e :: e in edges <==> e in edges[..|edges| - 1] || e == last;
      if last.parent == parent then out + [last] else out
  }

  ghost predicate ChildrenDiffer(edges: seq<Edge>) {
    forall i, j :: 0 <= i < j < |edges| ==> edges[i].child != edges[j].child
  }

  lemma {:induction false} LeavingIsOrdered(edges: seq<Edge>, parent: Name)
    requires ChildrenDiffer(edges)
    ensures ChildrenDiffer(Leaving(edges, parent))
  {
    if edges != [] {
      var n := |edges| - 1;
      LeavingIsOrdered(edges[..n], parent);
      LastIsNew(edges, parent);
      assert ChildrenDiffer(Leaving(edges[..n], parent) + [edges[n]]);
    }
  }

  lemma LastIsNew(edges: seq<Edge>, parent: Name)
    requires ChildrenDiffer(edges) && edges != []
    ensures var out, n := Leaving(edges[..|edges| - 1], parent), |edges| - 1;
      forall k :: 0 <= k < |out| ==> out[k].child != edges[n].child
  {
    var out, n := Leaving(edges[..|edges| - 1], parent), |edges| - 1;
    forall k | 0 <= k < |out| ensures out[k].child != edges[n].child {
      assert out[k] in edges[..n];
      var i :| 0 <= i < n && edges[..n][i] == out[k];
      assert edges[i].child != edges[n].child;
    }
  }

  /** Building the adjacency dictionary. */
  method Outgoing(edges: seq<Edge>) returns (outgoing: map<Name, seq<Edge>>)
    ensures forall p :: p in outgoing <==> Leaving(edges, p) != []
    ensures forall p :: p in outgoing ==> outgoing[p] == Leaving(edges, p)
  {
    outgoing := map[];
    for i := 0 to |edges|
      invariant forall p :: p in outgoing <==> Leaving(edges[..i], p) != []
      invariant forall p :: p in outgoing ==> outgoing[p] == Leaving(edges[..i], p)
    {
      assert edges[..i + 1][..i] == edges[..i];
      var p := edges[i].parent;
      var sofar := if p in outgoing then outgoing[p] else [];
      outgoing := outgoing[p := sofar + [edges[i]]];
    }
    assert edges[..|edges|] == edges;
  }

  /** What the traversal needs of the geometry: how a child is posed, when an edge's frames fit, which poses are
      rigid. */
  datatype Geometry = Geometry(next: (Edge, Pose) -> Pose, fit: (Edge, Pose, Pose) -> bool, rigid: Pose -> bool)

  ghost predicate Lawful(geo: Geometry, edges: seq<Edge>) {
    forall e, p {:trigger geo.next(e, p)} ::
      e in edges && geo.rigid(p) ==> geo.fit(e, p, geo.next(e, p)) && geo.rigid(geo.next(e, p))
  }

  /** The posed parts are the root and the children of the finished edges; finished edges fit. */
  ghost predicate Placed(geo: Geometry, root: Name, names: set<Name>, edges: seq<Edge>, rootPose: Pose,
                         poses: map<Name, Pose>, done: set<Edge>) {
    && poses.Keys <= names && root in poses && poses[root] == rootPose
    && (forall n :: n in poses ==> geo.rigid(poses[n]))
    && (forall e :: e in done ==>
          e in edges && e.parent in poses && e.child in poses && geo.fit(e, poses[e.parent], poses[e.child]))
    && (forall e :: e in edges && e !in done ==> e.child !in poses)
  }

  /** Posing one more child where its edge fits. */
  lemma PoseChild(geo: Geometry, root: Name, names: set<Name>, edges: seq<Edge>, rootPose: Pose,
                  poses: map<Name, Pose>, done: set<Edge>, e: Edge, pose: Pose)
    requires Placed(geo, root, names, edges, rootPose, poses, done)
    requires e in edges && e !in done && e.parent in poses && e.child in names
    requires geo.rigid(pose) && geo.fit(e, poses[e.parent], pose)
    requires ChildrenDiffer(edges)
    ensures e.child !in poses
    ensures Placed(geo, root, names, edges, rootPose, poses[e.child := pose], done + {e})
  {
    var poses' := poses[e.child := pose];
    assert e.child !in poses;
    forall d | d in edges && d !in done + {e} ensures d.child !in poses' {
      DistinctChildren(edges, d, e);
    }
  }

  lemma EndsKnown(root: Name, names: set<Name>, edges: seq<Edge>, t: Evidence, e: Edge)
    requires IsTree(root, names, edges, t) && e in edges
    ensures e.parent in names && e.child in names && e.child != root
  {
    var i :| 0 <= i < |edges| && edges[i] == e;
  }

  lemma DistinctChildren(edges: seq<Edge>, d: Edge, e: Edge)
    requires ChildrenDiffer(edges)
    requires d in edges && e in edges && d != e
    ensures d.child != e.child
  {
    var i :| 0 <= i < |edges| && edges[i] == d;
    var j :| 0 <= j < |edges| && edges[j] == e;
    if i < j {
      assert edges[i].child != edges[j].child;
    } else {
      assert edges[j].child != edges[i].child;
    }
  }

  ghost predicate Distinct(s: seq<Name>) {
    forall i, j :: 0 <= i < j < |s| ==> s[i] != s[j]
  }

  ghost function EdgesOf(edges: seq<Edge>, expanded: set<Name>): set<Edge> {
    set e | e in edges && e.parent in expanded
  }

  ghost function Members(s: seq<Name>): set<Name> { set n | n in s }

  /** While one part `current` is expanded: what is posed has been expanded, is current or waits on the stack.
      `order` lists the posed parts once each. */
  ghost predicate Bookkeeping(poses: map<Name, Pose>, stack: seq<Name>, expanded: set<Name>, current: set<Name>,
                              order: seq<Name>) {
    && Distinct(stack) && Distinct(order)
    && poses.Keys == expanded + current + Members(stack)
    && expanded !! current && (forall n :: n in stack ==> n !in expanded && n !in current)
    && poses.Keys == Members(order)
  }

  lemma PushName(poses: map<Name, Pose>, stack: seq<Name>, expanded: set<Name>, current: set<Name>, order: seq<Name>,
                 n: Name, p: Pose)
    requires Bookkeeping(poses, stack, expanded, current, order) && n !in poses
    ensures Bookkeeping(poses[n := p], stack + [n], expanded, current, order + [n])
  {
    assert Members(stack + [n]) == Members(stack) + {n};
    assert Members(order + [n]) == Members(order) + {n};
    assert poses[n := p].Keys == poses.Keys + {n};
    forall m | m in stack ensures m != n { assert m in Members(stack); }
    forall m | m in order ensures m != n { assert m in Members(order); }
  }

  lemma PopName(poses: map<Name, Pose>, stack: seq<Name>, expanded: set<Name>, order: seq<Name>)
    requires stack != [] && Bookkeeping(poses, stack, expanded, {}, order)
    ensures stack[|stack| - 1] in poses && stack[|stack| - 1] !in expanded
    ensures Bookkeeping(poses, stack[..|stack| - 1], expanded, {stack[|stack| - 1]}, order)
  {
    var last := |stack| - 1;
    assert stack[last] in stack;
    assert stack == stack[..last] + [stack[last]];
    assert Members(stack) == Members(stack[..last]) + {stack[last]};
  }

  /** The first k edges as a set. */
  ghost function Front(out: seq<Edge>, k: nat): set<Edge>
    requires k <= |out|
  {
    set e | e in out[..k]
  }

  /** The state after k of the popped part's outgoing edges. */
  ghost predicate Expanding(geo: Geometry, root: Name, names: set<Name>, edges: seq<Edge>, rootPose: Pose,
                            parent: Name, k: nat,
                            poses: map<Name, Pose>, stack: seq<Name>, expanded: set<Name>, order: seq<Name>)
    requires k <= |Leaving(edges, parent)|
  {
    && Placed(geo, root, names, edges, rootPose, poses, EdgesOf(edges, expanded) + Front(Leaving(edges, parent), k))
    && Bookkeeping(poses, stack, expanded, {parent}, order)
  }

  lemma NextLeaving(edges: seq<Edge>, parent: Name, k: nat, expanded: set<Name>)
    requires ChildrenDiffer(edges)
    requires k < |Leaving(edges, parent)| && parent !in expanded
    ensures var out := Leaving(edges, parent); var done := EdgesOf(edges, expanded) + Front(out, k);
      out[k] in edges && out[k].parent == parent && out[k] !in done &&
      EdgesOf(edges, expanded) + Front(out, k + 1) == done + {out[k]}
  {
    var out := Leaving(edges, parent);
    LeavingIsOrdered(edges, parent);
    assert out[k] in out;
    FreshEdge(edges, expanded, parent, out, k);
    FrontGrows(out, k);
  }

  lemma FrontGrows(out: seq<Edge>, k: nat)
    requires k < |out|
    ensures Front(out, k + 1) == Front(out, k) + {out[k]}
  {
    assert out[..k + 1] == out[..k] + [out[k]];
  }

  lemma ExpandStep(geo: Geometry, root: Name, names: set<Name>, edges: seq<Edge>, t: Evidence, rootPose: Pose,
                   parent: Name, k: nat,
                   poses: map<Name, Pose>, stack: seq<Name>, expanded: set<Name>, order: seq<Name>)
    requires IsTree(root, names, edges, t) && Lawful(geo, edges) && k < |Leaving(edges, parent)|
    requires Expanding(geo, root, names, edges, rootPose, parent, k, poses, stack, expanded, order)
    ensures parent in poses
    ensures var edge := Leaving(edges, parent)[k];
      Expanding(geo, root, names, edges, rootPose, parent, k + 1, poses[edge.child := geo.next(edge, poses[parent])],
                stack + [edge.child], expanded, order + [edge.child])
  {
    var edge := Leaving(edges, parent)[k];
    var done := EdgesOf(edges, expanded) + Front(Leaving(edges, parent), k);
    assert parent in poses.Keys;
    NextLeaving(edges, parent, k, expanded);
    EndsKnown(root, names, edges, t, edge);
    PoseChild(geo, root, names, edges, rootPose, poses, done, edge, geo.next(edge, poses[parent]));
    PushName(poses, stack, expanded, {parent}, order, edge.child, geo.next(edge, poses[parent]));
  }

  lemma ExpandEnds(edges: seq<Edge>, parent: Name, expanded: set<Name>)
    ensures var out := Leaving(edges, parent);
      EdgesOf(edges, expanded) + Front(out, 0) == EdgesOf(edges, expanded) &&
      EdgesOf(edges, expanded) + Front(out, |out|) == EdgesOf(edges, expanded + {parent})
  {
    var out := Leaving(edges, parent);
    assert out[..|out|] == out;
  }

  /** The loop over the outgoing edges of one popped part. */
  method Expand(geo: Geometry, ghost root: Name, ghost names: set<Name>, ghost edges: seq<Edge>, ghost t: Evidence,
                ghost rootPose: Pose, parent: Name, out: seq<Edge>, poses: map<Name, Pose>, stack: seq<Name>,
                ghost expanded: set<Name>, ghost order: seq<Name>)
    returns (poses': map<Name, Pose>, stack': seq<Name>, ghost order': seq<Name>)
    requires IsTree(root, names, edges, t) && Lawful(geo, edges) && out == Leaving(edges, parent)
    requires Placed(geo, root, names, edges, rootPose, poses, EdgesOf(edges, expanded))
    requires Bookkeeping(poses, stack, expanded, {parent}, order)
    ensures Placed(geo, root, names, edges, rootPose, poses', EdgesOf(edges, expanded + {parent}))
    ensures Bookkeeping(poses', stack', expanded, {parent}, order')
  {
    poses', stack', order' := poses, stack, order;
    ExpandEnds(edges, parent, expanded);
    for k := 0 to |out|
      invariant Expanding(geo, root, names, edges, rootPose, parent, k, poses', stack', expanded, order')
    {
      var edge := out[k];
      ExpandStep(geo, root, names, edges, t, rootPose, parent, k, poses', stack', expanded, order');
      poses' := poses'[edge.child := geo.next(edge, poses'[parent])];
      stack' := stack' + [edge.child];
      order' := order' + [edge.child];
    }
  }

  lemma FreshEdge(edges: seq<Edge>, expanded: set<Name>, parent: Name, out: seq<Edge>, k: nat)
    requires out == Leaving(edges, parent) && k < |out| && parent !in expanded
    requires ChildrenDiffer(out)
    ensures out[k] !in EdgesOf(edges, expanded) + Front(out, k)
  {
    assert out[k] in out;
  }

  /** Every part of a tree is posed once nothing waits. */
  lemma AllPosed(geo: Geometry, root: Name, names: set<Name>, edges: seq<Edge>, t: Evidence, rootPose: Pose,
                 poses: map<Name, Pose>, n: Name)
    requires IsTree(root, names, edges, t) && n in names
    requires Placed(geo, root, names, edges, rootPose, poses, EdgesOf(edges, poses.Keys))
    ensures n in poses
    decreases t.rank[n]
  {
    if n != root {
      var i := t.hook[n];
      AllPosed(geo, root, names, edges, t, rootPose, poses, edges[i].parent);
      assert edges[i] in edges && edges[i] in EdgesOf(edges, poses.Keys);
    }
  }

  /** A layout: every part has a rigid pose, the root the given one, and every edge fits. */
  ghost predicate IsLayout(geo: Geometry, root: Name, names: set<Name>, edges: seq<Edge>, rootPose: Pose,
                           poses: map<Name, Pose>) {
    && poses.Keys == names && root in poses && poses[root] == rootPose
    && (forall n :: n in poses ==> geo.rigid(poses[n]))
    && (forall e :: e in edges ==> e.parent in poses && e.child in poses && geo.fit(e, poses[e.parent], poses[e.child]))
  }

  /** The stack loop: root poses of all parts, each part posed exactly once. */
  method PoseParts(geo: Geometry, root: Name, names: set<Name>, edges: seq<Edge>, rootPose: Pose, ghost t: Evidence)
    returns (poses: map<Name, Pose>, ghost order: seq<Name>)
    requires IsTree(root, names, edges, t) && Lawful(geo, edges) && geo.rigid(rootPose)
    ensures IsLayout(geo, root, names, edges, rootPose, poses)
    ensures Distinct(order) && Members(order) == names
  {
    var outgoing := Outgoing(edges);
    poses := map[root := rootPose];
    order := [root];
    var stack := [root];
    ghost var expanded: set<Name> := {};
    RootStarts(geo, root, names, edges, t, rootPose);
    while stack != []
      invariant Placed(geo, root, names, edges, rootPose, poses, EdgesOf(edges, expanded))
      invariant Bookkeeping(poses, stack, expanded, {}, order)
      decreases |names - expanded|
    {
      PopName(poses, stack, expanded, order);
      var parent := stack[|stack| - 1];
      stack := stack[..|stack| - 1];
      var out := if parent in outgoing then outgoing[parent] else [];
      assert parent in names - expanded;
      poses, stack, order := Expand(geo, root, names, edges, t, rootPose, parent, out, poses, stack, expanded, order);
      FewerLeft(names, expanded, parent);
      CloseName(poses, stack, expanded, parent, order);
      expanded := expanded + {parent};
    }
    assert expanded == poses.Keys by { assert Members(stack) == {}; }
    Finished(geo, root, names, edges, t, rootPose, poses);
  }

  lemma FewerLeft(names: set<Name>, expanded: set<Name>, n: Name)
    requires n in names - expanded
    ensures |names - (expanded + {n})| < |names - expanded|
  {
    assert names - expanded == (names - (expanded + {n})) + {n};
  }

  lemma CloseName(poses: map<Name, Pose>, stack: seq<Name>, expanded: set<Name>, n: Name, order: seq<Name>)
    requires Bookkeeping(poses, stack, expanded, {n}, order)
    ensures Bookkeeping(poses, stack, expanded + {n}, {}, order)
  {
  }

  lemma Finished(geo: Geometry, root: Name, names: set<Name>, edges: seq<Edge>, t: Evidence, rootPose: Pose,
                 poses: map<Name, Pose>)
    requires IsTree(root, names, edges, t)
    requires Placed(geo, root, names, edges, rootPose, poses, EdgesOf(edges, poses.Keys))
    ensures IsLayout(geo, root, names, edges, rootPose, poses)
  {
    forall n | n in names ensures n in poses {
      AllPosed(geo, root, names, edges, t, rootPose, poses, n);
    }
    forall e | e in edges ensures e in EdgesOf(edges, poses.Keys) {
      EndsKnown(root, names, edges, t, e);
    }
  }

  lemma RootStarts(geo: Geometry, root: Name, names: set<Name>, edges: seq<Edge>, t: Evidence, rootPose: Pose)
    requires IsTree(root, names, edges, t) && geo.rigid(rootPose)
    ensures Placed(geo, root, names, edges, rootPose, map[root := rootPose], EdgesOf(edges, {}))
    ensures Bookkeeping(map[root := rootPose], [root], {}, {}, [root])
  {
    forall e | e in edges ensures e.child != root {
      EndsKnown(root, names, edges, t, e);
    }
  }

  // ----- the assembly's geometry

  /** The parent's outgoing and the child's incoming connector of an edge. */
  function Outward(parts: map<Name, Part>, e: Edge): Connector
    requires e.parent in parts
  {
    parts[e.parent].Get(e.parentTo)
  }

  function Inward(parts: map<Name, Part>, e: Edge): Connector
    requires e.child in parts
  {
    parts[e.child].Get(e.childFrom)
  }

  predicate Known(parts: map<Name, Part>, e: Edge) { e.parent in parts && e.child in parts }

  /** The two connector frames of the edge coincide. */
  predicate FramesMeet(parts: map<Name, Part>, e: Edge, parent: Pose, child: Pose) {
    Known(parts, e) && Compose(parent, Outward(parts, e).pose) == Compose(child, Inward(parts, e).pose)
  }

  function GeometryOf(parts: map<Name, Part>): Geometry {
    Geometry((e: Edge, p: Pose) =>
               if Known(parts, e) then ChildPose(p, Outward(parts, e).pose, Inward(parts, e).pose) else p,
             (e: Edge, p: Pose, c: Pose) => FramesMeet(parts, e, p, c),
             (p: Pose) => Proper(p.r))
  }

  lemma GeometryIsLawful(parts: map<Name, Part>, edges: seq<Edge>)
    requires RigidParts(parts) && forall e :: e in edges ==> Known(parts, e)
    ensures Lawful(GeometryOf(parts), edges)
  {
    var geo := GeometryOf(parts);
    forall e, p | e in edges && geo.rigid(p) ensures geo.fit(e, p, geo.next(e, p)) && geo.rigid(geo.next(e, p)) {
      ChildPoseCoincides(p, Outward(parts, e).pose, Inward(parts, e).pose);
      ChildPoseIsProper(p, Outward(parts, e).pose, Inward(parts, e).pose);
    }
  }

  datatype LayoutResult = LayoutResult(poses: map<Name, Pose>, joints: seq<JointLayout>)

  predicate JointGiven(parts: map<Name, Part>, e: Edge)
    requires e.child in parts
  {
    Inward(parts, e).joint.Some? && Inward(parts, e).joint.value.kind == e.kind
  }

  function JointOf(parts: map<Name, Part>, poses: map<Name, Pose>, e: Edge): JointLayout
    requires Known(parts, e) && e.parent in poses && JointGiven(parts, e)
  {
    var to, at := Outward(parts, e).pose, poses[e.parent];
    JointLayout(e.name, e.kind, e.parent, e.child, Place(at, to.p),
                Apply(Mul(at.r, to.r), Inward(parts, e).joint.value.axis))
  }

  ghost predicate IsJoint(parts: map<Name, Part>, e: Edge, poses: map<Name, Pose>, j: JointLayout) {
    Known(parts, e) && e.parent in poses && JointGiven(parts, e) && j == JointOf(parts, poses, e)
  }

  /** The joint list of a layout, in edge order. */
  ghost predicate AreJoints(parts: map<Name, Part>, edges: seq<Edge>, poses: map<Name, Pose>,
                            joints: seq<JointLayout>) {
    |joints| == |edges| && forall i :: 0 <= i < |edges| ==> IsJoint(parts, edges[i], poses, joints[i])
  }

  ghost predicate AllGiven(parts: map<Name, Part>, edges: seq<Edge>) {
    forall i :: 0 <= i < |edges| ==> edges[i].child in parts && JointGiven(parts, edges[i])
  }

  /** The loop over the edges after the traversal. */
  method BuildJoints(parts: map<Name, Part>, edges: seq<Edge>,
                     poses: map<Name, Pose>) returns (r: Result<seq<JointLayout>>)
    requires forall i :: 0 <= i < |edges| ==> Known(parts, edges[i]) && edges[i].parent in poses
    ensures r.Ok? <==> AllGiven(parts, edges)
    ensures r.Ok? ==> AreJoints(parts, edges, poses, r.value)
  {
    var joints: seq<JointLayout> := [];
    for i := 0 to |edges|
      invariant |joints| == i
      invariant forall k :: 0 <= k < i ==> JointGiven(parts, edges[k]) && IsJoint(parts, edges[k], poses, joints[k])
    {
      var e := edges[i];
      if Inward(parts, e).joint.None? {
        return Error("child connector is missing joint metadata");
      }
      if Inward(parts, e).joint.value.kind != e.kind {
        return Error("joint type mismatch");
      }
      joints := joints + [JointOf(parts, poses, e)];
    }
    r := Ok(joints);
  }

  ghost predicate PlanIsTree(plan: AssemblyPlan, t: Evidence)
    reads plan
  {
    IsTree(plan.root, plan.parts.Keys, plan.edges, t) && RigidParts(plan.parts)
  }

  /** The poses of a plan: the root where it was put, all rotations rigid, all connector frames coinciding. */
  ghost predicate IsAssembled(root: Name, parts: map<Name, Part>, edges: seq<Edge>, rootPose: Pose,
                              poses: map<Name, Pose>) {
    && poses.Keys == parts.Keys && root in poses && poses[root] == rootPose
    && (forall n :: n in poses ==> Proper(poses[n].r))
    && (forall i {:trigger edges[i]} :: 0 <= i < |edges| ==>
          edges[i].parent in poses && edges[i].child in poses &&
          FramesMeet(parts, edges[i], poses[edges[i].parent], poses[edges[i].child]))
  }

  method PoseAssembly(root: Name, parts: map<Name, Part>, edges: seq<Edge>, rootPose: Pose, ghost t: Evidence)
    returns (poses: map<Name, Pose>)
    requires IsTree(root, parts.Keys, edges, t) && RigidParts(parts) && Proper(rootPose.r)
    ensures IsAssembled(root, parts, edges, rootPose, poses)
  {
    forall e | e in edges ensures Known(parts, e) {
      EndsKnown(root, parts.Keys, edges, t, e);
    }
    GeometryIsLawful(parts, edges);
    var geo := GeometryOf(parts);
    assert geo.rigid(rootPose);
    ghost var order;
    poses, order := PoseParts(geo, root, parts.Keys, edges, rootPose, t);
    LayoutAssembles(root, parts, edges, rootPose, poses);
  }

  lemma LayoutAssembles(root: Name, parts: map<Name, Part>, edges: seq<Edge>, rootPose: Pose, poses: map<Name, Pose>)
    requires IsLayout(GeometryOf(parts), root, parts.Keys, edges, rootPose, poses)
    ensures IsAssembled(root, parts, edges, rootPose, poses)
  {
    var geo := GeometryOf(parts);
    forall n | n in poses ensures Proper(poses[n].r) { assert geo.rigid(poses[n]); }
    forall i | 0 <= i < |edges|
      ensures edges[i].parent in poses && edges[i].child in poses
      ensures FramesMeet(parts, edges[i], poses[edges[i].parent], poses[edges[i].child])
    {
      assert edges[i] in edges;
      assert geo.fit(edges[i], poses[edges[i].parent], poses[edges[i].child]);
    }
  }

  /** The child's connector that the edge names. */
  function ChildEnd(parts: map<Name, Part>, e: Edge): Connector
    requires e.child in parts
  {
    if e.childFrom == From then parts[e.child].from else parts[e.child].to
  }

  /** The joint is named as its edge, stands where the parent's and the child's connectors both come to lie, and points
      along the child connector's axis as the child is turned. */
  ghost predicate Stands(parts: map<Name, Part>, e: Edge, poses: map<Name, Pose>, j: JointLayout) {
    && e.child in parts && e.child in poses && e.parent in parts && e.parent in poses && ChildEnd(parts, e).joint.Some?
    && j.name == e.name && j.kind == e.kind && j.parent == e.parent && j.child == e.child
    && var frame := Compose(poses[e.child], ChildEnd(parts, e).pose);
       && j.anchor == frame.p && j.axis == Apply(frame.r, ChildEnd(parts, e).joint.value.axis)
       && frame == Compose(poses[e.parent], if e.parentTo == From then parts[e.parent].from.pose
                                            else parts[e.parent].to.pose)
  }

  lemma JointStands(parts: map<Name, Part>, e: Edge, poses: map<Name, Pose>, j: JointLayout)
    requires IsJoint(parts, e, poses, j) && e.child in poses && FramesMeet(parts, e, poses[e.parent], poses[e.child])
    ensures Stands(parts, e, poses, j)
  {
    assert ChildEnd(parts, e) == Inward(parts, e);
    var frame := Compose(poses[e.parent], Outward(parts, e).pose);
    assert frame == Compose(poses[e.child], Inward(parts, e).pose);
    assert frame.p == Place(poses[e.parent], Outward(parts, e).pose.p);
  }

  ghost predicate AllStand(parts: map<Name, Part>, edges: seq<Edge>, poses: map<Name, Pose>, joints: seq<JointLayout>) {
    |joints| == |edges| && forall i :: 0 <= i < |edges| ==> Stands(parts, edges[i], poses, joints[i])
  }

  lemma JointsStand(root: Name, parts: map<Name, Part>, edges: seq<Edge>, rootPose: Pose, poses: map<Name, Pose>,
                    joints: seq<JointLayout>)
    requires IsAssembled(root, parts, edges, rootPose, poses) && AreJoints(parts, edges, poses, joints)
    ensures AllStand(parts, edges, poses, joints)
  {
    forall i | 0 <= i < |edges| ensures Stands(parts, edges[i], poses, joints[i]) {
      assert IsJoint(parts, edges[i], poses, joints[i]);
      JointStands(parts, edges[i], poses, joints[i]);
    }
  }

  /** The child's connector has a joint of the edge's kind. */
  ghost predicate HasJoint(parts: map<Name, Part>, e: Edge) {
    e.child in parts && ChildEnd(parts, e).joint.Some? && ChildEnd(parts, e).joint.value.kind == e.kind
  }

  lemma GivenIff(parts: map<Name, Part>, edges: seq<Edge>)
    ensures AllGiven(parts, edges) <==> forall i :: 0 <= i < |edges| ==> HasJoint(parts, edges[i])
  {
    forall i | 0 <= i < |edges|
      ensures HasJoint(parts, edges[i]) <==> edges[i].child in parts && JointGiven(parts, edges[i])
    {
      assert edges[i].child in parts ==> ChildEnd(parts, edges[i]) == Inward(parts, edges[i]);
    }
  }

  /** resolve_joint_layout: an error exactly when some child connector lacks its joint or contradicts the edge. */
  method ResolveJointLayout(plan: AssemblyPlan, rootPose: Pose, ghost t: Evidence) returns (r: Result<LayoutResult>)
    requires PlanIsTree(plan, t) && Proper(rootPose.r)
    ensures r.Ok? <==> AllGiven(plan.parts, plan.edges)
    ensures r.Ok? <==> forall i :: 0 <= i < |plan.edges| ==> HasJoint(plan.parts, plan.edges[i])
    ensures r.Ok? ==> IsAssembled(plan.root, plan.parts, plan.edges, rootPose, r.value.poses)
    ensures r.Ok? ==> AreJoints(plan.parts, plan.edges, r.value.poses, r.value.joints)
    ensures r.Ok? ==> AllStand(plan.parts, plan.edges, r.value.poses, r.value.joints)
  {
    var valid := plan.Validate();
    var poses := PoseAssembly(plan.root, plan.parts, plan.edges, rootPose, t);
    var joints := BuildJoints(plan.parts, plan.edges, poses);
    GivenIff(plan.parts, plan.edges);
    match joints {
      case Ok(list) =>
        JointsStand(plan.root, plan.parts, plan.edges, rootPose, poses, list);
        r := Ok(LayoutResult(poses, list));
      case Error(message) => r := Error(message);
    }
  }

  // ----- the two encodings

  /** The URDF joint origin: the child's root pose seen from the parent's. */
  function UrdfOrigin(parent: Pose, child: Pose): Pose {
    var back := Transpose(parent.r);
    Pose(Apply(back, Sub(child.p, parent.p)), Mul(back, child.r))
  }

  /** The IK chain entry: fixed and prismatic children start at their own pose, others at the joint anchor. */
  function IkOrigin(j: JointLayout, parent: Pose, child: Pose): Pose {
    var origin := if j.kind == FixedJoint || j.kind == PrismaticJoint then child.p else j.anchor;
    var back := Transpose(parent.r);
    Pose(Apply(back, Sub(origin, parent.p)), Mul(back, child.r))
  }

  lemma RelativePoseComposes(parent: Pose, p: Vec3, r: Mat)
    requires Orthogonal(parent.r)
    ensures Compose(parent, Pose(Apply(Transpose(parent.r), Sub(p, parent.p)), Mul(Transpose(parent.r), r)))
         == Pose(p, r)
  {
    Undo(parent.r, Sub(p, parent.p));
    UndoMul(parent.r, r);
    Sum(p, parent.p);
  }

  lemma Sum(u: Vec3, v: Vec3)
    ensures Add(v, Sub(u, v)) == u
  {
    assert u == Vec3(u.x, u.y, u.z);
  }

  /** Composing one origin per edge from the root, with every joint at zero. */
  ghost function Compounded(root: Name, names: set<Name>, edges: seq<Edge>, t: Evidence, rootPose: Pose,
                            origins: seq<Pose>, n: Name): Pose
    requires IsTree(root, names, edges, t) && |origins| == |edges| && n in names
    decreases t.rank[n]
  {
    if n == root then rootPose
    else
      var i := t.hook[n];
      Compose(Compounded(root, names, edges, t, rootPose, origins, edges[i].parent), origins[i])
  }

  /** Origins that lead from each parent's pose to its child's rebuild every pose. */
  lemma {:induction false} OriginsRebuild(root: Name, names: set<Name>, edges: seq<Edge>, t: Evidence,
                                          poses: map<Name, Pose>, origins: seq<Pose>, n: Name)
    requires IsTree(root, names, edges, t) && poses.Keys == names && |origins| == |edges| && n in names
    requires forall i :: 0 <= i < |edges| ==> Compose(poses[edges[i].parent], origins[i]) == poses[edges[i].child]
    ensures Compounded(root, names, edges, t, poses[root], origins, n) == poses[n]
    decreases t.rank[n]
  {
    if n != root {
      OriginsRebuild(root, names, edges, t, poses, origins, edges[t.hook[n]].parent);
    }
  }

  lemma HookOfChild(root: Name, names: set<Name>, edges: seq<Edge>, t: Evidence, i: nat)
    requires IsTree(root, names, edges, t) && i < |edges|
    ensures edges[i].child in names && edges[i].child != root && t.hook[edges[i].child] == i
  {
    SameChild(edges, i, t.hook[edges[i].child]);
  }

  lemma SameChild(edges: seq<Edge>, i: nat, j: nat)
    requires ChildrenDiffer(edges) && i < |edges| && j < |edges| && edges[i].child == edges[j].child
    ensures i == j
  {
  }

  /** Conversely, origins that rebuild every pose lead from each parent to its child. */
  lemma RebuiltEdge(root: Name, names: set<Name>, edges: seq<Edge>, t: Evidence, poses: map<Name, Pose>,
                    origins: seq<Pose>, i: nat)
    requires IsTree(root, names, edges, t) && poses.Keys == names && |origins| == |edges| && i < |edges|
    requires forall n :: n in names ==> Compounded(root, names, edges, t, poses[root], origins, n) == poses[n]
    ensures Compose(poses[edges[i].parent], origins[i]) == poses[edges[i].child]
  {
    HookOfChild(root, names, edges, t, i);
    assert Compounded(root, names, edges, t, poses[root], origins, edges[i].child) == poses[edges[i].child];
  }

  function UrdfOrigins(edges: seq<Edge>, poses: map<Name, Pose>): seq<Pose>
    requires forall i {:trigger edges[i]} :: 0 <= i < |edges| ==> edges[i].parent in poses && edges[i].child in poses
  {
    seq(|edges|, i requires 0 <= i < |edges| => UrdfOrigin(poses[edges[i].parent], poses[edges[i].child]))
  }

  function IkOrigins(edges: seq<Edge>, joints: seq<JointLayout>, poses: map<Name, Pose>): seq<Pose>
    requires |joints| == |edges|
    requires forall i {:trigger edges[i]} :: 0 <= i < |edges| ==> edges[i].parent in poses && edges[i].child in poses
  {
    seq(|edges|, i requires 0 <= i < |edges| => IkOrigin(joints[i], poses[edges[i].parent], poses[edges[i].child]))
  }

  /** Composing URDF origins from the root gives every part its root pose back. */
  lemma UrdfRebuildsPoses(root: Name, parts: map<Name, Part>, edges: seq<Edge>, t: Evidence, rootPose: Pose,
                          poses: map<Name, Pose>, n: Name)
    requires IsTree(root, parts.Keys, edges, t) && IsAssembled(root, parts, edges, rootPose, poses) && n in parts
    ensures Compounded(root, parts.Keys, edges, t, rootPose, UrdfOrigins(edges, poses), n) == poses[n]
  {
    var origins := UrdfOrigins(edges, poses);
    forall i | 0 <= i < |edges| ensures Compose(poses[edges[i].parent], origins[i]) == poses[edges[i].child] {
      UrdfEdge(poses[edges[i].parent], poses[edges[i].child]);
    }
    OriginsRebuild(root, parts.Keys, edges, t, poses, origins, n);
  }

  lemma UrdfEdge(parent: Pose, child: Pose)
    requires Orthogonal(parent.r)
    ensures Compose(parent, UrdfOrigin(parent, child)) == child
  {
    RelativePoseComposes(parent, child.p, child.r);
  }

  predicate StartsAtChild(kind: JointKind) { kind == FixedJoint || kind == PrismaticJoint }

  /** An IK entry leads to the child's pose exactly when it starts there or the child hangs by its own origin. */
  lemma IkEdge(parts: map<Name, Part>, e: Edge, j: JointLayout, poses: map<Name, Pose>)
    requires e.child in poses && IsJoint(parts, e, poses, j)
    requires FramesMeet(parts, e, poses[e.parent], poses[e.child])
    requires Orthogonal(poses[e.parent].r) && Orthogonal(poses[e.child].r)
    ensures Compose(poses[e.parent], IkOrigin(j, poses[e.parent], poses[e.child])) == poses[e.child]
       <==> StartsAtChild(e.kind) || Inward(parts, e).pose.p == ORIGIN
  {
    var parent, child := poses[e.parent], poses[e.child];
    var origin := if StartsAtChild(e.kind) then child.p else j.anchor;
    RelativePoseComposes(parent, origin, child.r);
    assert j.anchor == Place(child, Inward(parts, e).pose.p);
    StaysPut(child, Inward(parts, e).pose.p);
  }

  /** A rigid pose puts only its frame's origin at its own position. */
  lemma StaysPut(t: Pose, v: Vec3)
    requires Orthogonal(t.r)
    ensures Place(t, v) == t.p <==> v == ORIGIN
  {
    Undo(t.r, v);
    if Place(t, v) == t.p {
      AddNothing(t.p, Apply(t.r, v));
    }
  }

  lemma AddNothing(u: Vec3, w: Vec3)
    requires Add(u, w) == u
    ensures w == ORIGIN
  {
    assert w == Vec3(w.x, w.y, w.z) && u == Vec3(u.x, u.y, u.z);
  }

  /** The IK chain reproduces all neutral frames exactly when every child that does not start at its own pose, a
      revolute one, has its `from` frame at its origin. */
  lemma IkRebuildsPosesIffNoOffset(root: Name, parts: map<Name, Part>, edges: seq<Edge>, t: Evidence, rootPose: Pose,
                                   poses: map<Name, Pose>, joints: seq<JointLayout>)
    requires IsTree(root, parts.Keys, edges, t) && IsAssembled(root, parts, edges, rootPose, poses)
    requires AreJoints(parts, edges, poses, joints)
    ensures (forall n :: n in parts.Keys ==>
               Compounded(root, parts.Keys, edges, t, rootPose, IkOrigins(edges, joints, poses), n) == poses[n])
       <==> (forall i :: 0 <= i < |edges| ==> StartsAtChild(edges[i].kind) || Inward(parts, edges[i]).pose.p == ORIGIN)
  {
    var origins := IkOrigins(edges, joints, poses);
    forall i | 0 <= i < |edges|
      ensures Compose(poses[edges[i].parent], origins[i]) == poses[edges[i].child]
         <==> StartsAtChild(edges[i].kind) || Inward(parts, edges[i]).pose.p == ORIGIN
    {
      IkEdge(parts, edges[i], joints[i], poses);
    }
    if forall n :: n in parts.Keys ==> Compounded(root, parts.Keys, edges, t, rootPose, origins, n) == poses[n] {
      forall i | 0 <= i < |edges| ensures Compose(poses[edges[i].parent], origins[i]) == poses[edges[i].child] {
        RebuiltEdge(root, parts.Keys, edges, t, poses, origins, i);
      }
    }
    if forall i :: 0 <= i < |edges| ==> Compose(poses[edges[i].parent], origins[i]) == poses[edges[i].child] {
      forall n | n in parts.Keys ensures Compounded(root, parts.Keys, edges, t, rootPose, origins, n) == poses[n] {
        OriginsRebuild(root, parts.Keys, edges, t, poses, origins, n);
      }
    }
  }

  // ----- joint axes

  /** The axis as the URDF writes it, in the child's frame, and as the IK chain keeps it, in the parent's. */
  function UrdfAxis(j: JointLayout, child: Pose): Vec3 { Apply(Transpose(child.r), j.axis) }

  function IkAxis(j: JointLayout, parent: Pose): Vec3 { Apply(Transpose(parent.r), j.axis) }

  /** Both encodings give back the connectors' own axis, and turn into one another by the child's relative rotation. */
  lemma AxesAgree(parts: map<Name, Part>, e: Edge, j: JointLayout, poses: map<Name, Pose>)
    requires e.child in poses && IsJoint(parts, e, poses, j)
    requires FramesMeet(parts, e, poses[e.parent], poses[e.child])
    requires Orthogonal(poses[e.parent].r) && Orthogonal(poses[e.child].r)
    ensures var axis := Inward(parts, e).joint.value.axis;
      UrdfAxis(j, poses[e.child]) == Apply(Inward(parts, e).pose.r, axis) &&
      IkAxis(j, poses[e.parent]) == Apply(Outward(parts, e).pose.r, axis) &&
      IkAxis(j, poses[e.parent]) == Apply(UrdfOrigin(poses[e.parent], poses[e.child]).r, UrdfAxis(j, poses[e.child]))
  {
    var axis := Inward(parts, e).joint.value.axis;
    AxisSeenFrom(poses[e.parent].r, Outward(parts, e).pose.r, axis);
    AxisSeenFrom(poses[e.child].r, Inward(parts, e).pose.r, axis);
    ApplyMul(Transpose(poses[e.parent].r), poses[e.child].r, UrdfAxis(j, poses[e.child]));
    Undo(poses[e.child].r, j.axis);
  }

  lemma AxisSeenFrom(at: Mat, local: Mat, axis: Vec3)
    requires Orthogonal(at)
    ensures Apply(Transpose(at), Apply(Mul(at, local), axis)) == Apply(local, axis)
  {
    ApplyMul(at, local, axis);
    Undo(at, Apply(local, axis));
  }

  // ----- roots

  ghost predicate Hangs(joints: seq<JointLayout>, n: Name) { exists i :: 0 <= i < |joints| && joints[i].child == n }

  ghost predicate IsOnlyRoot(parts: seq<Name>, joints: seq<JointLayout>, root: Name) {
    root in parts && forall n :: n in parts ==> (n == root <==> !Hangs(joints, n))
  }

  ghost predicate OneParentEach(joints: seq<JointLayout>) {
    forall i, j :: 0 <= i < j < |joints| ==> joints[i].child != joints[j].child
  }

  /** The names in the order of their first appearance. */
  function FirstSeen(parts: seq<Name>): seq<Name> {
    if parts == [] then []
    else
      var last := parts[|parts| - 1];
      var rest := FirstSeen(parts[..|parts| - 1]);
      if last in rest then rest else rest + [last]
  }

  /** The first-seen order of a dictionary's keys. */
  method Keys(parts: seq<Name>) returns (keys: seq<Name>)
    ensures Distinct(keys) && Members(keys) == Members(parts)
    ensures keys == FirstSeen(parts)
  {
    keys := [];
    for i := 0 to |parts|
      invariant Distinct(keys) && Members(keys) == Members(parts[..i])
      invariant keys == FirstSeen(parts[..i])
    {
      OneNameMore(parts, i);
      SeenBefore(keys, parts[i]);
      if parts[i] !in keys {
        keys := keys + [parts[i]];
      }
    }
    assert parts[..|parts|] == parts;
  }

  lemma OneNameMore(parts: seq<Name>, i: nat)
    requires i < |parts|
    ensures Members(parts[..i + 1]) == Members(parts[..i]) + {parts[i]}
    ensures var seen := FirstSeen(parts[..i]);
      FirstSeen(parts[..i + 1]) == if parts[i] in seen then seen else seen + [parts[i]]
  {
    assert parts[..i + 1] == parts[..i] + [parts[i]];
    assert parts[..i + 1][..i] == parts[..i];
  }

  lemma SeenBefore(keys: seq<Name>, n: Name)
    requires Distinct(keys)
    ensures n in keys <==> n in Members(keys)
    ensures Members(keys + [n]) == Members(keys) + {n}
    ensures n !in keys ==> Distinct(keys + [n])
  {
  }

  /** The parts without a parent, in key order. */
  method Parentless(keys: seq<Name>, parentOf: map<Name, Name>) returns (roots: seq<Name>)
    requires Distinct(keys)
    ensures Distinct(roots) && forall n :: n in roots <==> n in keys && n !in parentOf
    ensures roots != [] ==>
      exists i :: 0 <= i < |keys| && keys[i] == roots[0] && forall k :: 0 <= k < i ==> keys[k] in parentOf
  {
    roots := [];
    for i := 0 to |keys|
      invariant Distinct(roots) && forall n :: n in roots <==> n in keys[..i] && n !in parentOf
      invariant roots == [] ==> forall k :: 0 <= k < i ==> keys[k] in parentOf
      invariant roots != [] ==>
        exists m :: 0 <= m < i && keys[m] == roots[0] && forall k :: 0 <= k < m ==> keys[k] in parentOf
    {
      assert keys[..i + 1] == keys[..i] + [keys[i]];
      if keys[i] !in parentOf {
        roots := roots + [keys[i]];
      }
    }
    assert keys[..|keys|] == keys;
  }

  /** load_dict's tree check. */
  method LoadDict(parts: seq<Name>, joints: seq<JointLayout>) returns (r: Result<Name>)
    ensures r.Ok? <==> OneParentEach(joints) && exists root :: IsOnlyRoot(parts, joints, root)
    ensures r.Ok? ==> IsOnlyRoot(parts, joints, r.value)
  {
    var keys := Keys(parts);
    assert forall n :: n in keys <==> n in parts by {
      assert forall n :: (n in keys <==> n in Members(keys)) && (n in parts <==> n in Members(parts));
    }
    if keys == [] {
      return Error("parts is empty");
    }
    var parentOf: map<Name, Name> := map[];
    for i := 0 to |joints|
      invariant OneParentEach(joints[..i])
      invariant forall n :: n in parentOf <==> Hangs(joints[..i], n)
    {
      if joints[i].child in parentOf {
        ghost var k :| 0 <= k < i && joints[k].child == joints[i].child;
        return Error("child has multiple parents");
      }
      HangsNext(joints[..i], joints[i]);
      assert joints[..i + 1] == joints[..i] + [joints[i]];
      parentOf := parentOf[joints[i].child := joints[i].parent];
    }
    assert joints[..|joints|] == joints;
    var roots := Parentless(keys, parentOf);
    if |roots| != 1 {
      if root :| IsOnlyRoot(parts, joints, root) {
        OneLeft(roots, root);
      }
      return Error("expected exactly 1 root link");
    }
    assert roots[0] in roots;
    assert IsOnlyRoot(parts, joints, roots[0]);
    r := Ok(roots[0]);
  }

  lemma OneLeft(roots: seq<Name>, root: Name)
    requires Distinct(roots) && forall n :: n in roots <==> n == root
    ensures |roots| == 1
  {
    assert root in roots;
    assert |roots| > 1 ==> roots[0] != roots[1];
    forall i | 0 <= i < |roots| ensures roots[i] == root { assert roots[i] in roots; }
  }

  lemma HangsNext(joints: seq<JointLayout>, j: JointLayout)
    ensures forall n :: Hangs(joints + [j], n) <==> Hangs(joints, n) || n == j.child
  {
    var all := joints + [j];
    forall n ensures Hangs(all, n) <==> Hangs(joints, n) || n == j.child {
      if Hangs(joints, n) {
        var k :| 0 <= k < |joints| && joints[k].child == n;
        assert all[k].child == n;
      }
      assert all[|joints|] == j;
      if Hangs(all, n) {
        var k :| 0 <= k < |all| && all[k].child == n;
        assert k < |joints| ==> joints[k].child == n;
      }
    }
  }

  /** The joints that build_solver_context reads: those with both ends named. */
  function Named(joints: seq<JointLayout>): seq<JointLayout> {
    if joints == [] then []
    else
      var last := joints[|joints| - 1];
      var rest := Named(joints[..|joints| - 1]);
      if last.parent != "" && last.child != "" then rest + [last] else rest
  }

  lemma {:induction false} AllNamed(joints: seq<JointLayout>)
    requires forall i :: 0 <= i < |joints| ==> joints[i].parent != "" && joints[i].child != ""
    ensures Named(joints) == joints
  {
    if joints != [] {
      AllNamed(joints[..|joints| - 1]);
    }
  }

  /** The first name that hangs on no joint. */
  ghost predicate IsFirstRoot(keys: seq<Name>, joints: seq<JointLayout>, root: Name) {
    exists i ::
      0 <= i < |keys| && keys[i] == root && !Hangs(joints, root) && forall k :: 0 <= k < i ==> Hangs(joints, keys[k])
  }

  /** The part is the child of some joint with both ends named. */
  ghost predicate Below(joints: seq<JointLayout>, n: Name) {
    n != "" && exists k :: 0 <= k < |joints| && joints[k].parent != "" && joints[k].child == n
  }

  lemma {:induction false} HangsNamed(joints: seq<JointLayout>, n: Name)
    ensures Hangs(Named(joints), n) <==> Below(joints, n)
  {
    if joints != [] {
      var m := |joints| - 1;
      HangsNamed(joints[..m], n);
      HangsNext(Named(joints[..m]), joints[m]);
      assert forall k :: 0 <= k < m ==> joints[..m][k] == joints[k];
    }
  }

  /** The place where a name is first seen comes after those of names seen earlier. */
  lemma {:induction false} FirstSeenPlace(parts: seq<Name>, i: nat) returns (p: nat)
    requires i < |FirstSeen(parts)|
    ensures p < |parts| && parts[p] == FirstSeen(parts)[i]
    ensures forall k :: 0 <= k < p ==> parts[k] in FirstSeen(parts)[..i]
  {
    var n := |parts| - 1;
    var before := FirstSeen(parts[..n]);
    if i < |before| {
      p := FirstSeenPlace(parts[..n], i);
      assert FirstSeen(parts)[..i] == before[..i];
      assert forall k :: 0 <= k < n ==> parts[..n][k] == parts[k];
    } else {
      p := n;
      forall k | 0 <= k < p ensures parts[k] in before { SeenIsListed(parts[..n], k); }
      assert FirstSeen(parts)[..i] == before;
    }
  }

  lemma {:induction false} SeenIsListed(parts: seq<Name>, k: nat)
    requires k < |parts|
    ensures parts[k] in FirstSeen(parts)
  {
    if k < |parts| - 1 {
      SeenIsListed(parts[..|parts| - 1], k);
    }
  }

  /** The first listed part that is below no other. */
  ghost predicate IsTop(parts: seq<Name>, joints: seq<JointLayout>, root: Name) {
    exists i :: 0 <= i < |parts| && parts[i] == root && !Below(joints, root)
                && forall k :: 0 <= k < i ==> Below(joints, parts[k])
  }

  lemma FirstIsTop(parts: seq<Name>, joints: seq<JointLayout>, root: Name)
    requires IsFirstRoot(FirstSeen(parts), Named(joints), root)
    ensures IsTop(parts, joints, root)
  {
    var keys := FirstSeen(parts);
    var i :| 0 <= i < |keys| && keys[i] == root && forall k :: 0 <= k < i ==> Hangs(Named(joints), keys[k]);
    var p := FirstSeenPlace(parts, i);
    HangsNamed(joints, root);
    forall k | 0 <= k < p ensures Below(joints, parts[k]) {
      assert parts[k] in keys[..i];
      var m :| 0 <= m < |keys[..i]| && keys[..i][m] == parts[k];
      HangsNamed(joints, keys[m]);
    }
  }

  /** build_solver_context's root: the first part without a parent; a later joint may overwrite a child's parent. */
  method FkRoot(parts: seq<Name>, joints: seq<JointLayout>) returns (r: Result<Name>)
    ensures r.Ok? <==> exists n :: n in parts && !Below(joints, n)
    ensures r.Ok? ==> IsTop(parts, joints, r.value)
    ensures r.Ok? <==> exists n :: n in parts && !Hangs(Named(joints), n)
    ensures r.Ok? ==> r.value in parts && !Hangs(Named(joints), r.value)
    ensures r.Ok? ==> IsFirstRoot(FirstSeen(parts), Named(joints), r.value)
  {
    var keys := Keys(parts);
    assert forall n :: n in keys <==> n in parts by {
      assert forall n :: (n in keys <==> n in Members(keys)) && (n in parts <==> n in Members(parts));
    }
    var parentOf: map<Name, Name> := map[];
    for i := 0 to |joints|
      invariant forall n :: n in parentOf <==> Hangs(Named(joints[..i]), n)
    {
      assert joints[..i + 1][..i] == joints[..i];
      if joints[i].parent != "" && joints[i].child != "" {
        HangsNext(Named(joints[..i]), joints[i]);
        parentOf := parentOf[joints[i].child := joints[i].parent];
      }
    }
    assert joints[..|joints|] == joints;
    var roots := Parentless(keys, parentOf);
    forall n ensures Hangs(Named(joints), n) <==> Below(joints, n) { HangsNamed(joints, n); }
    if roots == [] {
      return Error("manifest json does not provide a root link");
    }
    assert roots[0] in roots;
    FirstIsTop(parts, joints, roots[0]);
    r := Ok(roots[0]);
  }

  /** Both readers of the manifest find the plan's root, and only it. */
  lemma TreeHasOneRoot(root: Name, parts: map<Name, Part>, edges: seq<Edge>, t: Evidence, poses: map<Name, Pose>,
                       listed: seq<Name>, joints: seq<JointLayout>)
    requires IsTree(root, parts.Keys, edges, t) && AreJoints(parts, edges, poses, joints)
    requires Members(listed) == parts.Keys
    ensures OneParentEach(joints) && IsOnlyRoot(listed, joints, root)
    ensures forall other :: IsOnlyRoot(listed, joints, other) ==> other == root
    ensures "" !in parts ==> forall n :: n in listed && !Hangs(Named(joints), n) ==> n == root
  {
    assert forall i ::
      0 <= i < |edges| ==> IsJoint(parts, edges[i], poses, joints[i]) && joints[i].child == edges[i].child;
    forall n | n in listed ensures n in parts.Keys { assert n in Members(listed); }
    assert root in Members(listed);
    forall n | n in listed && n != root ensures Hangs(joints, n) {
      assert joints[t.hook[n]].child == n;
    }
    if "" !in parts {
      AllNamed(joints);
    }
  }
}
