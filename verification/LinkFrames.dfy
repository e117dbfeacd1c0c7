/** Forward kinematics over a chain of joint entries: one loop in list order, shared by the pilot
    (payload/runtime/docker/pilot/app/elesim_pilot/robot/arm/iklib/kinematics.py) and the simulator
    (payload/runtime/docker/sim/app/elesim_sim/runtime.py), and the two chains it is given. */
module LinkFrames {
  import opened Spatial
  import opened Trigonometry
  import opened Rotations
  import opened Layout

  /** A chain entry: where the child's frame starts, its joint's axis and its own turn, as the reader took them. */
  datatype Entry = Entry(name: string, kind: JointKind, parent: Name, child: Name, origin: Vec3, axis: Vec3, turn: Mat)

  type Frames = map<Name, Pose>

  function Value(q: map<string, real>, name: string): real { if name in q then q[name] else 0.0 }

  /** The child's frame in its parent's: the joint moves before the child's own turn. */
  function Stepped(g: Trig, kind: JointKind, origin: Vec3, axis: Vec3, turn: Mat, q: real): Pose {
    match kind
    case PrismaticJoint => Pose(Add(origin, Scale(q, axis)), turn)
    case RevoluteJoint => Pose(origin, Mul(AxisRotation(g, axis, q), turn))
    case _ => Pose(origin, turn)
  }

  function Moved(g: Trig, e: Entry, q: map<string, real>): Pose {
    Stepped(g, e.kind, e.origin, e.axis, e.turn, Value(q, e.name))
  }

  // ----- the loop

  /** Where a child is put, given its parent's frame. */
  type Hang = (Pose, Entry) -> Pose

  function Motion(g: Trig, q: map<string, real>): Entry -> Pose { (e: Entry) => Moved(g, e, q) }

  function Hanging(motion: Entry -> Pose): Hang { (at: Pose, e: Entry) => Compose(at, motion(e)) }

  function Link(hang: Hang, tf: Frames, e: Entry): Frames {
    if e.parent in tf then tf[e.child := hang(tf[e.parent], e)] else tf
  }

  function Linked(hang: Hang, chain: seq<Entry>, tf: Frames): Frames {
    if chain == [] then tf else Link(hang, Linked(hang, chain[..|chain| - 1], tf), chain[|chain| - 1])
  }

  /** The loop's three branches. */
  method HangEntry(g: Trig, e: Entry, value: real, at: Pose) returns (child: Pose)
    ensures forall q :: Value(q, e.name) == value ==> child == Hanging(Motion(g, q))(at, e)
  {
    match e.kind {
      case PrismaticJoint =>
        child := Pose(Place(at, Add(e.origin, Scale(value, e.axis))), Mul(at.r, e.turn));
      case RevoluteJoint =>
        MulAssociative(at.r, AxisRotation(g, e.axis, value), e.turn);
        child := Pose(Place(at, e.origin), Mul(Mul(at.r, AxisRotation(g, e.axis, value)), e.turn));
      case _ =>
        child := Pose(Place(at, e.origin), Mul(at.r, e.turn));
    }
  }

  method ForwardLinks(g: Trig, root: Name, start: Pose, chain: seq<Entry>, q: map<string, real>) returns (tf: Frames)
    ensures tf == Linked(Hanging(Motion(g, q)), chain, map[root := start])
  {
    tf := map[root := start];
    for i := 0 to |chain|
      invariant tf == Linked(Hanging(Motion(g, q)), chain[..i], map[root := start])
    {
      assert chain[..i + 1][..i] == chain[..i];
      var e := chain[i];
      if e.parent !in tf {
        continue;
      }
      var child := HangEntry(g, e, Value(q, e.name), tf[e.parent]);
      tf := tf[e.child := child];
    }
    assert chain[..|chain|] == chain;
  }

  /** No entry leads to the root and no two to the same child. */
  ghost predicate OwnChildren(root: Name, chain: seq<Entry>) {
    && (forall i :: 0 <= i < |chain| ==> chain[i].child != root)
    && (forall i, j :: 0 <= i < j < |chain| ==> chain[i].child != chain[j].child)
  }

  /** The entry hangs on the root or on the child of an entry before it. */
  ghost predicate HangsEarlier(root: Name, chain: seq<Entry>, i: nat)
    requires i < |chain|
  {
    chain[i].parent == root || exists k :: 0 <= k < i && chain[k].child == chain[i].parent
  }

  ghost predicate HasChild(chain: seq<Entry>, n: Name) { exists i :: 0 <= i < |chain| && chain[i].child == n }

  ghost predicate Hung(hang: Hang, tf: Frames, e: Entry) {
    e.child in tf && e.parent in tf && tf[e.child] == hang(tf[e.parent], e)
  }

  /** Every placed part is the root or hangs on a placed one; an entry is skipped exactly when its parent is not placed
      or comes later. */
  ghost predicate Consistent(hang: Hang, root: Name, start: Pose, chain: seq<Entry>, tf: Frames) {
    && root in tf && tf[root] == start
    && (forall n :: n in tf && n != root ==> HasChild(chain, n))
    && (forall i :: 0 <= i < |chain| && chain[i].child in tf ==> Hung(hang, tf, chain[i]))
    && (forall i {:trigger HangsEarlier(root, chain, i)} ::
          0 <= i < |chain| ==> (chain[i].child in tf <==> chain[i].parent in tf && HangsEarlier(root, chain, i)))
  }

  lemma {:induction false} LinkedIsConsistent(hang: Hang, root: Name, start: Pose, chain: seq<Entry>)
    requires OwnChildren(root, chain)
    ensures Consistent(hang, root, start, chain, Linked(hang, chain, map[root := start]))
  {
    if chain != [] {
      LinkedIsConsistent(hang, root, start, chain[..|chain| - 1]);
      LinkKeepsConsistent(hang, root, start, chain, Linked(hang, chain[..|chain| - 1], map[root := start]));
    }
  }

  lemma LinkKeepsConsistent(hang: Hang, root: Name, start: Pose, chain: seq<Entry>, tf: Frames)
    requires chain != [] && OwnChildren(root, chain)
    requires Consistent(hang, root, start, chain[..|chain| - 1], tf)
    ensures Consistent(hang, root, start, chain, Link(hang, tf, chain[|chain| - 1]))
  {
    var last, front := |chain| - 1, chain[..|chain| - 1];
    var e, tf' := chain[last], Link(hang, tf, chain[last]);
    LastIsNew(hang, root, start, chain, tf);
    forall i | 0 <= i < |chain| && chain[i].child in tf' ensures Hung(hang, tf', chain[i]) {
      if i < last {
        assert front[i] == chain[i];
        StaysHung(hang, tf, e, front[i]);
      }
    }
    forall i | 0 <= i < |chain|
      ensures chain[i].child in tf' <==> chain[i].parent in tf' && HangsEarlier(root, chain, i)
    {
      assert e.parent in tf' ==> e.parent == e.child || e.parent in tf;
      if i < last {
        EarlierInFront(root, chain, i);
        assert front[i] == chain[i];
      }
    }
  }

  lemma EarlierInFront(root: Name, chain: seq<Entry>, i: nat)
    requires i < |chain| - 1 && OwnChildren(root, chain)
    ensures HangsEarlier(root, chain, i) == HangsEarlier(root, chain[..|chain| - 1], i)
    ensures HangsEarlier(root, chain, i) ==> chain[i].parent != chain[|chain| - 1].child
  {
    var front := chain[..|chain| - 1];
    assert forall k {:trigger chain[k]} :: 0 <= k <= i ==> front[k] == chain[k];
  }

  lemma LastIsNew(hang: Hang, root: Name, start: Pose, chain: seq<Entry>, tf: Frames)
    requires chain != [] && OwnChildren(root, chain)
    requires Consistent(hang, root, start, chain[..|chain| - 1], tf)
    ensures chain[|chain| - 1].child !in tf
    ensures forall n :: n in Link(hang, tf, chain[|chain| - 1]) && n != root ==>
      HasChild(chain, n)
    ensures chain[|chain| - 1].parent in tf <==>
      HangsEarlier(root, chain, |chain| - 1) && chain[|chain| - 1].parent in Link(hang, tf, chain[|chain| - 1])
  {
    var last, front := |chain| - 1, chain[..|chain| - 1];
    var e := chain[last];
    forall n | n in tf && n != root ensures exists i :: 0 <= i < last && chain[i].child == n {
      assert HasChild(front, n);
      var i :| 0 <= i < |front| && front[i].child == n;
      assert chain[i].child == n;
    }
    assert chain[last].child == e.child;
  }

  lemma StaysHung(hang: Hang, tf: Frames, e: Entry, d: Entry)
    requires e.child !in tf && Hung(hang, tf, d)
    ensures Hung(hang, Link(hang, tf, e), d)
  {
  }

  /** Every child is placed exactly when parents come first. */
  lemma AllPlacedIffParentsFirst(hang: Hang, root: Name, start: Pose, chain: seq<Entry>, tf: Frames)
    requires Consistent(hang, root, start, chain, tf)
    ensures (forall i :: 0 <= i < |chain| ==> chain[i].child in tf)
       <==> (forall i :: 0 <= i < |chain| ==> HangsEarlier(root, chain, i))
  {
    if forall i :: 0 <= i < |chain| ==> HangsEarlier(root, chain, i) {
      forall i | 0 <= i < |chain| ensures chain[i].child in tf {
        PlacedInTurn(hang, root, start, chain, tf, i);
      }
    }
  }

  lemma PlacedInTurn(hang: Hang, root: Name, start: Pose, chain: seq<Entry>, tf: Frames, i: nat)
    requires Consistent(hang, root, start, chain, tf) && i < |chain|
    requires forall k :: 0 <= k <= i ==> HangsEarlier(root, chain, k)
    ensures chain[i].child in tf
  {
    assert HangsEarlier(root, chain, i);
    if chain[i].parent != root {
      var k :| 0 <= k < i && chain[k].child == chain[i].parent;
      PlacedInTurn(hang, root, start, chain, tf, k);
    }
  }

  // ----- the two chains

  /** Who builds the chain: the pilot's solver context (context_builder.py) or the simulator (runtime.py). */
  datatype Reader = Pilot | Simulator

  function PoseOf(poses: Frames, n: Name): Pose { if n in poses then poses[n] else Pose(ORIGIN, IDENTITY) }

  /** The pilot turns origin and axis into the parent's frame; the simulator leaves both as the root sees them and
      starts every child at the joint's anchor. */
  function EntryOf(reader: Reader, j: JointLayout, parent: Pose, child: Pose): (e: Entry)
    ensures e.name == j.name && e.kind == j.kind && e.parent == j.parent && e.child == j.child
  {
    match reader
    case Pilot =>
      var at := IkOrigin(j, parent, child);
      Entry(j.name, j.kind, j.parent, j.child, at.p, IkAxis(j, parent), at.r)
    case Simulator =>
      Entry(j.name, j.kind, j.parent, j.child, Sub(j.anchor, parent.p), j.axis, Mul(Transpose(parent.r), child.r))
  }

  /** How a reader turns the manifest's joints into entries. */
  function Reading(reader: Reader, poses: Frames): JointLayout -> Entry {
    (j: JointLayout) => EntryOf(reader, j, PoseOf(poses, j.parent), PoseOf(poses, j.child))
  }

  ghost predicate KeepsNames(entry: JointLayout -> Entry) {
    forall j {:trigger entry(j)} :: entry(j).name == j.name && entry(j).parent == j.parent && entry(j).child == j.child
  }

  lemma ReadingKeepsNames(reader: Reader, poses: Frames)
    ensures KeepsNames(Reading(reader, poses))
  {
    var entry := Reading(reader, poses);
    forall j ensures entry(j).name == j.name && entry(j).parent == j.parent && entry(j).child == j.child {
      ReadingAt(reader, poses, j);
    }
  }

  lemma ReadingAt(reader: Reader, poses: Frames, j: JointLayout)
    ensures var e := Reading(reader, poses)(j);
      (e.name == j.name && e.kind == j.kind && e.parent == j.parent && e.child == j.child)
  {
  }

  /** One entry per joint. */
  function Each(entry: JointLayout -> Entry, joints: seq<JointLayout>): seq<Entry> {
    seq(|joints|, i requires 0 <= i < |joints| => entry(joints[i]))
  }

  predicate Listed(reader: Reader, name: string, parent: Name, child: Name) {
    name != "" && (reader == Pilot ==> parent != "" && child != "")
  }

  predicate Kept(reader: Reader, e: Entry) { Listed(reader, e.name, e.parent, e.child) }

  /** The entries that are not skipped. */
  function Chain(reader: Reader, entries: seq<Entry>): seq<Entry> {
    if entries == [] then []
    else
      var last := entries[|entries| - 1];
      var rest := Chain(reader, entries[..|entries| - 1]);
      if Kept(reader, last) then rest + [last] else rest
  }

  /** build_solver_context's entry of one joint. */
  method SolverEntry(j: JointLayout, parent: Pose, child: Pose) returns (e: Entry)
    ensures e == EntryOf(Pilot, j, parent, child)
  {
    var back := Transpose(parent.r);
    var origin := if j.kind == FixedJoint || j.kind == PrismaticJoint then child.p else j.anchor;
    e := Entry(j.name, j.kind, j.parent, j.child, Apply(back, Sub(origin, parent.p)), Apply(back, j.axis),
               Mul(back, child.r));
  }

  /** The simulator's entry of one joint. */
  method SimulatorEntry(j: JointLayout, parent: Pose, child: Pose) returns (e: Entry)
    ensures e == EntryOf(Simulator, j, parent, child)
  {
    e := Entry(j.name, j.kind, j.parent, j.child, Sub(j.anchor, parent.p), j.axis, Mul(Transpose(parent.r), child.r));
  }

  method JointEntry(reader: Reader, poses: Frames, j: JointLayout) returns (e: Entry)
    ensures e == Reading(reader, poses)(j)
  {
    match reader {
      case Pilot => e := SolverEntry(j, PoseOf(poses, j.parent), PoseOf(poses, j.child));
      case Simulator => e := SimulatorEntry(j, PoseOf(poses, j.parent), PoseOf(poses, j.child));
    }
  }

  lemma OneJointMore(reader: Reader, entry: JointLayout -> Entry, joints: seq<JointLayout>, i: nat)
    requires i < |joints| && KeepsNames(entry)
    ensures Chain(reader, Each(entry, joints[..i + 1])) ==
            if Listed(reader, joints[i].name, joints[i].parent, joints[i].child)
              then Chain(reader, Each(entry, joints[..i])) + [entry(joints[i])]
              else Chain(reader, Each(entry, joints[..i]))
  {
    assert Each(entry, joints[..i + 1])[..i] == Each(entry, joints[..i]);
  }

  /** The loops of build_solver_context and of the simulator over the manifest's joints. */
  method BuildChain(reader: Reader, poses: Frames, joints: seq<JointLayout>) returns (chain: seq<Entry>)
    ensures chain == Chain(reader, Each(Reading(reader, poses), joints))
  {
    chain := [];
    ghost var entry := Reading(reader, poses);
    ReadingKeepsNames(reader, poses);
    for i := 0 to |joints|
      invariant chain == Chain(reader, Each(entry, joints[..i]))
    {
      OneJointMore(reader, entry, joints, i);
      var j := joints[i];
      if !Listed(reader, j.name, j.parent, j.child) {
        continue;
      }
      var e := JointEntry(reader, poses, j);
      chain := chain + [e];
    }
    assert joints[..|joints|] == joints;
  }

  /** Where each reader puts the root: the simulator drops the root's own rotation. */
  function RootFrame(reader: Reader, base: Pose, root: Pose): Pose {
    match reader
    case Pilot => Compose(base, root)
    case Simulator => Pose(Place(base, root.p), base.r)
  }

  /** Building the chain and following it. */
  method LinkTransforms(g: Trig, reader: Reader, root: Name, base: Pose, poses: Frames, joints: seq<JointLayout>,
                        q: map<string, real>) returns (tf: Frames)
    requires root in poses
    ensures tf == Framed(Hanging(Motion(g, q)), reader, root, RootFrame(reader, base, poses[root]),
                         Each(Reading(reader, poses), joints))
  {
    var chain := BuildChain(reader, poses, joints);
    tf := ForwardLinks(g, root, RootFrame(reader, base, poses[root]), chain, q);
  }

  // ----- the chain of a tree

  lemma {:induction false} ChainOfEntries(reader: Reader, entries: seq<Entry>, k: nat)
    requires k < |Chain(reader, entries)|
    ensures exists i :: 0 <= i < |entries| && Kept(reader, entries[i]) && Chain(reader, entries)[k] == entries[i]
  {
    var n, rest := |entries| - 1, Chain(reader, entries[..|entries| - 1]);
    if k < |rest| {
      ChainOfEntries(reader, entries[..n], k);
      var i :| 0 <= i < n && Kept(reader, entries[..n][i]) && rest[k] == entries[..n][i];
      assert entries[..n][i] == entries[i];
    } else {
      assert Kept(reader, entries[n]);
    }
  }

  ghost predicate AllKept(reader: Reader, entries: seq<Entry>) {
    forall i :: 0 <= i < |entries| ==> Kept(reader, entries[i])
  }

  lemma {:induction false} KeptChain(reader: Reader, entries: seq<Entry>)
    requires AllKept(reader, entries)
    ensures Chain(reader, entries) == entries
  {
    if entries != [] {
      KeptChain(reader, entries[..|entries| - 1]);
    }
  }

  lemma {:induction false} ChainHasOwnChildren(reader: Reader, root: Name, entries: seq<Entry>)
    requires OwnChildren(root, entries)
    ensures OwnChildren(root, Chain(reader, entries))
  {
    if entries != [] {
      var n, rest := |entries| - 1, Chain(reader, entries[..|entries| - 1]);
      ChainHasOwnChildren(reader, root, entries[..n]);
      forall k | 0 <= k < |rest| ensures rest[k].child != entries[n].child {
        ChainOfEntries(reader, entries[..n], k);
      }
    }
  }

  /** The entries follow a tree edge by edge. */
  ghost predicate Follow(edges: seq<Edge>, entries: seq<Entry>) {
    |entries| == |edges| && forall i :: 0 <= i < |edges| ==>
      entries[i].parent == edges[i].parent && entries[i].child == edges[i].child && entries[i].name == edges[i].name
  }

  /** No joint is skipped for an empty name. */
  ghost predicate AllListed(reader: Reader, edges: seq<Edge>) {
    forall i :: 0 <= i < |edges| ==> Listed(reader, edges[i].name, edges[i].parent, edges[i].child)
  }

  /** Every joint hangs on the root or on the child of a joint listed before it. */
  ghost predicate ParentsFirst(root: Name, edges: seq<Edge>) {
    forall i {:trigger edges[i]} :: 0 <= i < |edges| ==>
      edges[i].parent == root || exists k :: 0 <= k < i && edges[k].child == edges[i].parent
  }

  /** The frames the loop arrives at. */
  function Framed(hang: Hang, reader: Reader, root: Name, start: Pose, entries: seq<Entry>): Frames {
    Linked(hang, Chain(reader, entries), map[root := start])
  }

  lemma TreeChain(hang: Hang, reader: Reader, root: Name, names: set<Name>, edges: seq<Edge>,
                  t: Evidence, start: Pose, entries: seq<Entry>)
    requires IsTree(root, names, edges, t) && Follow(edges, entries)
    ensures Consistent(hang, root, start, Chain(reader, entries), Framed(hang, reader, root, start, entries))
  {
    assert OwnChildren(root, entries);
    ChainHasOwnChildren(reader, root, entries);
    LinkedIsConsistent(hang, root, start, Chain(reader, entries));
  }

  /** A placed part other than the root was placed by the kept entry of its own edge. */
  lemma PlacedByHook(hang: Hang, reader: Reader, root: Name, names: set<Name>, edges: seq<Edge>,
                     t: Evidence, start: Pose, entries: seq<Entry>, n: Name)
    requires IsTree(root, names, edges, t) && Follow(edges, entries)
    requires n in Framed(hang, reader, root, start, entries) && n != root
    ensures n in names && Kept(reader, entries[t.hook[n]])
    ensures Hung(hang, Framed(hang, reader, root, start, entries), entries[t.hook[n]])
  {
    var chain, tf := Chain(reader, entries), Framed(hang, reader, root, start, entries);
    TreeChain(hang, reader, root, names, edges, t, start, entries);
    var k :| 0 <= k < |chain| && chain[k].child == n;
    ChainOfEntries(reader, entries, k);
    var i :| 0 <= i < |entries| && Kept(reader, entries[i]) && chain[k] == entries[i];
    HookOfChild(root, names, edges, t, i);
  }

  lemma PlacedIsNamed(hang: Hang, reader: Reader, root: Name, names: set<Name>, edges: seq<Edge>, t: Evidence,
                      start: Pose, entries: seq<Entry>)
    requires IsTree(root, names, edges, t) && Follow(edges, entries)
    ensures Framed(hang, reader, root, start, entries).Keys <= names
  {
    forall n | n in Framed(hang, reader, root, start, entries) ensures n in names {
      if n != root {
        PlacedByHook(hang, reader, root, names, edges, t, start, entries, n);
      }
    }
  }

  /** The loop places every part exactly when every joint is kept and listed after its parent's. */
  lemma PlacesAllParts(hang: Hang, reader: Reader, root: Name, names: set<Name>, edges: seq<Edge>,
                       t: Evidence, start: Pose, entries: seq<Entry>)
    requires IsTree(root, names, edges, t) && Follow(edges, entries)
    ensures Framed(hang, reader, root, start, entries).Keys == names
       <==> AllListed(reader, edges) && ParentsFirst(root, edges)
  {
    var tf := Framed(hang, reader, root, start, entries);
    TreeChain(hang, reader, root, names, edges, t, start, entries);
    PlacedIsNamed(hang, reader, root, names, edges, t, start, entries);
    if tf.Keys == names {
      forall i | 0 <= i < |entries| ensures Kept(reader, entries[i]) {
        HookOfChild(root, names, edges, t, i);
        PlacedByHook(hang, reader, root, names, edges, t, start, entries, edges[i].child);
      }
      assert AllListed(reader, edges) by { assert forall i :: 0 <= i < |edges| ==> Kept(reader, entries[i]); }
    }
    if AllListed(reader, edges) {
      KeptChain(reader, entries);
      AllPlacedIffParentsFirst(hang, root, start, entries, tf);
      FollowParentsFirst(root, edges, entries);
      KeysAreChildren(root, names, edges, t, entries, tf);
    }
  }

  lemma FollowParentsFirst(root: Name, edges: seq<Edge>, entries: seq<Entry>)
    requires Follow(edges, entries)
    ensures ParentsFirst(root, edges) <==> forall i :: 0 <= i < |entries| ==> HangsEarlier(root, entries, i)
  {
    forall i | 0 <= i < |entries|
      ensures HangsEarlier(root, entries, i)
         <==> edges[i].parent == root || exists k :: 0 <= k < i && edges[k].child == edges[i].parent
    {
      if k :| 0 <= k < i && edges[k].child == edges[i].parent {
        assert entries[k].child == entries[i].parent;
      }
    }
  }

  lemma KeysAreChildren(root: Name, names: set<Name>, edges: seq<Edge>, t: Evidence, entries: seq<Entry>, tf: Frames)
    requires IsTree(root, names, edges, t) && Follow(edges, entries) && root in tf && tf.Keys <= names
    ensures tf.Keys == names <==> forall i :: 0 <= i < |entries| ==> entries[i].child in tf
  {
    forall i | 0 <= i < |entries| ensures entries[i].child in names {
      assert edges[i].child in names;
    }
    if forall i :: 0 <= i < |entries| ==> entries[i].child in tf {
      forall n | n in names ensures n in tf {
        assert n != root ==> entries[t.hook[n]].child == n;
      }
    }
  }

  // ----- the loop against the tree

  /** The frames of all entries, kept or not. */
  function Steps(motion: Entry -> Pose, entries: seq<Entry>): seq<Pose> {
    seq(|entries|, i requires 0 <= i < |entries| => motion(entries[i]))
  }

  /** What the loop places, it places where the entries lead along the tree. */
  lemma {:induction false} PlacedIsCompounded(motion: Entry -> Pose, reader: Reader, root: Name, names: set<Name>,
      edges: seq<Edge>, t: Evidence, start: Pose, entries: seq<Entry>, n: Name)
    requires IsTree(root, names, edges, t) && Follow(edges, entries)
    requires n in Framed(Hanging(motion), reader, root, start, entries) && n in names
    ensures Framed(Hanging(motion), reader, root, start, entries)[n]
         == Compounded(root, names, edges, t, start, Steps(motion, entries), n)
    decreases t.rank[n]
  {
    TreeChain(Hanging(motion), reader, root, names, edges, t, start, entries);
    if n != root {
      PlacedByHook(Hanging(motion), reader, root, names, edges, t, start, entries, n);
      PlacedIsCompounded(motion, reader, root, names, edges, t, start, entries, edges[t.hook[n]].parent);
      HungAt(motion, Framed(Hanging(motion), reader, root, start, entries), entries[t.hook[n]]);
    }
  }

  lemma HungAt(motion: Entry -> Pose, tf: Frames, e: Entry)
    requires Hung(Hanging(motion), tf, e)
    ensures tf[e.child] == Compose(tf[e.parent], motion(e))
  {
  }

  /** The loop places exactly the parts of the tree, each where the given steps lead from the given root. */
  ghost predicate Exact(motion: Entry -> Pose, reader: Reader, root: Name, names: set<Name>, edges: seq<Edge>,
                        t: Evidence, start: Pose, entries: seq<Entry>, want: Pose, steps: seq<Pose>)
    requires IsTree(root, names, edges, t) && |steps| == |edges|
  {
    var tf := Framed(Hanging(motion), reader, root, start, entries);
    tf.Keys == names && forall n :: n in names ==> tf[n] == Compounded(root, names, edges, t, want, steps, n)
  }

  ghost predicate StepsMatch(motion: Entry -> Pose, entries: seq<Entry>, steps: seq<Pose>) {
    |entries| == |steps| && forall i :: 0 <= i < |steps| ==> motion(entries[i]) == steps[i]
  }

  ghost predicate AllTurn(want: Pose, steps: seq<Pose>) {
    Orthogonal(want.r) && forall i :: 0 <= i < |steps| ==> Orthogonal(steps[i].r)
  }

  lemma {:induction false} CompoundedTurns(root: Name, names: set<Name>, edges: seq<Edge>, t: Evidence, want: Pose,
                                           steps: seq<Pose>, n: Name)
    requires IsTree(root, names, edges, t) && |steps| == |edges| && n in names && AllTurn(want, steps)
    ensures Orthogonal(Compounded(root, names, edges, t, want, steps, n).r)
    decreases t.rank[n]
  {
    if n != root {
      var i := t.hook[n];
      CompoundedTurns(root, names, edges, t, want, steps, edges[i].parent);
      ProductOrthogonal(Compounded(root, names, edges, t, want, steps, edges[i].parent).r, steps[i].r);
    }
  }

  /** A rigid frame tells what was composed with it. */
  lemma CancelCompose(at: Pose, a: Pose, b: Pose)
    requires Orthogonal(at.r) && Compose(at, a) == Compose(at, b)
    ensures a == b
  {
    UndoMul(at.r, a.r);
    UndoMul(at.r, b.r);
    Undo(at.r, a.p);
    Undo(at.r, b.p);
    CancelPlace(at.p, Apply(at.r, a.p), Apply(at.r, b.p));
  }

  lemma CancelPlace(w: Vec3, u: Vec3, v: Vec3)
    requires Add(w, u) == Add(w, v)
    ensures u == v
  {
    assert u == Vec3(u.x, u.y, u.z) && v == Vec3(v.x, v.y, v.z);
  }

  /** The loop is exact if and only if nothing is skipped, the roots are one and each entry takes its step. */
  lemma ExactIffStepsMatch(motion: Entry -> Pose, reader: Reader, root: Name, names: set<Name>, edges: seq<Edge>,
                           t: Evidence, start: Pose, entries: seq<Entry>, want: Pose, steps: seq<Pose>)
    requires IsTree(root, names, edges, t) && Follow(edges, entries) && |steps| == |edges| && AllTurn(want, steps)
    ensures Exact(motion, reader, root, names, edges, t, start, entries, want, steps)
       <==> AllListed(reader, edges) && ParentsFirst(root, edges) && start == want && StepsMatch(motion, entries, steps)
  {
    var tf := Framed(Hanging(motion), reader, root, start, entries);
    PlacesAllParts(Hanging(motion), reader, root, names, edges, t, start, entries);
    if tf.Keys == names && start == want && StepsMatch(motion, entries, steps) {
      assert Steps(motion, entries) == steps;
      forall n | n in names ensures tf[n] == Compounded(root, names, edges, t, want, steps, n) {
        PlacedIsCompounded(motion, reader, root, names, edges, t, start, entries, n);
      }
    }
    if Exact(motion, reader, root, names, edges, t, start, entries, want, steps) {
      TreeChain(Hanging(motion), reader, root, names, edges, t, start, entries);
      assert tf[root] == Compounded(root, names, edges, t, want, steps, root);
      forall i | 0 <= i < |steps| ensures motion(entries[i]) == steps[i] {
        ExactStep(motion, reader, root, names, edges, t, start, entries, want, steps, i);
      }
    }
  }

  lemma ExactStep(motion: Entry -> Pose, reader: Reader, root: Name, names: set<Name>, edges: seq<Edge>,
                  t: Evidence, start: Pose, entries: seq<Entry>, want: Pose, steps: seq<Pose>, i: nat)
    requires IsTree(root, names, edges, t) && Follow(edges, entries) && |steps| == |edges| && AllTurn(want, steps)
    requires Exact(motion, reader, root, names, edges, t, start, entries, want, steps) && i < |steps|
    ensures motion(entries[i]) == steps[i]
  {
    var tf, e := Framed(Hanging(motion), reader, root, start, entries), edges[i];
    HookOfChild(root, names, edges, t, i);
    PlacedByHook(Hanging(motion), reader, root, names, edges, t, start, entries, e.child);
    HungAt(motion, tf, entries[i]);
    CompoundedTurns(root, names, edges, t, want, steps, e.parent);
    CancelCompose(tf[e.parent], motion(entries[i]), steps[i]);
  }
}
