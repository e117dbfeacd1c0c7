/** The walk up the joint chain of every link that adds certified separations to the ignored pairs
    (model/elesim_model_builder/curobo.py, build_curobo_model). */
module SeparatedPairs {
  import opened Spatial
  import opened Trigonometry
  import opened Options
  import S = SeparationBound

  type Name = string

  /** The joint a link hangs on and the link above it. */
  datatype Arc = Arc(parent: Name, joint: S.Joint)

  /** A separation as the metadata records it. */
  datatype Record = Record(parent: Name, child: Name, gap: real)

  /** What the walk looks at: the joints, and the vertices of every link that has collision spheres. */
  datatype Model = Model(g: Trig, tree: map<Name, Arc>, shapes: map<Name, seq<Vec3>>)

  /** The joints form a forest and no shape is empty. */
  ghost predicate Sound(m: Model, rank: map<Name, nat>) {
    && IsTrig(m.g) && (forall n :: n in m.shapes ==> m.shapes[n] != [])
    && (forall n :: n in m.tree ==> n in rank && m.tree[n].parent in rank && rank[m.tree[n].parent] < rank[n])
  }

  /** k joints up from a link. */
  function Up(m: Model, child: Name, k: nat): Name {
    if k == 0 then child
    else
      var below := Up(m, child, k - 1);
      if below in m.tree then m.tree[below].parent else below
  }

  predicate Climbs(m: Model, child: Name, k: nat) {
    k == 0 || (Climbs(m, child, k - 1) && Up(m, child, k - 1) in m.tree)
  }

  /** The joints from k links above down to the link. */
  function Path(m: Model, child: Name, k: nat): seq<S.Joint>
    requires Climbs(m, child, k)
  {
    if k == 0 then [] else [m.tree[Up(m, child, k - 1)].joint] + Path(m, child, k - 1)
  }

  /** The ancestor k links up has a shape and the certified gap to it exceeds the threshold. */
  ghost predicate Clear(m: Model, child: Name, k: nat) {
    && m.g.pi > 0.0 && Climbs(m, child, k) && child in m.shapes && Up(m, child, k) in m.shapes
    && m.shapes[child] != [] && m.shapes[Up(m, child, k)] != []
    && S.BoundOf(m.g, Path(m, child, k), m.shapes[Up(m, child, k)], m.shapes[child]).Some?
    && S.BoundOf(m.g, Path(m, child, k), m.shapes[Up(m, child, k)], m.shapes[child]).value > 0.000001
  }

  ghost predicate ClearPair(m: Model, child: Name, n: nat, p: set<Name>) {
    exists k :: 0 < k <= n && Clear(m, child, k) && p == {Up(m, child, k), child}
  }

  /** A recorded gap is positive and holds between the two links for every admissible joint vector of the chain between
      them. */
  ghost predicate Certified(m: Model, r: Record) {
    && r.gap > 0.0 && r.child in m.shapes && r.parent in m.shapes
    && m.g.pi > 0.0 && m.shapes[r.parent] != [] && m.shapes[r.child] != []
    && exists k: nat ::
         0 < k && Climbs(m, r.child, k) && Up(m, r.child, k) == r.parent && Holds(m, r, Path(m, r.child, k))
  }

  /** The gap is the certified one less a nanometre, and holds along the path. */
  ghost predicate Holds(m: Model, r: Record, path: seq<S.Joint>)
    requires m.g.pi > 0.0 && r.parent in m.shapes && r.child in m.shapes
    requires m.shapes[r.parent] != [] && m.shapes[r.child] != []
  {
    && S.BoundOf(m.g, path, m.shapes[r.parent], m.shapes[r.child]) == Some(r.gap + 0.000000001)
    && S.Separated(m.g, path, m.shapes[r.parent], m.shapes[r.child], r.gap)
  }

  function Pair(r: Record): set<Name> { {r.parent, r.child} }

  /** One record for every added pair. */
  ghost predicate OneEach(before: set<set<Name>>, pairs: set<set<Name>>, records: seq<Record>) {
    && (forall i :: 0 <= i < |records| ==> Pair(records[i]) in pairs && Pair(records[i]) !in before)
    && (forall i, j :: 0 <= i < j < |records| ==> Pair(records[i]) != Pair(records[j]))
    && (forall p :: p in pairs && p !in before ==> Recorded(p, records))
  }

  ghost predicate Recorded(p: set<Name>, records: seq<Record>) {
    exists i :: 0 <= i < |records| && p == Pair(records[i])
  }

  lemma CertifyOne(m: Model, child: Name, k: nat, gap: real)
    requires IsTrig(m.g) && 0 < k && Clear(m, child, k)
    requires gap == S.BoundOf(m.g, Path(m, child, k), m.shapes[Up(m, child, k)], m.shapes[child]).value - 0.000000001
    ensures Certified(m, Record(Up(m, child, k), child, gap))
  {
    var above := Up(m, child, k);
    S.BoundIsSound(m.g, Path(m, child, k), m.shapes[above], m.shapes[child]);
    S.LessIsSeparated(m.g, Path(m, child, k), m.shapes[above], m.shapes[child], gap + 0.000000001, gap);
  }

  lemma NextClear(m: Model, child: Name, n: nat, p: set<Name>)
    ensures ClearPair(m, child, n + 1, p)
       <==> ClearPair(m, child, n, p) || (Clear(m, child, n + 1) && p == {Up(m, child, n + 1), child})
  {
  }

  lemma RecordedMore(p: set<Name>, records: seq<Record>, r: Record)
    ensures Recorded(p, records + [r]) <==> Recorded(p, records) || p == Pair(r)
  {
    var more := records + [r];
    if Recorded(p, records) {
      var i :| 0 <= i < |records| && p == Pair(records[i]);
      assert more[i] == records[i];
    }
    assert more[|records|] == r;
  }

  /** After n steps up from one link. */
  ghost predicate Walked(m: Model, child: Name, n: nat, before: set<set<Name>>, pairs: set<set<Name>>,
                         records: seq<Record>) {
    && (forall p :: p in pairs <==> p in before || ClearPair(m, child, n, p))
    && OneEach(before, pairs, records) && (forall i :: 0 <= i < |records| ==> Certified(m, records[i]))
  }

  lemma WalkOn(m: Model, child: Name, n: nat, before: set<set<Name>>, pairs: set<set<Name>>, records: seq<Record>)
    requires Walked(m, child, n, before, pairs, records)
    requires Clear(m, child, n + 1) ==> {Up(m, child, n + 1), child} in pairs
    ensures Walked(m, child, n + 1, before, pairs, records)
  {
    forall p ensures ClearPair(m, child, n + 1, p) ==> ClearPair(m, child, n, p) || p in pairs {
      NextClear(m, child, n, p);
    }
    forall p ensures ClearPair(m, child, n, p) ==> ClearPair(m, child, n + 1, p) { NextClear(m, child, n, p); }
  }

  lemma WalkNew(m: Model, child: Name, n: nat, before: set<set<Name>>, pairs: set<set<Name>>, records: seq<Record>,
                r: Record)
    requires Walked(m, child, n, before, pairs, records) && Clear(m, child, n + 1)
    requires r.parent == Up(m, child, n + 1) && r.child == child && Certified(m, r) && Pair(r) !in pairs
    ensures Walked(m, child, n + 1, before, pairs + {Pair(r)}, records + [r])
  {
    forall p ensures ClearPair(m, child, n + 1, p) <==> ClearPair(m, child, n, p) || p == Pair(r) {
      NextClear(m, child, n, p);
    }
    OneMoreEach(before, pairs, records, r);
  }

  lemma OneMoreEach(before: set<set<Name>>, pairs: set<set<Name>>, records: seq<Record>, r: Record)
    requires before <= pairs && OneEach(before, pairs, records) && Pair(r) !in pairs
    ensures OneEach(before, pairs + {Pair(r)}, records + [r])
  {
    forall p ensures Recorded(p, records + [r]) <==> Recorded(p, records) || p == Pair(r) {
      RecordedMore(p, records, r);
    }
  }

  /** A link reached no joint further up offers no further pair. */
  lemma {:induction false} NoFurther(m: Model, child: Name, n: nat, k: nat)
    requires Up(m, child, n) !in m.tree && n < k
    ensures !Climbs(m, child, k)
  {
    if n < k - 1 {
      NoFurther(m, child, n, k - 1);
    }
  }

  /** The pairs certified from this link, at any height. */
  ghost predicate ClearFrom(m: Model, child: Name, p: set<Name>) {
    exists k :: 0 < k && Clear(m, child, k) && p == {Up(m, child, k), child}
  }

  lemma AllClear(m: Model, child: Name, n: nat, p: set<Name>)
    requires Climbs(m, child, n) && Up(m, child, n) !in m.tree
    ensures ClearFrom(m, child, p) <==> ClearPair(m, child, n, p)
  {
    if k :| 0 < k && Clear(m, child, k) && p == {Up(m, child, k), child} {
      if k > n {
        NoFurther(m, child, n, k);
      }
    }
  }

  method GapAlong(m: Model, path: seq<S.Joint>, parent: seq<Vec3>, child: seq<Vec3>) returns (gap: Option<real>)
    requires IsTrig(m.g) && parent != [] && child != []
    ensures gap == S.BoundOf(m.g, path, parent, child)
  {
    gap := S.Bound(m.g, path, parent, child);
  }

  /** The inner loop: up from one link to its root. */
  method Climb(m: Model, child: Name, pairs: set<set<Name>>, ghost rank: map<Name, nat>)
    returns (pairs': set<set<Name>>, records: seq<Record>)
    requires Sound(m, rank) && child in m.shapes
    ensures forall p :: p in pairs' <==> p in pairs || ClearFrom(m, child, p)
    ensures OneEach(pairs, pairs', records) && forall i :: 0 <= i < |records| ==> Certified(m, records[i])
  {
    var cursor, path := child, [];
    pairs', records := pairs, [];
    ghost var n := 0;
    while cursor in m.tree
      invariant Climbs(m, child, n) && cursor == Up(m, child, n) && path == Path(m, child, n)
      invariant Walked(m, child, n, pairs, pairs', records)
      decreases if cursor in rank then rank[cursor] else 0, if cursor in m.tree then 1 else 0
    {
      var arc := m.tree[cursor];
      path := [arc.joint] + path;
      cursor := arc.parent;
      assert Climbs(m, child, n + 1) && cursor == Up(m, child, n + 1) && path == Path(m, child, n + 1);
      var pair := {cursor, child};
      if cursor !in m.shapes || pair in pairs' {
        WalkOn(m, child, n, pairs, pairs', records);
      } else {
        var gap := GapAlong(m, path, m.shapes[cursor], m.shapes[child]);
        if gap.Some? && gap.value > 0.000001 {
          var r := Record(cursor, child, gap.value - 0.000000001);
          CertifyOne(m, child, n + 1, r.gap);
          WalkNew(m, child, n, pairs, pairs', records, r);
          pairs', records := pairs' + {pair}, records + [r];
        } else {
          WalkOn(m, child, n, pairs, pairs', records);
        }
      }
      n := n + 1;
    }
    forall p ensures ClearFrom(m, child, p) <==> ClearPair(m, child, n, p) { AllClear(m, child, n, p); }
  }

  // ----- the walk in plain terms

  /** Links one below the other, and the joints that lead down from the first to the last. */
  ghost predicate IsChain(m: Model, links: seq<Name>, path: seq<S.Joint>) {
    && |links| == |path| + 1
    && forall i {:trigger path[i]} :: 0 <= i < |path| ==> Joins(m, links[i], links[i + 1], path[i])
  }

  predicate Joins(m: Model, above: Name, below: Name, joint: S.Joint) {
    below in m.tree && m.tree[below] == Arc(above, joint)
  }

  /** The certified gap from a link to one above it, along the joints that lead down from there. */
  ghost predicate Apart(m: Model, above: Name, child: Name, gap: real) {
    exists links, path ::
      && IsChain(m, links, path) && path != [] && links[0] == above && links[|path|] == child && above in m.shapes
      && child in m.shapes && m.g.pi > 0.0 && m.shapes[above] != [] && m.shapes[child] != []
      && S.BoundOf(m.g, path, m.shapes[above], m.shapes[child]) == Some(gap)
  }

  lemma {:induction false} PathIsChain(m: Model, child: Name, k: nat) returns (links: seq<Name>)
    requires Climbs(m, child, k)
    ensures |Path(m, child, k)| == k && IsChain(m, links, Path(m, child, k))
    ensures links[0] == Up(m, child, k) && links[k] == child
  {
    if k == 0 {
      links := [child];
    } else {
      var below := PathIsChain(m, child, k - 1);
      links := [Up(m, child, k)] + below;
      var path := Path(m, child, k);
      forall i {:trigger path[i]} | 0 <= i < |path| ensures Joins(m, links[i], links[i + 1], path[i]) {
        if i > 0 {
          assert path[i] == Path(m, child, k - 1)[i - 1];
        }
      }
    }
  }

  lemma ChainTail(m: Model, links: seq<Name>, path: seq<S.Joint>)
    requires IsChain(m, links, path) && path != []
    ensures IsChain(m, links[1..], path[1..])
    ensures Joins(m, links[0], links[1], path[0])
  {
    var l, p := links[1..], path[1..];
    forall i {:trigger p[i]} | 0 <= i < |p| ensures Joins(m, l[i], l[i + 1], p[i]) {
      assert p[i] == path[i + 1] && l[i + 1] == links[i + 2] && l[i] == links[i + 1];
    }
    assert path[0] == path[0];
  }

  lemma {:induction false} ChainIsPath(m: Model, links: seq<Name>, path: seq<S.Joint>)
    requires IsChain(m, links, path)
    ensures Climbs(m, links[|path|], |path|) && Path(m, links[|path|], |path|) == path
    ensures Up(m, links[|path|], |path|) == links[0]
  {
    if path != [] {
      var k := |path|;
      ChainTail(m, links, path);
      ChainIsPath(m, links[1..], path[1..]);
      assert links[1..][0] == links[1] && links[1..][k - 1] == links[k];
      assert path[0] == m.tree[links[1]].joint;
      assert path == [path[0]] + path[1..];
    }
  }

  /** Some ancestor k links up is clear exactly when the chain down from it certifies more than a micrometre. */
  lemma ClearIffApart(m: Model, child: Name, p: set<Name>)
    ensures ClearFrom(m, child, p)
       <==> exists above, gap :: Apart(m, above, child, gap) && gap > 0.000001 && p == {above, child}
  {
    if k :| 0 < k && Clear(m, child, k) && p == {Up(m, child, k), child} {
      var links := PathIsChain(m, child, k);
      var above := Up(m, child, k);
      var gap := S.BoundOf(m.g, Path(m, child, k), m.shapes[above], m.shapes[child]).value;
      assert Apart(m, above, child, gap);
    }
    if above, gap :| Apart(m, above, child, gap) && gap > 0.000001 && p == {above, child} {
      var links, path :| IsChain(m, links, path) && path != [] && links[0] == above && links[|path|] == child
        && S.BoundOf(m.g, path, m.shapes[above], m.shapes[child]) == Some(gap);
      ChainIsPath(m, links, path);
      assert Clear(m, child, |path|);
    }
  }

  lemma CertifiedIsApart(m: Model, r: Record)
    requires Certified(m, r)
    ensures Apart(m, r.parent, r.child, r.gap + 0.000000001)
  {
    var k: nat :| 0 < k && Climbs(m, r.child, k) && Up(m, r.child, k) == r.parent
      && Holds(m, r, Path(m, r.child, k));
    var links := PathIsChain(m, r.child, k);
  }

  /** The whole loop: the pairs added are exactly those of a link and one above it that the chain between them keeps
      apart by more than a micrometre, each recorded once with a positive gap, a nanometre less than certified, that
      holds for every admissible joint vector. */
  method SeparatePairs(m: Model, spheres: seq<Name>, pairs: set<set<Name>>, ghost rank: map<Name, nat>)
    returns (pairs': set<set<Name>>, separated: seq<Record>)
    requires Sound(m, rank) && forall n :: n in spheres ==> n in m.shapes
    ensures forall p :: p in pairs' <==> p in pairs || exists child, above, gap ::
      child in spheres && Apart(m, above, child, gap) && gap > 0.000001 && p == {above, child}
    ensures OneEach(pairs, pairs', separated)
    ensures forall i :: 0 <= i < |separated| ==> Certified(m, separated[i])
    ensures forall i :: 0 <= i < |separated| ==>
      Apart(m, separated[i].parent, separated[i].child, separated[i].gap + 0.000000001)
  {
    pairs', separated := pairs, [];
    for i := 0 to |spheres|
      invariant Gathered(m, spheres[..i], pairs, pairs', separated)
    {
      ghost var before := pairs';
      var records;
      assert spheres[i] in spheres;
      pairs', records := Climb(m, spheres[i], pairs', rank);
      GatherOne(m, spheres[..i], spheres[i], pairs, before, pairs', separated, records);
      assert spheres[..i + 1] == spheres[..i] + [spheres[i]];
      separated := separated + records;
    }
    assert spheres[..|spheres|] == spheres;
    forall p, child ensures ClearFrom(m, child, p)
       <==> exists above, gap :: Apart(m, above, child, gap) && gap > 0.000001 && p == {above, child}
    {
      ClearIffApart(m, child, p);
    }
    forall i | 0 <= i < |separated|
      ensures Apart(m, separated[i].parent, separated[i].child, separated[i].gap + 0.000000001)
    {
      CertifiedIsApart(m, separated[i]);
    }
  }

  /** After the climbs of some links. */
  ghost predicate Gathered(m: Model, done: seq<Name>, pairs: set<set<Name>>, pairs': set<set<Name>>,
                           separated: seq<Record>) {
    && (forall p :: p in pairs' <==> p in pairs || exists i :: 0 <= i < |done| && ClearFrom(m, done[i], p))
    && OneEach(pairs, pairs', separated) && (forall i :: 0 <= i < |separated| ==> Certified(m, separated[i]))
  }

  lemma GatherOne(m: Model, done: seq<Name>, child: Name, pairs: set<set<Name>>, before: set<set<Name>>,
                  after: set<set<Name>>,
                  separated: seq<Record>, records: seq<Record>)
    requires Gathered(m, done, pairs, before, separated)
    requires forall p :: p in after <==> p in before || ClearFrom(m, child, p)
    requires OneEach(before, after, records)
    requires forall i :: 0 <= i < |records| ==> Certified(m, records[i])
    ensures Gathered(m, done + [child], pairs, after, separated + records)
  {
    forall p
      ensures p in after <==>
              p in pairs || exists i :: 0 <= i < |done + [child]| && ClearFrom(m, (done + [child])[i], p)
    {
      OneMoreDone(m, done, child, p);
    }
    EachJoins(pairs, before, after, separated, records);
  }

  lemma EachJoins(pairs: set<set<Name>>, before: set<set<Name>>, after: set<set<Name>>, a: seq<Record>, b: seq<Record>)
    requires pairs <= before <= after && OneEach(pairs, before, a) && OneEach(before, after, b)
    ensures OneEach(pairs, after, a + b)
  {
    forall p | p in after && p !in pairs ensures Recorded(p, a + b) { RecordedJoin(p, a, b); }
  }

  lemma OneMoreDone(m: Model, done: seq<Name>, child: Name, p: set<Name>)
    ensures (exists i :: 0 <= i < |done + [child]| && ClearFrom(m, (done + [child])[i], p))
       <==> (exists i :: 0 <= i < |done| && ClearFrom(m, done[i], p)) || ClearFrom(m, child, p)
  {
    var all := done + [child];
    if i :| 0 <= i < |done| && ClearFrom(m, done[i], p) {
      assert ClearFrom(m, all[i], p);
    }
    if ClearFrom(m, child, p) {
      assert ClearFrom(m, all[|done|], p);
    }
  }

  lemma RecordedJoin(p: set<Name>, a: seq<Record>, b: seq<Record>)
    ensures Recorded(p, a) || Recorded(p, b) ==> Recorded(p, a + b)
  {
    if Recorded(p, a) {
      var i :| 0 <= i < |a| && p == Pair(a[i]);
      assert (a + b)[i] == a[i];
    } else if Recorded(p, b) {
      var i :| 0 <= i < |b| && p == Pair(b[i]);
      assert (a + b)[|a| + i] == b[i];
    }
  }
}
