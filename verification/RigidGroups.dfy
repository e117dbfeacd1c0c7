/** Rigid link groups and the ignored collision pairs of the cuRobo export
    (model/elesim_model_builder/curobo.py, build_curobo_model). */
module RigidGroups {
  import opened Connectivity

  type Link = string

  datatype Joint = Joint(parent: Link, child: Link, fixed: bool)

  predicate Resolves(links: set<Link>, joints: seq<Joint>) {
    forall j :: j in joints ==> j.parent in links && j.child in links
  }

  /** Both orientations of every fixed joint. */
  ghost function Welds(joints: seq<Joint>): (edges: set<(Link, Link)>)
    ensures Symmetric(edges)
    ensures forall j :: j in joints && j.fixed ==> (j.parent, j.child) in edges && (j.child, j.parent) in edges
    ensures forall a, b :: (a, b) in edges ==>
      exists j :: j in joints && j.fixed && ((j.parent == a && j.child == b) || (j.parent == b && j.child == a))
  {
    if joints == [] then {}
    else
      var last := joints[|joints| - 1];
      var before := Welds(joints[..|joints| - 1]);
      assert forall j :: j in joints <==> j in joints[..|joints| - 1] || j == last;
      if last.fixed then before + {(last.parent, last.child), (last.child, last.parent)} else before
  }

  /** The map holds, for every link, the links welded to it. */
  ghost predicate AreGroups(links: set<Link>, joints: seq<Joint>, groups: map<Link, set<Link>>) {
    && groups.Keys == links
    && forall a, b {:trigger b in groups[a]} ::
      a in links ==> (b in groups[a] <==> b in links && Connected(Welds(joints), a, b))
  }

  lemma MergeStep(links: set<Link>, joints: seq<Joint>, n: nat, groups: map<Link, set<Link>>,
                  merged: map<Link, set<Link>>)
    requires Resolves(links, joints) && n < |joints| && joints[n].fixed
    requires AreGroups(links, joints[..n], groups)
    requires var union := groups[joints[n].parent] + groups[joints[n].child];
      && merged.Keys == links
      && (forall a :: a in union ==> a in links && merged[a] == union)
      && (forall a :: a in links && a !in union ==> merged[a] == groups[a])
    ensures AreGroups(links, joints[..n + 1], merged)
  {
    var l, r := joints[n].parent, joints[n].child;
    var union := groups[l] + groups[r];
    var edges := Welds(joints[..n]);
    assert joints[..n + 1][..n] == joints[..n];
    assert Welds(joints[..n + 1]) == edges + {(l, r), (r, l)};
    Reflexive(edges, l);
    Reflexive(edges, r);
    forall a, b | a in links && b in links
      ensures b in merged[a] <==> Connected(Welds(joints[..n + 1]), a, b)
    {
      OneMoreEdge(edges, l, r, a, b);
      assert a in union <==> Connected(edges, l, a) || Connected(edges, r, a);
      Flip(edges, l, a);
      Flip(edges, r, a);
      if a in union {
        Through(edges, l, a, b);
        Through(edges, r, a, b);
      }
    }
    forall a, b | a in links && b in merged[a] ensures b in links { }
  }

  lemma Flip(edges: set<(Link, Link)>, a: Link, b: Link)
    requires Symmetric(edges)
    ensures Connected(edges, a, b) <==> Connected(edges, b, a)
  {
    if Connected(edges, a, b) { SymmetricConnection(edges, a, b); }
    if Connected(edges, b, a) { SymmetricConnection(edges, b, a); }
  }

  lemma Through(edges: set<(Link, Link)>, a: Link, b: Link, c: Link)
    requires Symmetric(edges)
    ensures Connected(edges, a, b) ==> (Connected(edges, a, c) <==> Connected(edges, b, c))
  {
    if Connected(edges, a, b) {
      Flip(edges, a, b);
      if Connected(edges, a, c) { Transitive(edges, b, a, c); }
      if Connected(edges, b, c) { Transitive(edges, a, b, c); }
    }
  }

  /** The merging loop: after any joint order the groups are the classes of the welded graph. */
  method MergeGroups(links: set<Link>, joints: seq<Joint>) returns (groups: map<Link, set<Link>>)
    requires Resolves(links, joints)
    ensures AreGroups(links, joints, groups)
  {
    groups := map name | name in links :: {name};
    Alone(links, groups);
    for n := 0 to |joints|
      invariant AreGroups(links, joints[..n], groups)
    {
      var joint := joints[n];
      assert joint in joints;
      ghost var before := groups;
      if joint.fixed {
        var union := groups[joint.parent] + groups[joint.child];
        GroupsInside(links, joints[..n], groups, joint);
        groups := Spread(links, groups, union);
        MergeStep(links, joints, n, before, groups);
      } else {
        assert joints[..n + 1][..n] == joints[..n];
        assert Welds(joints[..n + 1]) == Welds(joints[..n]);
      }
    }
    assert joints[..|joints|] == joints;
  }

  /** Every link of the union gets the union as its group. */
  method Spread(ghost links: set<Link>, before: map<Link, set<Link>>, union: set<Link>)
    returns (groups: map<Link, set<Link>>)
    requires union <= links && before.Keys == links
    ensures groups.Keys == links && forall a :: a in links ==> groups[a] == if a in union then union else before[a]
  {
    groups := before;
    var rest := union;
    while rest != {}
      invariant rest <= union && groups.Keys == links
      invariant forall a :: a in links ==> groups[a] == if a in union - rest then union else before[a]
      decreases |rest|
    {
      var name :| name in rest;
      groups := groups[name := union];
      rest := rest - {name};
    }
  }

  lemma GroupsInside(links: set<Link>, joints: seq<Joint>, groups: map<Link, set<Link>>, j: Joint)
    requires AreGroups(links, joints, groups) && j.parent in links && j.child in links
    ensures groups.Keys == links && groups[j.parent] + groups[j.child] <= links
  {
  }

  lemma Alone(links: set<Link>, groups: map<Link, set<Link>>)
    requires groups == map name | name in links :: {name}
    ensures AreGroups(links, [], groups)
  {
    forall a, b | a in links ensures b in groups[a] <==> b in links && Connected(Welds([]), a, b) {
      Reflexive(Welds([]), a);
      if a != b && Connected(Welds([]), a, b) {
        var next := FirstEdge(Welds([]), a, b);
      }
    }
  }

  /** The joint leads from one link's body to the other's, in either direction. */
  ghost predicate Joins(w: set<(Link, Link)>, j: Joint, a: Link, b: Link) {
    || (Connected(w, a, j.parent) && Connected(w, j.child, b))
    || (Connected(w, a, j.child) && Connected(w, j.parent, b))
  }

  /** Two links that count as mechanically connected: one rigid body, or two bodies joined by a joint. */
  ghost predicate Neighbours(joints: seq<Joint>, a: Link, b: Link) {
    Connected(Welds(joints), a, b) || JoinedBy(joints, joints, a, b)
  }

  /** What the pair loop adds for a prefix of the joints. */
  ghost predicate JoinedBy(joints: seq<Joint>, used: seq<Joint>, a: Link, b: Link) {
    exists j :: j in used && Joins(Welds(joints), j, a, b)
  }

  /** Membership of one body's distinct links needs no extra rule: some weld between them adds the pair. */
  lemma WeldsJoinTheirBody(joints: seq<Joint>, a: Link, b: Link)
    requires a != b && Connected(Welds(joints), a, b)
    ensures JoinedBy(joints, joints, a, b)
  {
    var w := Welds(joints);
    var next := FirstEdge(w, a, b);
    Reflexive(w, a);
    var j :| j in joints && j.fixed && ((j.parent == a && j.child == next) || (j.parent == next && j.child == a));
  }

  /** The unordered pair as the source's sorted tuple; only symmetry of the order matters. */
  type Pair = set<Link>

  /** The pair loop: the ignored pairs are exactly those in one body or in two bodies joined by a joint. */
  method AdjacentPairs(links: set<Link>, joints: seq<Joint>, spheres: set<Link>) returns (pairs: set<Pair>)
    requires Resolves(links, joints) && spheres <= links
    ensures forall a, b :: a in spheres && b in spheres && a != b ==> ({a, b} in pairs <==> Neighbours(joints, a, b))
    ensures forall p :: p in pairs ==> exists a, b :: a in spheres && b in spheres && a != b && p == {a, b}
  {
    var groups := MergeGroups(links, joints);
    pairs := {};
    for n := 0 to |joints|
      invariant forall p :: p in pairs ==> exists a, b :: a in spheres && b in spheres && a != b && p == {a, b}
      invariant forall a, b :: a in spheres && b in spheres && a != b ==>
        ({a, b} in pairs <==> JoinedBy(joints, joints[..n], a, b))
    {
      var joint := joints[n];
      assert joint in joints;
      var added := PairsOf(groups, joint, spheres);
      forall a, b | a in spheres && b in spheres && a != b
        ensures {a, b} in pairs + added <==> JoinedBy(joints, joints[..n + 1], a, b)
      {
        PairOfJoint(links, joints, groups, spheres, n, a, b);
      }
      pairs := pairs + added;
    }
    assert joints[..|joints|] == joints;
    forall a, b | a in spheres && b in spheres && a != b ensures {a, b} in pairs <==> Neighbours(joints, a, b) {
      if Connected(Welds(joints), a, b) {
        WeldsJoinTheirBody(joints, a, b);
      }
    }
  }

  /** The pairs the two inner loops add for one joint. */
  function PairsOf(groups: map<Link, set<Link>>, joint: Joint, spheres: set<Link>): set<Pair>
    requires joint.parent in groups && joint.child in groups
  {
    set a, b | a in groups[joint.parent] && b in groups[joint.child] && a != b && a in spheres && b in spheres :: {a, b}
  }

  lemma PairOfJoint(links: set<Link>, joints: seq<Joint>, groups: map<Link, set<Link>>, spheres: set<Link>, n: nat,
                    a: Link, b: Link)
    requires Resolves(links, joints) && spheres <= links && AreGroups(links, joints, groups) && n < |joints|
    requires joints[n] in joints
    requires a in spheres && b in spheres && a != b
    ensures JoinedBy(joints, joints[..n + 1], a, b) <==>
            JoinedBy(joints, joints[..n], a, b) || {a, b} in PairsOf(groups, joints[n], spheres)
  {
    var j, w := joints[n], Welds(joints);
    assert joints[..n + 1] == joints[..n] + [j];
    Flip(w, a, j.parent);
    Flip(w, a, j.child);
    Flip(w, b, j.parent);
    Flip(w, b, j.child);
    var added := PairsOf(groups, j, spheres);
    if {a, b} in added {
      var x, y :|
        && x in groups[j.parent] && y in groups[j.child] && x != y && x in spheres && y in spheres
        && {a, b} == {x, y};
      assert a in {x, y} && b in {x, y} && x in {a, b} && y in {a, b};
      assert Joins(w, j, a, b);
      assert j in joints[..n + 1];
    }
    if Connected(w, a, j.parent) && Connected(w, j.child, b) {
      assert a in groups[j.parent] && b in groups[j.child];
      assert {a, b} in added;
    }
    if Connected(w, a, j.child) && Connected(w, j.parent, b) {
      assert b in groups[j.parent] && a in groups[j.child];
      assert {b, a} in added && {b, a} == {a, b};
    }
  }
}
