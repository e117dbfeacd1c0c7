/** Connectivity in a finite undirected graph given by a symmetric set of ordered pairs.
    The component counter and the rigid-group merge both state their results with it. */
module Connectivity {

  /** Every consecutive pair of the walk is an edge. */
  ghost predicate Walk<T(!new)>(edges: set<(T, T)>, path: seq<T>) {
    forall i :: 0 < i < |path| ==> (path[i - 1], path[i]) in edges
  }

  ghost predicate WalkBetween<T(!new)>(edges: set<(T, T)>, path: seq<T>, a: T, b: T) {
    |path| > 0 && path[0] == a && path[|path| - 1] == b && Walk(edges, path)
  }

  ghost predicate Connected<T(!new)>(edges: set<(T, T)>, a: T, b: T) {
    exists path :: WalkBetween(edges, path, a, b)
  }

  ghost predicate Symmetric<T(!new)>(edges: set<(T, T)>) {
    forall a, b :: (a, b) in edges ==> (b, a) in edges
  }

  lemma Reflexive<T(!new)>(edges: set<(T, T)>, a: T)
    ensures Connected(edges, a, a)
  {
    assert WalkBetween(edges, [a], a, a);
  }

  lemma EdgeConnects<T(!new)>(edges: set<(T, T)>, a: T, b: T)
    requires (a, b) in edges
    ensures Connected(edges, a, b)
  {
    assert WalkBetween(edges, [a, b], a, b);
  }

  lemma Transitive<T(!new)>(edges: set<(T, T)>, a: T, b: T, c: T)
    requires Connected(edges, a, b) && Connected(edges, b, c)
    ensures Connected(edges, a, c)
  {
    var p :| WalkBetween(edges, p, a, b);
    var q :| WalkBetween(edges, q, b, c);
    var r := p + q[1..];
    forall i | 0 < i < |r| ensures (r[i - 1], r[i]) in edges {
      if i >= |p| {
        assert r[i] == q[i - |p| + 1] && r[i - 1] == q[i - |p|];
      }
    }
    assert r[|r| - 1] == c;
    assert WalkBetween(edges, r, a, c);
  }

  lemma SymmetricConnection<T(!new)>(edges: set<(T, T)>, a: T, b: T)
    requires Symmetric(edges) && Connected(edges, a, b)
    ensures Connected(edges, b, a)
  {
    var p :| WalkBetween(edges, p, a, b);
    var r := seq(|p|, i requires 0 <= i < |p| => p[|p| - 1 - i]);
    forall i | 0 < i < |r| ensures (r[i - 1], r[i]) in edges {
      assert (p[|p| - 1 - i], p[|p| - i]) in edges;
    }
    assert WalkBetween(edges, r, b, a);
  }

  /** A set that no edge leaves contains everything connected to its members. */
  lemma ClosedSetsAbsorb<T(!new)>(edges: set<(T, T)>, s: set<T>, a: T, b: T)
    requires forall x, y :: x in s && (x, y) in edges ==> y in s
    requires a in s && Connected(edges, a, b)
    ensures b in s
  {
    var p :| WalkBetween(edges, p, a, b);
    for i := 1 to |p|
      invariant p[i - 1] in s
    {
      assert (p[i - 1], p[i]) in edges;
    }
  }

  lemma MoreEdges<T(!new)>(edges: set<(T, T)>, more: set<(T, T)>, a: T, b: T)
    requires edges <= more && Connected(edges, a, b)
    ensures Connected(more, a, b)
  {
    var p :| WalkBetween(edges, p, a, b);
    assert WalkBetween(more, p, a, b);
  }

  /** A walk that leaves its start begins with an edge. */
  lemma FirstEdge<T(!new)>(edges: set<(T, T)>, a: T, b: T) returns (next: T)
    requires a != b && Connected(edges, a, b)
    ensures (a, next) in edges && Connected(edges, next, b)
  {
    var p :| WalkBetween(edges, p, a, b);
    next := p[1];
    assert WalkBetween(edges, p[1..], next, b);
  }

  /** What one more undirected edge connects: nothing but the two classes it joins. */
  lemma OneMoreEdge<T(!new)>(edges: set<(T, T)>, l: T, r: T, a: T, b: T)
    requires Symmetric(edges)
    ensures Connected(edges + {(l, r), (r, l)}, a, b) <==>
            Connected(edges, a, b) ||
            (Connected(edges, a, l) && Connected(edges, r, b)) ||
            (Connected(edges, a, r) && Connected(edges, l, b))
  {
    var more := edges + {(l, r), (r, l)};
    if Connected(more, a, b) {
      var p :| WalkBetween(more, p, a, b);
      Reflexive(edges, a);
      Reflexive(edges, l);
      Reflexive(edges, r);
      for i := 1 to |p|
        invariant var x := p[i - 1];
          Connected(edges, a, x) || (Connected(edges, a, l) && Connected(edges, r, x)) ||
          (Connected(edges, a, r) && Connected(edges, l, x))
      {
        ExtendClasses(edges, l, r, a, p[i - 1], p[i]);
      }
    }
    assert (l, r) in more && (r, l) in more;
    EdgeConnects(more, l, r);
    EdgeConnects(more, r, l);
    if Connected(edges, a, b) {
      MoreEdges(edges, more, a, b);
    }
    if Connected(edges, a, l) && Connected(edges, r, b) {
      MoreEdges(edges, more, a, l);
      MoreEdges(edges, more, r, b);
      Transitive(more, a, l, r);
      Transitive(more, a, r, b);
    }
    if Connected(edges, a, r) && Connected(edges, l, b) {
      MoreEdges(edges, more, a, r);
      MoreEdges(edges, more, l, b);
      Transitive(more, a, r, l);
      Transitive(more, a, l, b);
    }
  }

  lemma ExtendClasses<T(!new)>(edges: set<(T, T)>, l: T, r: T, a: T, x: T, y: T)
    requires Symmetric(edges)
    requires (x, y) in edges + {(l, r), (r, l)}
    requires Connected(edges, a, x) || (Connected(edges, a, l) && Connected(edges, r, x)) ||
             (Connected(edges, a, r) && Connected(edges, l, x))
    ensures Connected(edges, a, y) || (Connected(edges, a, l) && Connected(edges, r, y)) ||
            (Connected(edges, a, r) && Connected(edges, l, y))
  {
    Reflexive(edges, l);
    Reflexive(edges, r);
    if (x, y) in edges {
      EdgeConnects(edges, x, y);
      if Connected(edges, a, x) { Transitive(edges, a, x, y); }
      if Connected(edges, r, x) { Transitive(edges, r, x, y); }
      if Connected(edges, l, x) { Transitive(edges, l, x, y); }
    }
  }
}
