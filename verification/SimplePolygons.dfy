/** Simple polygons, as clean_polygon checks them: edges that are not neighbours keep apart. Cleaning and clipping keep
    them so (workbench/research/support/newhug.py, clean_polygon and convex_parts). */
module SimplePolygons {
  import opened Roots
  import opened Planar
  import opened EarClipping
  import opened Segments

  /** Edges that are not neighbours keep apart. */
  ghost predicate Simple(p: seq<Vec>) {
    forall i: nat, j: nat ::
      i < |p| && j < |p| && Strangers(i, j, |p|) ==> Apart(p[i], p[Next(i, |p|)], p[j], p[Next(j, |p|)])
  }

  predicate Strangers(i: nat, j: nat, n: nat)
    requires i < n && j < n
  {
    i != j && j != Next(i, n) && i != Next(j, n)
  }

  // ----- ears

  /** The corner at k turns left and no other vertex is in its closed triangle. */
  predicate OpenEar(p: seq<Vec>, k: nat)
    requires k < |p|
  {
    && Turn(Corner(p, k)) > 0.0
    && forall m: nat :: m < |p| && m != Prev(k, |p|) && m != k && m != Next(k, |p|) ==> !InTriangle(Corner(p, k), p[m])
  }

  /** An edge that ends at a and has a point in the triangle other than a meets b c. */
  lemma EndsAtCorner(a: Vec, b: Vec, c: Vec, p: Vec, t: real)
    requires Turn([a, b, c]) > 0.0 && InTriangle([a, b, c], At(p, a, t)) && !InTriangle([a, b, c], p)
    requires 0.0 <= t < 1.0
    ensures !Apart(p, a, b, c)
  {
    var z := At(p, a, t);
    SideAffine(a, b, p, a, t);
    SideAffine(c, a, p, a, t);
    SidesOfVertices(a, b, c);
    SidesOfVertices(c, a, b);
    Positive(1.0 - t, Side(a, b, p), Side(a, b, z));
    Positive(1.0 - t, Side(c, a, p), Side(c, a, z));
    var s, first, v := MeetsEdge(a, b, c, z, p);
    var u := TowardsStart(p, a, t, s);
    assert At(p, a, u) == At(b, c, v);
  }

  /** An edge that starts at c and has a point in the triangle other than c meets a b. */
  lemma StartsAtCorner(a: Vec, b: Vec, c: Vec, q: Vec, t: real)
    requires Turn([a, b, c]) > 0.0 && InTriangle([a, b, c], At(c, q, t)) && !InTriangle([a, b, c], q)
    requires 0.0 < t <= 1.0
    ensures !Apart(c, q, a, b)
  {
    var z := At(c, q, t);
    SideAffine(b, c, c, q, t);
    SideAffine(c, a, c, q, t);
    SidesOfVertices(b, c, a);
    SidesOfVertices(c, a, b);
    Positive(t, Side(b, c, q), Side(b, c, z));
    Positive(t, Side(c, a, q), Side(c, a, z));
    var s, first, v := MeetsEdge(a, b, c, z, q);
    var u := TowardsEnd(c, q, t, s);
    assert At(c, q, u) == At(a, b, v);
  }

  /** An edge with a point in the triangle and both ends outside meets a b or b c. */
  lemma PassesThrough(a: Vec, b: Vec, c: Vec, p: Vec, q: Vec, t: real)
    requires Turn([a, b, c]) > 0.0 && InTriangle([a, b, c], At(p, q, t)) && Unit(t)
    requires !InTriangle([a, b, c], p) && !InTriangle([a, b, c], q)
    ensures !Apart(p, q, a, b) || !Apart(p, q, b, c)
  {
    var z := At(p, q, t);
    SideAffine(c, a, p, q, t);
    OneIsUp(Side(c, a, p), Side(c, a, q), t);
    var s, first, v, u;
    if Side(c, a, q) >= 0.0 {
      s, first, v := MeetsEdge(a, b, c, z, q);
      u := TowardsEnd(p, q, t, s);
    } else {
      s, first, v := MeetsEdge(a, b, c, z, p);
      u := TowardsStart(p, q, t, s);
    }
    assert first ==> At(p, q, u) == At(a, b, v);
    assert !first ==> At(p, q, u) == At(b, c, v);
  }

  lemma EarStrangers(n: nat, k: nat, i: nat)
    requires n >= 4 && k < n && i < n && i != Prev(k, n) && i != k
    ensures Next(Prev(k, n), n) == k
    ensures i != Next(k, n) ==> Strangers(i, k, n)
    ensures Next(i, n) != Prev(k, n) ==> Strangers(i, Prev(k, n), n)
    ensures i == Next(k, n) ==> Next(i, n) != Prev(k, n)
    ensures i != Next(k, n) ==> Next(i, n) != k
    ensures Next(i, n) != Next(k, n)
  {
  }

  /** No other edge comes into the closed triangle of an ear, but for its own end there. */
  lemma EarUncrossed(p: seq<Vec>, k: nat, i: nat, t: real)
    requires Simple(p) && |p| >= 4 && k < |p| && OpenEar(p, k) && i < |p| && i != Prev(k, |p|) && i != k && Unit(t)
    requires i == Next(k, |p|) ==> t > 0.0
    requires Next(i, |p|) == Prev(k, |p|) ==> t < 1.0
    ensures !InTriangle(Corner(p, k), At(p[i], p[Next(i, |p|)], t))
  {
    var n := |p|;
    var a, b, c := p[Prev(k, n)], p[k], p[Next(k, n)];
    assert Corner(p, k) == [a, b, c];
    EarStrangers(n, k, i);
    assert i != Next(k, n) ==> Apart(p[i], p[Next(i, n)], b, c);
    assert Next(i, n) != Prev(k, n) ==> Apart(p[i], p[Next(i, n)], a, b);
    if InTriangle([a, b, c], At(p[i], p[Next(i, n)], t)) {
      if Next(i, n) == Prev(k, n) {
        EndsAtCorner(a, b, c, p[i], t);
      } else if i == Next(k, n) {
        StartsAtCorner(a, b, c, p[Next(i, n)], t);
      } else {
        PassesThrough(a, b, c, p[i], p[Next(i, n)], t);
      }
    }
  }

  // ----- what is left of a simple polygon

  /** The index in p of vertex m of p without vertex k. */
  function Old(m: nat, k: nat): nat { if m < k then m else m + 1 }

  lemma OldNeighbours(n: nat, k: nat, m: nat)
    requires n >= 4 && k < n && m < n - 1
    ensures Old(m, k) < n && Old(m, k) != k
    ensures Old(Next(m, n - 1), k) == if Old(m, k) == Prev(k, n) then Next(k, n) else Next(Old(m, k), n)
  {
  }

  lemma OldStrangers(n: nat, k: nat, i: nat, j: nat)
    requires n >= 4 && k < n && i < n - 1 && j < n - 1 && Strangers(i, j, n - 1)
    ensures Old(i, k) < n && Old(j, k) < n
    ensures Old(i, k) != Prev(k, n) && Old(j, k) != Prev(k, n) ==> Strangers(Old(i, k), Old(j, k), n)
    ensures Old(i, k) == Prev(k, n) ==> Outer(Old(j, k), k, n)
    ensures Old(j, k) == Prev(k, n) ==> Outer(Old(i, k), k, n)
  {
    OldNeighbours(n, k, i);
    OldNeighbours(n, k, j);
  }

  /** An edge that touches none of the corner's three vertices. */
  predicate Outer(i: nat, k: nat, n: nat)
    requires i < n && k < n
  {
    i != Prev(k, n) && i != k && i != Next(k, n) && Next(i, n) != Prev(k, n)
  }

  /** The third edge of a triangle is in it. */
  lemma ThirdEdgeInside(a: Vec, b: Vec, c: Vec, t: real)
    requires Turn([a, b, c]) > 0.0 && Unit(t)
    ensures InTriangle([a, b, c], At(a, c, t))
  {
    SideAffine(a, b, a, c, t);
    SideAffine(b, c, a, c, t);
    SideAffine(c, a, a, c, t);
    SidesOfVertices(a, b, c);
    SidesOfVertices(b, c, a);
    SidesOfVertices(c, a, b);
    TurnRotates(a, b, c);
    Nonnegative(t, Turn([a, b, c]));
    Nonnegative(1.0 - t, Turn([a, b, c]));
  }

  /** The edge that replaces the corner at k keeps apart from the edges that do not touch the corner. */
  ghost predicate Shortcut(p: seq<Vec>, k: nat)
    requires k < |p|
  {
    forall j: nat :: j < |p| && Outer(j, k, |p|) ==> Apart(p[Prev(k, |p|)], p[Next(k, |p|)], p[j], p[Next(j, |p|)])
  }

  lemma EarIsShortcut(p: seq<Vec>, k: nat)
    requires Simple(p) && |p| >= 4 && k < |p| && OpenEar(p, k)
    ensures Shortcut(p, k)
  {
    var n := |p|;
    var a, b, c := p[Prev(k, n)], p[k], p[Next(k, n)];
    assert Corner(p, k) == [a, b, c];
    forall j: nat, t, u | j < n && Outer(j, k, n) && Unit(t) && Unit(u)
      ensures At(a, c, t) != At(p[j], p[Next(j, n)], u)
    {
      ThirdEdgeInside(a, b, c, t);
      EarUncrossed(p, k, j, u);
    }
  }

  lemma ClippedIsSimple(p: seq<Vec>, k: nat)
    requires Simple(p) && |p| >= 4 && k < |p| && Shortcut(p, k)
    ensures Simple(Without(p, k))
  {
    var n, q := |p|, Without(p, k);
    forall i: nat, j: nat | i < n - 1 && j < n - 1 && Strangers(i, j, n - 1)
      ensures Apart(q[i], q[Next(i, n - 1)], q[j], q[Next(j, n - 1)])
    {
      ClippedApart(p, k, i, j);
    }
  }

  lemma OldEdge(p: seq<Vec>, k: nat, m: nat)
    requires |p| >= 4 && k < |p| && m < |p| - 1
    ensures Old(m, k) < |p| && Without(p, k)[m] == p[Old(m, k)]
    ensures Without(p, k)[Next(m, |p| - 1)]
         == if Old(m, k) == Prev(k, |p|) then p[Next(k, |p|)] else p[Next(Old(m, k), |p|)]
  {
    OldNeighbours(|p|, k, m);
  }

  lemma ClippedApart(p: seq<Vec>, k: nat, i: nat, j: nat)
    requires Simple(p) && |p| >= 4 && k < |p| && Shortcut(p, k)
    requires i < |p| - 1 && j < |p| - 1 && Strangers(i, j, |p| - 1)
    ensures var q, m := Without(p, k), |p| - 1; Apart(q[i], q[Next(i, m)], q[j], q[Next(j, m)])
  {
    var n := |p|;
    OldStrangers(n, k, i, j);
    OldEdge(p, k, i);
    OldEdge(p, k, j);
    if Old(i, k) == Prev(k, n) {
      assert Old(j, k) != Prev(k, n);
    } else if Old(j, k) == Prev(k, n) {
      ApartIsSymmetric(p[Prev(k, n)], p[Next(k, n)], p[Old(i, k)], p[Next(Old(i, k), n)]);
    }
  }

  // ----- straight vertices

  /** The edge past a straight vertex is its two edges joined. */
  lemma JoinedEdge(a: Vec, b: Vec, c: Vec, t: real) returns (first: bool, u: real)
    requires Straight(a, b, c) && Unit(t)
    ensures Unit(u) && At(a, c, t) == if first then At(a, b, u) else At(b, c, u)
  {
    var r := StraightRatio(a, b, c);
    var w := Between(t, 1.0 + r);
    first := w <= 1.0;
    u := if first then w else SecondShare(w - 1.0, r);
    JoinedCoordinate(a.x, b.x, c.x, t, r, w, u);
    JoinedCoordinate(a.y, b.y, c.y, t, r, w, u);
  }

  function SecondShare(rest: real, r: real): (u: real)
    requires 0.0 < rest <= r
    ensures u * r == rest && Unit(u)
  {
    QuotientTimes(rest, r, rest / r);
    Quotient(rest / r, r, rest);
    rest / r
  }

  lemma JoinedCoordinate(a: real, b: real, c: real, t: real, r: real, w: real, u: real)
    requires c - b == r * (b - a) && w == t * (1.0 + r)
    requires if w <= 1.0 then u == w else u * r == w - 1.0
    ensures Along(a, c, t) == if w <= 1.0 then Along(a, b, u) else Along(b, c, u)
  {
    JoinedAlong(a, b, c, t, r, w);
    if w > 1.0 {
      SecondPart(b, c, b - a, r, w - 1.0, u);
    }
  }

  lemma JoinedAlong(a: real, b: real, c: real, t: real, r: real, w: real)
    requires c - b == r * (b - a) && w == t * (1.0 + r)
    ensures Along(a, c, t) == Along(a, b, w) == b + (w - 1.0) * (b - a)
  {
    var e := b - a;
    assert c - a == (1.0 + r) * e;
    assert t * ((1.0 + r) * e) == w * e;
    assert (w - 1.0) * e == w * e - e;
  }

  lemma SecondPart(b: real, c: real, e: real, r: real, rest: real, u: real)
    requires c - b == r * e && u * r == rest
    ensures Along(b, c, u) == b + rest * e
  {
    assert u * (r * e) == rest * e;
  }

  lemma StraightIsShortcut(p: seq<Vec>, k: nat)
    requires Simple(p) && |p| >= 4 && k < |p| && StraightAt(p, k)
    ensures Shortcut(p, k)
  {
    var n := |p|;
    var a, b, c := p[Prev(k, n)], p[k], p[Next(k, n)];
    forall j: nat | j < n && Outer(j, k, n) ensures Apart(a, c, p[j], p[Next(j, n)]) {
      EarStrangers(n, k, j);
      assert Apart(p[j], p[Next(j, n)], b, c) && Apart(p[j], p[Next(j, n)], a, b);
      forall t, u | Unit(t) && Unit(u) ensures At(a, c, t) != At(p[j], p[Next(j, n)], u) {
        var first, w := JoinedEdge(a, b, c, t);
      }
    }
  }

  lemma ThreeVerticesAreSimple(p: seq<Vec>)
    requires |p| <= 3
    ensures Simple(p)
  {
  }

  lemma {:induction false} DropKeepsSimple(p: seq<Vec>, mask: seq<bool>)
    requires Simple(p) && |p| == |mask| && forall k :: 0 <= k < |p| && mask[k] ==> StraightAt(p, k)
    ensures Simple(Keep(p, mask))
    decreases |p|
  {
    if forall k :: 0 <= k < |mask| ==> !mask[k] {
      KeepAll(p, mask);
    } else {
      var k := LastMasked(mask);
      StraightNeedsThree(p, k);
      KeepWithout(p, mask, k);
      if |p| == 3 {
        ThreeVerticesAreSimple(Without(p, k));
      } else {
        StraightIsShortcut(p, k);
        ClippedIsSimple(p, k);
      }
      forall j | 0 <= j < |p| - 1 && Without(mask, k)[j] ensures StraightAt(Without(p, k), j) {
        StillStraight(p, k, j);
      }
      DropKeepsSimple(Without(p, k), Without(mask, k));
    }
  }

  /** Cleaning keeps a polygon simple. */
  lemma {:induction false} CleanedIsSimple(p: seq<Vec>)
    requires Simple(p)
    ensures Simple(Cleaned(p))
    decreases |p|
  {
    var mask := StraightMask(p);
    if |p| > 3 && exists k :: 0 <= k < |mask| && mask[k] {
      KeepShrinks(p, mask);
      DropKeepsSimple(p, mask);
      CleanedIsSimple(Keep(p, mask));
    }
  }

  // ----- ears by index

  ghost predicate DistinctIds(ids: seq<nat>) { forall i, j :: 0 <= i < j < |ids| ==> ids[i] != ids[j] }

  lemma EarIsOpen(p: seq<Vec>, ids: seq<nat>, k: nat)
    requires Indices(p, ids) && DistinctIds(ids) && k < |ids| && IsEar(p, ids, k)
    ensures OpenEar(Points(p, ids), k)
  {
    var n := |ids|;
    forall m: nat | m < n && m != Prev(k, n) && m != k && m != Next(k, n)
      ensures !InTriangle(Corner(Points(p, ids), k), Points(p, ids)[m])
    {
      assert ids[m] !in Corner(ids, k);
    }
  }

  lemma StillDistinct(ids: seq<nat>, k: nat)
    requires DistinctIds(ids) && k < |ids|
    ensures DistinctIds(Without(ids, k))
  {
  }
}
