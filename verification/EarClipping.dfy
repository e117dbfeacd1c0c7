/** Ear clipping of a target polygon (workbench/research/support/newhug.py, convex_parts), and the two
    quantities it conserves: signed area and, at every point, the winding number of the crossing rule. */
module EarClipping {
  import opened Roots
  import opened InputErrors
  import opened Planar

  // ----- closed loops and what they enclose

  /** Twice the signed area together with the signed crossings seen from one query point. */
  datatype Tally = Tally(area2: real, winding: int)

  function Plus(a: Tally, b: Tally): Tally { Tally(a.area2 + b.area2, a.winding + b.winding) }

  const NOTHING := Tally(0.0, 0)

  /** The edge from a to b passes the height of v: half-open in y, as in the polygon test of the source. */
  predicate Straddles(v: Vec, a: Vec, b: Vec) { (a.y > v.y) != (b.y > v.y) }

  /** The height line meets the edge to the right of v. */
  predicate Hits(v: Vec, a: Vec, b: Vec) {
    Straddles(v, a, b) && v.x < a.x + (v.y - a.y) * (b.x - a.x) / (b.y - a.y)
  }

  function Crossing(v: Vec, a: Vec, b: Vec): int {
    if !Hits(v, a, b) then 0 else if b.y > v.y then 1 else -1
  }

  function EdgeTerm(v: Vec, a: Vec, b: Vec): Tally { Tally(Cross(a, b), Crossing(v, a, b)) }

  type EdgeQuantity = (Vec, Vec) -> Tally

  /** The edge quantity seen from one query point. */
  function From(v: Vec): EdgeQuantity { (a, b) => EdgeTerm(v, a, b) }

  /** An edge taken backwards counts negatively. */
  ghost predicate Antisymmetric(g: EdgeQuantity) {
    forall a, b :: Plus(g(a, b), g(b, a)) == NOTHING
  }

  function Path(g: EdgeQuantity, p: seq<Vec>): Tally {
    if |p| < 2 then NOTHING else Plus(g(p[0], p[1]), Path(g, p[1..]))
  }

  /** The sum around the closed polygon. With From(v): twice its signed area and its winding number around v. */
  function Loop(g: EdgeQuantity, p: seq<Vec>): Tally {
    if p == [] then NOTHING else Plus(Path(g, p), g(p[|p| - 1], p[0]))
  }

  /** v.x < xhit, without the division. */
  lemma HitsBySide(v: Vec, a: Vec, b: Vec)
    requires Straddles(v, a, b)
    ensures b.y > a.y ==> (Hits(v, a, b) <==> Cross(Sub(b, a), Sub(v, a)) > 0.0)
    ensures b.y < a.y ==> (Hits(v, a, b) <==> Cross(Sub(b, a), Sub(v, a)) < 0.0)
  {
    var rise := b.y - a.y;
    var s := (v.y - a.y) * (b.x - a.x) / rise;
    assert s * rise == (v.y - a.y) * (b.x - a.x);
    var gap := a.x + s - v.x;
    SideIsScaledGap(v, a, b, s, rise, gap);
    SignOfProduct(rise, gap);
  }

  lemma SideIsScaledGap(v: Vec, a: Vec, b: Vec, s: real, rise: real, gap: real)
    requires rise == b.y - a.y && s * rise == (v.y - a.y) * (b.x - a.x) && gap == a.x + s - v.x
    ensures Cross(Sub(b, a), Sub(v, a)) == rise * gap
  {
    assert rise * gap == rise * (a.x - v.x) + s * rise;
  }

  lemma SignOfProduct(r: real, g: real)
    requires r != 0.0
    ensures r > 0.0 ==> (r * g > 0.0 <==> g > 0.0)
    ensures r < 0.0 ==> (r * g < 0.0 <==> g > 0.0)
  {
  }

  lemma Reversed(v: Vec, a: Vec, b: Vec)
    ensures EdgeTerm(v, b, a) == Tally(-Cross(a, b), -Crossing(v, a, b))
  {
    if Straddles(v, a, b) {
      HitsBySide(v, a, b);
      HitsBySide(v, b, a);
      SideReversed(v, a, b);
    }
  }

  lemma SideReversed(v: Vec, a: Vec, b: Vec)
    ensures Cross(Sub(a, b), Sub(v, b)) == -Cross(Sub(b, a), Sub(v, a))
  {
  }

  lemma FromIsAntisymmetric(v: Vec)
    ensures Antisymmetric(From(v))
  {
    forall a, b ensures Plus(From(v)(a, b), From(v)(b, a)) == NOTHING {
      Reversed(v, a, b);
    }
  }

  lemma PlusAssociative(x: Tally, y: Tally, z: Tally)
    ensures Plus(Plus(x, y), z) == Plus(x, Plus(y, z)) && Plus(NOTHING, x) == x
  {
    assert x == Tally(x.area2, x.winding);
  }

  lemma PathStep(g: EdgeQuantity, p: seq<Vec>, rest: seq<Vec>)
    requires |p| >= 2 && rest == p[1..]
    ensures Path(g, p) == Plus(g(p[0], rest[0]), Path(g, rest))
  {
  }

  lemma {:induction false} PathJoin(g: EdgeQuantity, a: seq<Vec>, b: seq<Vec>)
    requires a != [] && b != []
    ensures Path(g, a + b) == Plus(Plus(Path(g, a), g(a[|a| - 1], b[0])), Path(g, b))
  {
    if |a| == 1 {
      PathStep(g, a + b, b);
      PlusAssociative(g(a[0], b[0]), NOTHING, NOTHING);
    } else {
      var rest, last := a[1..], g(a[|a| - 1], b[0]);
      PathJoin(g, rest, b);
      assert (a + b)[1..] == rest + b;
      PathStep(g, a + b, rest + b);
      PathStep(g, a, rest);
      PlusAssociative(g(a[0], rest[0]), Path(g, rest), last);
      PlusAssociative(g(a[0], rest[0]), Plus(Path(g, rest), last), Path(g, b));
    }
  }

  function Without<T>(s: seq<T>, k: nat): (r: seq<T>)
    requires k < |s|
    ensures |r| == |s| - 1
  {
    s[..k] + s[k + 1..]
  }

  function Prev(k: nat, n: nat): (j: nat)
    requires k < n
    ensures j < n
  {
    if k == 0 then n - 1 else k - 1
  }

  function Next(k: nat, n: nat): (h: nat)
    requires k < n
    ensures h < n
  {
    if k + 1 == n then 0 else k + 1
  }

  /** The corner at k: its predecessor, itself and its successor around the loop. */
  function Corner<T>(s: seq<T>, k: nat): (t: seq<T>)
    requires k < |s|
    ensures |t| == 3
  {
    [s[Prev(k, |s|)], s[k], s[Next(k, |s|)]]
  }

  lemma TriangleLoop(g: EdgeQuantity, a: Vec, b: Vec, c: Vec)
    ensures Loop(g, [a, b, c]) == Plus(Plus(g(a, b), g(b, c)), g(c, a))
  {
    PathJoin(g, [a], [b, c]);
    PathJoin(g, [b], [c]);
    assert [a] + [b, c] == [a, b, c] && [b] + [c] == [b, c];
  }

  /** Cutting one corner off splits the sum exactly into the corner triangle and the rest. */
  lemma CutCorner(g: EdgeQuantity, p: seq<Vec>, k: nat)
    requires Antisymmetric(g) && k < |p| && |p| >= 3
    ensures Loop(g, p) == Plus(Loop(g, Without(p, k)), Loop(g, Corner(p, k)))
  {
    var n := |p|;
    var a, b, c := p[Prev(k, n)], p[k], p[Next(k, n)];
    CutVertex(g, p, k, a, b, c);
    TriangleLoop(g, a, b, c);
    assert Corner(p, k) == [a, b, c];
    Rearranged(Loop(g, p), Loop(g, Without(p, k)), g(a, b), g(b, c), g(a, c), g(c, a));
  }

  lemma Rearranged(whole: Tally, rest: Tally, ab: Tally, bc: Tally, ac: Tally, ca: Tally)
    requires Plus(whole, ac) == Plus(rest, Plus(ab, bc)) && Plus(ac, ca) == NOTHING
    ensures whole == Plus(rest, Plus(Plus(ab, bc), ca))
  {
    assert whole == Tally(whole.area2, whole.winding);
  }

  lemma CutVertex(g: EdgeQuantity, p: seq<Vec>, k: nat, a: Vec, b: Vec, c: Vec)
    requires k < |p| && |p| >= 3 && Corner(p, k) == [a, b, c]
    ensures Plus(Loop(g, p), g(a, c)) == Plus(Loop(g, Without(p, k)), Plus(g(a, b), g(b, c)))
  {
    var n := |p|;
    assert [a, b, c][0] == a && [a, b, c][1] == b && [a, b, c][2] == c;
    if k == 0 {
      CutFirst(g, b, p[1..]);
      assert p == [b] + p[1..] && Without(p, k) == p[1..];
    } else if k == n - 1 {
      CutLast(g, p[..n - 1], b);
      assert p == p[..n - 1] + [b] && Without(p, k) == p[..n - 1];
    } else {
      CutInside(g, p[..k], b, p[k + 1..]);
      assert p == p[..k] + [b] + p[k + 1..];
    }
  }

  lemma CutFirst(g: EdgeQuantity, b: Vec, w: seq<Vec>)
    requires w != []
    ensures Plus(Loop(g, [b] + w), g(w[|w| - 1], w[0])) == Plus(Loop(g, w), Plus(g(w[|w| - 1], b), g(b, w[0])))
  {
    PathJoin(g, [b], w);
  }

  lemma CutLast(g: EdgeQuantity, u: seq<Vec>, b: Vec)
    requires u != []
    ensures Plus(Loop(g, u + [b]), g(u[|u| - 1], u[0])) == Plus(Loop(g, u), Plus(g(u[|u| - 1], b), g(b, u[0])))
  {
    PathJoin(g, u, [b]);
  }

  lemma CutInside(g: EdgeQuantity, u: seq<Vec>, b: Vec, w: seq<Vec>)
    requires u != [] && w != []
    ensures Plus(Loop(g, u + [b] + w), g(u[|u| - 1], w[0])) ==
            Plus(Loop(g, u + w), Plus(g(u[|u| - 1], b), g(b, w[0])))
  {
    assert u + [b] + w == u + ([b] + w);
    PathJoin(g, u, [b] + w);
    PathJoin(g, [b], w);
    PathJoin(g, u, w);
  }

  // ----- vertices on a straight edge

  /** b continues straight on from a to c. */
  predicate Straight(a: Vec, b: Vec, c: Vec) {
    Cross(Sub(b, a), Sub(c, b)) == 0.0 && Dot(Sub(b, a), Sub(c, b)) > 0.0
  }

  predicate StraightAt(p: seq<Vec>, k: nat)
    requires k < |p|
  {
    Straight(p[Prev(k, |p|)], p[k], p[Next(k, |p|)])
  }

  lemma NotOrthogonal(e: Vec, f: Vec)
    requires Dot(e, f) != 0.0
    ensures e != ZERO
  {
    assert e == ZERO ==> Dot(e, f) == 0.0 * f.x + 0.0 * f.y;
  }

  /** A straight continuation is a positive multiple of the step before it. */
  lemma StraightRatio(a: Vec, b: Vec, c: Vec) returns (r: real)
    requires Straight(a, b, c)
    ensures r > 0.0 && Sub(c, b) == Scale(r, Sub(b, a))
  {
    var e, f := Sub(b, a), Sub(c, b);
    NotOrthogonal(e, f);
    NonzeroSquare(e);
    var q := Dot(e, e);
    r := Dot(e, f) / q;
    assert r * q == Dot(e, f);
    assert q * f.x == Dot(e, f) * e.x - Cross(e, f) * e.y;
    assert q * f.y == Dot(e, f) * e.y + Cross(e, f) * e.x;
    Cancel(q, r, f.x, e.x);
    Cancel(q, r, f.y, e.y);
  }

  lemma Cancel(q: real, r: real, x: real, e: real)
    requires q > 0.0 && q * x == (r * q) * e
    ensures x == r * e
  {
    assert q * (x - r * e) == 0.0;
  }

  lemma StraightFromRatio(a: Vec, b: Vec, c: Vec, r: real)
    requires r > 0.0 && Sub(c, b) == Scale(r, Sub(b, a)) && a != b
    ensures Straight(a, b, c)
  {
    var e := Sub(b, a);
    assert e != ZERO by {
      assert a == Vec(a.x, a.y) && b == Vec(b.x, b.y);
    }
    NonzeroSquare(e);
    var s := Product(r, Dot(e, e));
    assert Dot(e, Scale(r, e)) == r * Dot(e, e) by { DotMultiple(r, e); }
    CrossScale(e, r, e);
    assert Cross(e, e) == 0.0;
  }

  lemma DotMultiple(r: real, e: Vec)
    ensures Dot(e, Scale(r, e)) == r * Dot(e, e)
  {
    assert e.x * (r * e.x) == r * (e.x * e.x) && e.y * (r * e.y) == r * (e.y * e.y);
  }

  /** Two consecutive straight vertices: skipping the first or the second keeps the other straight. */
  lemma StraightChain(a: Vec, b: Vec, c: Vec, d: Vec)
    requires Straight(a, b, c) && Straight(b, c, d)
    ensures Straight(a, c, d) && Straight(a, b, d)
  {
    var r := StraightRatio(a, b, c);
    var s := StraightRatio(b, c, d);
    ScaleTwice(s, r, Sub(b, a));
    DistinctSteps(a, b, c);
    var rs := Product(r, s);
    SkipSecond(a, b, c, d, r, rs, Sub(b, a));
    SkipFirst(a, b, c, d, r, rs, Sub(b, a));
  }

  lemma SkipSecond(a: Vec, b: Vec, c: Vec, d: Vec, r: real, rs: real, e: Vec)
    requires r > 0.0 && rs > 0.0 && a != b && e == Sub(b, a) && Sub(c, b) == Scale(r, e) && Sub(d, c) == Scale(rs, e)
    ensures Straight(a, b, d)
  {
    SumOfSteps(b, c, d, r, rs, e);
    StraightFromRatio(a, b, d, r + rs);
  }

  lemma SkipFirst(a: Vec, b: Vec, c: Vec, d: Vec, r: real, rs: real, e: Vec)
    requires r > 0.0 && rs > 0.0 && a != b && e == Sub(b, a) && Sub(c, b) == Scale(r, e) && Sub(d, c) == Scale(rs, e)
    ensures Straight(a, c, d)
  {
    assert Scale(1.0, e) == e;
    SumOfSteps(a, b, c, 1.0, r, e);
    var t := rs / (1.0 + r);
    assert t * (1.0 + r) == rs;
    ScaleTwice(t, 1.0 + r, e);
    assert e != ZERO by { assert a == Vec(a.x, a.y) && b == Vec(b.x, b.y); }
    Straddled(a, c, e, 1.0 + r);
    StraightFromRatio(a, c, d, t);
  }

  lemma SumOfSteps(a: Vec, b: Vec, c: Vec, r: real, s: real, e: Vec)
    requires Sub(b, a) == Scale(r, e) && Sub(c, b) == Scale(s, e)
    ensures Sub(c, a) == Scale(r + s, e)
  {
  }

  lemma DistinctSteps(a: Vec, b: Vec, c: Vec)
    requires Straight(a, b, c)
    ensures Sub(b, a) != ZERO && a != b
  {
    NotOrthogonal(Sub(b, a), Sub(c, b));
  }

  lemma Straddled(a: Vec, c: Vec, e: Vec, r: real)
    requires Sub(c, a) == Scale(r, e) && r > 0.0 && e != ZERO
    ensures a != c
  {
    assert e == Vec(e.x, e.y);
    assert a == c ==> r * e.x == 0.0 && r * e.y == 0.0;
  }

  /** The triangle of a straight vertex encloses nothing, from any point of view. */
  lemma StraightEnclosesNothing(v: Vec, a: Vec, b: Vec, c: Vec)
    requires Straight(a, b, c)
    ensures Loop(From(v), [a, b, c]) == NOTHING
  {
    TriangleLoop(From(v), a, b, c);
    Reversed(v, a, c);
    assert Cross(a, b) + Cross(b, c) + Cross(c, a) == Cross(Sub(b, a), Sub(c, b));
    var r := StraightRatio(a, b, c);
    CrossingsAddUp(v, a, b, c, r);
  }

  lemma CrossingsAddUp(v: Vec, a: Vec, b: Vec, c: Vec, r: real)
    requires r > 0.0 && Sub(c, b) == Scale(r, Sub(b, a))
    ensures Crossing(v, a, b) + Crossing(v, b, c) == Crossing(v, a, c)
  {
    var s := Cross(Sub(b, a), Sub(v, a));
    SidesAgree(v, a, b, c, r);
    SignOfProduct(r, s);
    SignOfProduct(1.0 + r, s);
    SameSignSteps(b.y - a.y, r, c.y - b.y);
    if Straddles(v, a, b) { HitsBySide(v, a, b); }
    if Straddles(v, b, c) { HitsBySide(v, b, c); }
    if Straddles(v, a, c) { HitsBySide(v, a, c); }
  }

  lemma SameSignSteps(x: real, r: real, y: real)
    requires r > 0.0 && y == r * x
    ensures (x > 0.0 <==> y > 0.0) && (x < 0.0 <==> y < 0.0)
  {
    SignOfProduct(r, x);
    if x < 0.0 {
      var p := Product(r, -x);
    }
  }

  lemma SidesAgree(v: Vec, a: Vec, b: Vec, c: Vec, r: real)
    requires Sub(c, b) == Scale(r, Sub(b, a))
    ensures var s := Cross(Sub(b, a), Sub(v, a));
      Cross(Sub(c, b), Sub(v, b)) == r * s && Cross(Sub(c, a), Sub(v, a)) == (1.0 + r) * s
  {
    var e := Sub(b, a);
    CrossFlip(Scale(r, e), Sub(v, b));
    CrossScale(Sub(v, b), r, e);
    CrossFlip(e, Sub(v, b));
    assert Cross(e, Sub(v, b)) == Cross(e, Sub(v, a)) by { ShiftAlong(v, a, b); }
    assert Sub(c, a) == Scale(1.0 + r, e) by { SumOfSteps(a, b, c, 1.0, r, e); }
    CrossFlip(Scale(1.0 + r, e), Sub(v, a));
    CrossScale(Sub(v, a), 1.0 + r, e);
    CrossFlip(e, Sub(v, a));
  }

  lemma CrossFlip(a: Vec, b: Vec)
    ensures Cross(a, b) == -Cross(b, a)
  {
  }

  lemma ShiftAlong(v: Vec, a: Vec, b: Vec)
    ensures Cross(Sub(b, a), Sub(v, b)) == Cross(Sub(b, a), Sub(v, a))
  {
  }

  // ----- removing every straight vertex at once

  /** Boolean-mask selection: the unmasked vertices in order. */
  function Keep(p: seq<Vec>, mask: seq<bool>): seq<Vec>
    requires |p| == |mask|
  {
    if p == [] then []
    else
      var n := |p| - 1;
      Keep(p[..n], mask[..n]) + (if mask[n] then [] else [p[n]])
  }

  function StraightMask(p: seq<Vec>): (mask: seq<bool>)
    ensures |mask| == |p|
  {
    seq(|p|, k requires 0 <= k < |p| => StraightAt(p, k))
  }

  lemma {:induction false} KeepAll(p: seq<Vec>, mask: seq<bool>)
    requires |p| == |mask| && forall k :: 0 <= k < |mask| ==> !mask[k]
    ensures Keep(p, mask) == p
  {
    if p != [] {
      KeepAll(p[..|p| - 1], mask[..|p| - 1]);
    }
  }

  lemma {:induction false} KeepWithout(p: seq<Vec>, mask: seq<bool>, k: nat)
    requires |p| == |mask| && k < |p| && mask[k]
    ensures Keep(p, mask) == Keep(Without(p, k), Without(mask, k))
  {
    var n := |p| - 1;
    if k == n {
      assert Without(p, k) == p[..n] && Without(mask, k) == mask[..n];
    } else {
      KeepWithout(p[..n], mask[..n], k);
      assert Without(p, k)[..n - 1] == Without(p[..n], k);
      assert Without(mask, k)[..n - 1] == Without(mask[..n], k);
    }
  }

  lemma StraightNeedsThree(p: seq<Vec>, k: nat)
    requires k < |p| && StraightAt(p, k)
    ensures |p| >= 3
  {
    var a, b, c := p[Prev(k, |p|)], p[k], p[Next(k, |p|)];
    var r := StraightRatio(a, b, c);
    DistinctSteps(a, b, c);
    if |p| < 3 {
      assert a == c;
      BackAndForth(a, b, r);
    }
  }

  lemma BackAndForth(a: Vec, b: Vec, r: real)
    requires r > 0.0 && Sub(a, b) == Scale(r, Sub(b, a))
    ensures a == b
  {
    Halts(a.x - b.x, r);
    Halts(a.y - b.y, r);
    assert a == Vec(a.x, a.y) && b == Vec(b.x, b.y);
  }

  lemma Halts(d: real, r: real)
    requires r > 0.0 && d == r * -d
    ensures d == 0.0
  {
    if d > 0.0 {
      var p := Product(r, d);
    } else if d < 0.0 {
      var p := Product(r, -d);
    }
  }

  /** Removing one straight vertex leaves the other straight vertices before it straight. */
  lemma StillStraight(p: seq<Vec>, k: nat, j: nat)
    requires j < k < |p| && |p| >= 3 && StraightAt(p, k) && StraightAt(p, j)
    ensures StraightAt(Without(p, k), j)
  {
    var n := |p|;
    if j + 1 == k {
      StraightChain(p[Prev(j, n)], p[j], p[k], p[Next(k, n)]);
    } else if j == 0 && k == n - 1 {
      StraightChain(p[Prev(k, n)], p[k], p[j], p[Next(j, n)]);
    }
  }

  lemma {:induction false} DropStraight(v: Vec, p: seq<Vec>, mask: seq<bool>)
    requires |p| == |mask| && forall k :: 0 <= k < |p| && mask[k] ==> StraightAt(p, k)
    ensures Loop(From(v), Keep(p, mask)) == Loop(From(v), p)
    decreases |p|
  {
    if forall k :: 0 <= k < |mask| ==> !mask[k] {
      KeepAll(p, mask);
    } else {
      var k := LastMasked(mask);
      StraightNeedsThree(p, k);
      KeepWithout(p, mask, k);
      FromIsAntisymmetric(v);
      CutCorner(From(v), p, k);
      StraightEnclosesNothing(v, p[Prev(k, |p|)], p[k], p[Next(k, |p|)]);
      forall j | 0 <= j < |p| - 1 && Without(mask, k)[j] ensures StraightAt(Without(p, k), j) {
        StillStraight(p, k, j);
      }
      DropStraight(v, Without(p, k), Without(mask, k));
    }
  }

  lemma {:induction false} LastMasked(mask: seq<bool>) returns (k: nat)
    requires exists i :: 0 <= i < |mask| && mask[i]
    ensures k < |mask| && mask[k] && forall j :: k < j < |mask| ==> !mask[j]
  {
    k := |mask| - 1;
    while !mask[k]
      decreases k
      invariant k < |mask| && forall j :: k < j < |mask| ==> !mask[j]
    {
      k := k - 1;
    }
  }

  lemma {:induction false} KeepShrinks(p: seq<Vec>, mask: seq<bool>)
    requires |p| == |mask|
    ensures |Keep(p, mask)| <= |p|
    ensures (exists k :: 0 <= k < |mask| && mask[k]) ==> |Keep(p, mask)| < |p|
  {
    if p != [] {
      var n := |p| - 1;
      KeepShrinks(p[..n], mask[..n]);
      assert forall k :: 0 <= k < n ==> mask[..n][k] == mask[k];
    }
  }

  /** Two polygons enclose the same signed area and wind equally often around every point. */
  ghost predicate SameRegion(p: seq<Vec>, q: seq<Vec>) {
    forall v :: Loop(From(v), p) == Loop(From(v), q)
  }

  /** All straight vertices dropped at once, again and again, while more than three are left. */
  function Cleaned(p: seq<Vec>): seq<Vec>
    decreases |p|
  {
    var mask := StraightMask(p);
    if |p| > 3 && exists k :: 0 <= k < |mask| && mask[k] then
      KeepShrinks(p, mask);
      Cleaned(Keep(p, mask))
    else p
  }

  /** Cleaning leaves the same region, and no straight vertex unless at most three are left. */
  lemma {:induction false} CleanedKeepsRegion(p: seq<Vec>)
    ensures SameRegion(Cleaned(p), p)
    ensures |Cleaned(p)| <= 3 || forall k :: 0 <= k < |Cleaned(p)| ==> !StraightAt(Cleaned(p), k)
    decreases |p|
  {
    var mask := StraightMask(p);
    if |p| > 3 && exists k :: 0 <= k < |mask| && mask[k] {
      KeepShrinks(p, mask);
      CleanedKeepsRegion(Keep(p, mask));
      forall v ensures Loop(From(v), Keep(p, mask)) == Loop(From(v), p) {
        DropStraight(v, p, mask);
      }
    } else {
      assert forall k :: 0 <= k < |p| ==> mask[k] == StraightAt(p, k);
    }
  }

  /** The cleaning loop. */
  method RemoveStraight(vertices: seq<Vec>) returns (p: seq<Vec>)
    ensures p == Cleaned(vertices)
  {
    p := vertices;
    while |p| > 3
      invariant Cleaned(p) == Cleaned(vertices)
      decreases |p|
    {
      var mask := StraightMask(p);
      if forall k :: 0 <= k < |mask| ==> !mask[k] {
        break;
      }
      KeepShrinks(p, mask);
      p := Keep(p, mask);
    }
  }

  // ----- ear clipping

  function Points(p: seq<Vec>, ids: seq<nat>): (q: seq<Vec>)
    requires forall k :: 0 <= k < |ids| ==> ids[k] < |p|
    ensures |q| == |ids|
  {
    seq(|ids|, k requires 0 <= k < |ids| => p[ids[k]])
  }

  function Turn(t: seq<Vec>): real
    requires |t| == 3
  {
    Cross(Sub(t[1], t[0]), Sub(t[2], t[1]))
  }

  /** The closed triangle test of the source. */
  predicate InTriangle(t: seq<Vec>, v: Vec)
    requires |t| == 3
  {
    && Cross(Sub(t[1], t[0]), Sub(v, t[0])) >= 0.0
    && Cross(Sub(t[2], t[1]), Sub(v, t[1])) >= 0.0
    && Cross(Sub(t[0], t[2]), Sub(v, t[2])) >= 0.0
  }

  predicate Indices(p: seq<Vec>, ids: seq<nat>) {
    forall k :: 0 <= k < |ids| ==> ids[k] < |p|
  }

  /** The corner at k turns left and no other remaining vertex lies in its closed triangle. */
  predicate IsEar(p: seq<Vec>, ids: seq<nat>, k: nat)
    requires Indices(p, ids) && k < |ids|
  {
    var t := Corner(Points(p, ids), k);
    Turn(t) > 0.0 && forall m :: 0 <= m < |ids| && ids[m] !in Corner(ids, k) ==> !InTriangle(t, p[ids[m]])
  }

  ghost predicate FirstEar(p: seq<Vec>, ids: seq<nat>, k: nat)
    requires Indices(p, ids)
  {
    k < |ids| && IsEar(p, ids, k) && forall j :: 0 <= j < k ==> !IsEar(p, ids, j)
  }

  /** The triangles come off as successive first ears; the last three vertices are the last triangle. */
  ghost predicate Clips(p: seq<Vec>, ids: seq<nat>, tris: seq<seq<Vec>>)
    requires Indices(p, ids)
  {
    if |ids| <= 3 then |ids| == 3 && tris == [Points(p, ids)]
    else tris != [] && exists k ::
      FirstEar(p, ids, k) && tris[0] == Corner(Points(p, ids), k) && Clips(p, Without(ids, k), tris[1..])
  }

  /** The first ear of a clipping. */
  lemma SomeClip(p: seq<Vec>, ids: seq<nat>, tris: seq<seq<Vec>>) returns (j: nat)
    requires Indices(p, ids) && |ids| > 3 && Clips(p, ids, tris)
    ensures FirstEar(p, ids, j) && Indices(p, Without(ids, j))
    ensures tris != [] && tris[0] == Corner(Points(p, ids), j) && Clips(p, Without(ids, j), tris[1..])
  {
    j :| FirstEar(p, ids, j) && tris[0] == Corner(Points(p, ids), j) && Clips(p, Without(ids, j), tris[1..]);
  }

  /** Some stage of the clipping has more than three vertices and no ear. */
  ghost predicate Stuck(p: seq<Vec>, ids: seq<nat>)
    requires Indices(p, ids)
  {
    && |ids| > 3
    && ((forall k :: 0 <= k < |ids| ==> !IsEar(p, ids, k)) ||
        exists k :: FirstEar(p, ids, k) && Stuck(p, Without(ids, k)))
  }

  method FindEar(p: seq<Vec>, ids: seq<nat>) returns (k: nat)
    requires Indices(p, ids)
    ensures k <= |ids| && forall j :: 0 <= j < k ==> !IsEar(p, ids, j)
    ensures k < |ids| ==> FirstEar(p, ids, k)
  {
    k := 0;
    while k < |ids|
      invariant k <= |ids| && forall j :: 0 <= j < k ==> !IsEar(p, ids, j)
    {
      if IsEar(p, ids, k) {
        return;
      }
      k := k + 1;
    }
  }

  lemma WithoutKeepsIndices(p: seq<Vec>, ids: seq<nat>, k: nat)
    requires Indices(p, ids) && k < |ids|
    ensures Indices(p, Without(ids, k))
    ensures Points(p, Without(ids, k)) == Without(Points(p, ids), k)
  {
  }

  lemma ClipFront(p: seq<Vec>, ids: seq<nat>, k: nat, rest: seq<seq<Vec>>)
    requires Indices(p, ids) && |ids| > 3 && FirstEar(p, ids, k)
    ensures Indices(p, Without(ids, k))
    ensures Clips(p, Without(ids, k), rest) ==> Clips(p, ids, [Corner(Points(p, ids), k)] + rest)
    ensures Stuck(p, Without(ids, k)) ==> Stuck(p, ids)
  {
    WithoutKeepsIndices(p, ids, k);
    var tris := [Corner(Points(p, ids), k)] + rest;
    assert tris[1..] == rest;
  }

  /** What is left to clip completes what was clipped so far. */
  ghost predicate Completes(p: seq<Vec>, all: seq<nat>, done: seq<seq<Vec>>, ids: seq<nat>)
    requires Indices(p, all) && Indices(p, ids)
  {
    && (forall rest {:trigger Clips(p, ids, rest)} :: Clips(p, ids, rest) ==> Clips(p, all, done + rest))
    && (Stuck(p, ids) ==> Stuck(p, all))
  }

  lemma CompletesStep(p: seq<Vec>, all: seq<nat>, done: seq<seq<Vec>>, ids: seq<nat>, k: nat)
    requires Indices(p, all) && Indices(p, ids) && |ids| > 3 && FirstEar(p, ids, k) && Completes(p, all, done, ids)
    ensures Indices(p, Without(ids, k))
    ensures Completes(p, all, done + [Corner(Points(p, ids), k)], Without(ids, k))
  {
    WithoutKeepsIndices(p, ids, k);
    var t := Corner(Points(p, ids), k);
    ClipFront(p, ids, k, []);
    forall rest | Clips(p, Without(ids, k), rest) ensures Clips(p, all, (done + [t]) + rest) {
      ClipFront(p, ids, k, rest);
      assert (done + [t]) + rest == done + ([t] + rest);
    }
  }

  lemma Begin(p: seq<Vec>, all: seq<nat>)
    requires Indices(p, all)
    ensures Completes(p, all, [], all)
  {
    forall rest | Clips(p, all, rest) ensures Clips(p, all, [] + rest) {
      assert [] + rest == rest;
    }
  }

  lemma Finish(p: seq<Vec>, all: seq<nat>, done: seq<seq<Vec>>, ids: seq<nat>)
    requires Indices(p, all) && Indices(p, ids) && |ids| == 3 && Completes(p, all, done, ids)
    ensures Clips(p, all, done + [Points(p, ids)])
  {
    assert Clips(p, ids, [Points(p, ids)]);
  }

  lemma BoundSuffices(n: nat)
    requires n >= 3
    ensures n * n >= n
  {
  }

  /** One round of the loop: the first ear, if there is one, comes off. */
  method ClipOne(p: seq<Vec>, ghost all: seq<nat>, triangles: seq<seq<Vec>>, ids: seq<nat>)
    returns (clipped: bool, triangles': seq<seq<Vec>>, ids': seq<nat>)
    requires Indices(p, all) && Indices(p, ids) && |ids| > 3 && Completes(p, all, triangles, ids)
    ensures Indices(p, ids')
    ensures clipped ==> |ids'| == |ids| - 1 && Completes(p, all, triangles', ids')
    ensures !clipped ==> Stuck(p, all)
  {
    var k := FindEar(p, ids);
    if k == |ids| {
      return false, triangles, ids;
    }
    CompletesStep(p, all, triangles, ids, k);
    return true, triangles + [Corner(Points(p, ids), k)], Without(ids, k);
  }

  /** The bounded clipping loop. The bound is never the reason for failure: one round clips one vertex. */
  method ClipEars(p: seq<Vec>) returns (r: Result<seq<seq<Vec>>>)
    requires |p| >= 3
    ensures var ids := seq(|p|, k => k);
      match r case Ok(tris) => Clips(p, ids, tris) case InputError => Stuck(p, ids)
  {
    var ids: seq<nat> := seq(|p|, k => k);
    ghost var all := ids;
    var triangles: seq<seq<Vec>> := [];
    Begin(p, all);
    BoundSuffices(|p|);
    var bound := |p| * |p|;
    for round := 0 to bound
      invariant Indices(p, all) && Indices(p, ids) && round + |ids| == |p| && |ids| >= 3
      invariant Completes(p, all, triangles, ids)
    {
      if |ids| == 3 {
        Finish(p, all, triangles, ids);
        return Ok(triangles + [Points(p, ids)]);
      }
      var clipped;
      clipped, triangles, ids := ClipOne(p, all, triangles, ids);
      if !clipped {
        return InputError;
      }
    }
    assert false;
  }

  predicate TurnsRight(p: seq<Vec>) {
    exists k :: 0 <= k < |p| && Turn(Corner(p, k)) < 0.0
  }

  /** convex_parts: the cleaned polygon itself when it never turns right, otherwise its ears. */
  method ConvexParts(vertices: seq<Vec>) returns (r: Result<seq<seq<Vec>>>)
    ensures Cleaned(vertices) == [] ==> r == InputError
    ensures Cleaned(vertices) != [] && !TurnsRight(Cleaned(vertices)) ==> r == Ok([Cleaned(vertices)])
    ensures TurnsRight(Cleaned(vertices)) ==> var ids := seq(|Cleaned(vertices)|, k => k);
      match r case Ok(tris) => Clips(Cleaned(vertices), ids, tris) case InputError => Stuck(Cleaned(vertices), ids)
    ensures r.Ok? ==> forall v :: Total(From(v), r.value) == Loop(From(v), vertices)
  {
    var p := RemoveStraight(vertices);
    CleanedKeepsRegion(vertices);
    if p == [] {
      return InputError;
    }
    if !TurnsRight(p) {
      forall v ensures Total(From(v), [p]) == Loop(From(v), p) {
        assert [p][1..] == [];
      }
      return Ok([p]);
    }
    RightTurnNeedsThree(p);
    r := ClipEars(p);
    if r.Ok? {
      forall v ensures Total(From(v), r.value) == Loop(From(v), vertices) {
        TrianglesKeepRegion(vertices, p, r.value, v);
      }
    }
  }

  lemma RightTurnNeedsThree(p: seq<Vec>)
    requires TurnsRight(p)
    ensures |p| >= 3
  {
    var k :| 0 <= k < |p| && Turn(Corner(p, k)) < 0.0;
    if |p| < 3 {
      FlatTurn(p[Prev(k, |p|)], p[k]);
    }
  }

  lemma FlatTurn(a: Vec, b: Vec)
    ensures Cross(Sub(b, a), Sub(a, b)) == 0.0
  {
  }

  // ----- what clipping conserves

  function Total(g: EdgeQuantity, parts: seq<seq<Vec>>): Tally {
    if parts == [] then NOTHING else Plus(Loop(g, parts[0]), Total(g, parts[1..]))
  }

  /** Any antisymmetric edge quantity of the polygon is the sum over the triangles, and there are two fewer
      triangles than vertices. */
  lemma {:induction false} ClippingConserves(g: EdgeQuantity, p: seq<Vec>, ids: seq<nat>, tris: seq<seq<Vec>>)
    requires Antisymmetric(g) && Indices(p, ids) && Clips(p, ids, tris)
    ensures Total(g, tris) == Loop(g, Points(p, ids)) && |tris| == |ids| - 2
    decreases |ids|
  {
    if |ids| > 3 {
      var k := SomeClip(p, ids, tris);
      WithoutKeepsIndices(p, ids, k);
      ClippingConserves(g, p, Without(ids, k), tris[1..]);
      CutCorner(g, Points(p, ids), k);
    } else {
      assert tris[1..] == [];
    }
  }

  /** Every clipped part is a triangle, and every one but the last turns left. */
  lemma {:induction false} EarsTurnLeft(p: seq<Vec>, ids: seq<nat>, tris: seq<seq<Vec>>)
    requires Indices(p, ids) && Clips(p, ids, tris)
    ensures forall i :: 0 <= i < |tris| ==> |tris[i]| == 3
    ensures forall i :: 0 <= i < |tris| - 1 ==> |tris[i]| == 3 && Turn(tris[i]) > 0.0
    decreases |ids|
  {
    if |ids| > 3 {
      var k := SomeClip(p, ids, tris);
      WithoutKeepsIndices(p, ids, k);
      EarsTurnLeft(p, Without(ids, k), tris[1..]);
      AllButLast(tris);
    }
  }

  lemma AllButLast(tris: seq<seq<Vec>>)
    requires tris != [] && tris[1..] != [] && |tris[0]| == 3 && Turn(tris[0]) > 0.0
    requires forall i :: 0 <= i < |tris[1..]| ==> |tris[1..][i]| == 3
    requires forall i :: 0 <= i < |tris[1..]| - 1 ==> |tris[1..][i]| == 3 && Turn(tris[1..][i]) > 0.0
    ensures forall i :: 0 <= i < |tris| ==> |tris[i]| == 3
    ensures forall i :: 0 <= i < |tris| - 1 ==> |tris[i]| == 3 && Turn(tris[i]) > 0.0
  {
    forall i | 0 <= i < |tris| ensures |tris[i]| == 3 && (i < |tris| - 1 ==> Turn(tris[i]) > 0.0) {
      if i > 0 { assert tris[i] == tris[1..][i - 1]; }
    }
  }

  /** How many edges the height line meets to the right of v; the point test is its parity. */
  function HitCount(v: Vec, p: seq<Vec>, n: nat): nat
    requires n <= |p|
  {
    if n == 0 then 0 else HitCount(v, p, n - 1) + (if Hits(v, p[n - 1], p[Next(n - 1, |p|)]) then 1 else 0)
  }

  /** The even-odd point test of the source. */
  predicate Inside(v: Vec, p: seq<Vec>) { HitCount(v, p, |p|) % 2 == 1 }

  lemma {:induction false} PathSnoc(g: EdgeQuantity, p: seq<Vec>, n: nat)
    requires 1 <= n < |p|
    ensures Path(g, p[..n + 1]) == Plus(Path(g, p[..n]), g(p[n - 1], p[n]))
  {
    PathJoin(g, p[..n], [p[n]]);
    assert p[..n + 1] == p[..n] + [p[n]];
  }

  lemma {:induction false} HitsMatchPath(v: Vec, p: seq<Vec>, n: nat)
    requires n < |p|
    ensures (HitCount(v, p, n) - Path(From(v), p[..n + 1]).winding) % 2 == 0
  {
    if n > 0 {
      HitsMatchPath(v, p, n - 1);
      PathSnoc(From(v), p, n);
      HitStep(v, p[n - 1], p[n], HitCount(v, p, n - 1), Path(From(v), p[..n]));
    }
  }

  /** One more edge changes the hits and the winding alike. */
  lemma HitStep(v: Vec, a: Vec, b: Vec, hits: nat, sofar: Tally)
    requires (hits - sofar.winding) % 2 == 0
    ensures (hits + (if Hits(v, a, b) then 1 else 0) - Plus(sofar, From(v)(a, b)).winding) % 2 == 0
  {
    EvenStep(hits - sofar.winding, Crossing(v, a, b), Hits(v, a, b));
  }

  lemma EvenStep(even: int, c: int, hit: bool)
    requires even % 2 == 0 && (if hit then c == 1 || c == -1 else c == 0)
    ensures (even + (if hit then 1 else 0) - c) % 2 == 0
  {
  }

  /** The even-odd test sees the parity of the winding number. */
  lemma InsideIsOddWinding(v: Vec, p: seq<Vec>)
    ensures Inside(v, p) <==> Loop(From(v), p).winding % 2 == 1
  {
    if p != [] {
      var n := |p| - 1;
      HitsMatchPath(v, p, n);
      assert p[..n + 1] == p;
      var last := Crossing(v, p[n], p[0]);
      assert HitCount(v, p, n + 1) == HitCount(v, p, n) + (if last == 0 then 0 else 1);
      SameParity(HitCount(v, p, n), Path(From(v), p).winding, last);
    }
  }

  lemma SameParity(h: nat, w: int, c: int)
    requires (h - w) % 2 == 0 && -1 <= c <= 1
    ensures (h + if c == 0 then 0 else 1) % 2 == 1 <==> (w + c) % 2 == 1
  {
  }

  lemma TriangleOnce(v: Vec, t: seq<Vec>)
    requires |t| == 3 && Turn(t) > 0.0
    ensures 0 <= Loop(From(v), t).winding <= 1
  {
    assert t == [t[0], t[1], t[2]];
    TriangleLoop(From(v), t[0], t[1], t[2]);
    ThreeCrossings(v, t[0], t[1], t[2]);
  }

  /** A left-turning triangle winds at most once around any point, and once exactly around the points inside. */
  lemma TriangleWinding(v: Vec, t: seq<Vec>)
    requires |t| == 3 && Turn(t) > 0.0
    ensures Loop(From(v), t).winding == if Inside(v, t) then 1 else 0
  {
    TriangleOnce(v, t);
    InsideIsOddWinding(v, t);
  }

  lemma ThreeCrossings(v: Vec, a: Vec, b: Vec, c: Vec)
    requires Turn([a, b, c]) > 0.0
    ensures 0 <= Crossing(v, a, b) + Crossing(v, b, c) + Crossing(v, c, a) <= 1
  {
    TurnRotates(a, b, c);
    TwoEdges(v, a, b, c);
    TwoEdges(v, b, c, a);
    TwoEdges(v, c, a, b);
  }

  lemma TurnRotates(a: Vec, b: Vec, c: Vec)
    ensures Turn([b, c, a]) == Turn([a, b, c]) && Turn([c, a, b]) == Turn([a, b, c])
  {
  }

  /** Where the loop passes the height of v going up from a to b and down from b to c (or down and up), a
      left turn at b orders the two meeting points. */
  lemma TwoEdges(v: Vec, a: Vec, b: Vec, c: Vec)
    ensures Turn([a, b, c]) > 0.0 && Straddles(v, a, b) && Straddles(v, b, c) ==>
      Crossing(v, a, b) + Crossing(v, b, c) == 0 || Crossing(v, a, b) + Crossing(v, b, c) == 1
  {
    if Turn([a, b, c]) > 0.0 && Straddles(v, a, b) && Straddles(v, b, c) {
      HitsBySide(v, a, b);
      HitsBySide(v, b, c);
      MeetingOrder(v, a, b, c, Cross(Sub(b, a), Sub(v, a)), Cross(Sub(c, b), Sub(v, b)), Turn([a, b, c]));
    }
  }

  lemma MeetingOrder(v: Vec, a: Vec, b: Vec, c: Vec, s: real, t: real, turn: real)
    requires s == Cross(Sub(b, a), Sub(v, a)) && t == Cross(Sub(c, b), Sub(v, b)) && turn == Turn([a, b, c]) > 0.0
    ensures b.y > a.y && b.y > c.y && b.y > v.y ==> s > 0.0 || t > 0.0
    ensures b.y < a.y && b.y < c.y && b.y <= v.y ==> s > 0.0 || t >= 0.0
  {
    assert s * (b.y - c.y) + t * (b.y - a.y) == turn * (b.y - v.y);
    if b.y > a.y && b.y > c.y && b.y > v.y && s <= 0.0 && t <= 0.0 {
      var p := Product(turn, b.y - v.y);
      Nonpositive(s, b.y - c.y);
      Nonpositive(t, b.y - a.y);
    }
    if b.y < a.y && b.y < c.y && b.y <= v.y && s <= 0.0 && t < 0.0 {
      var p := Product(-t, a.y - b.y);
      Nonpositive(s, c.y - b.y);
      Nonpositive(b.y - v.y, turn);
    }
  }

  lemma Nonpositive(s: real, d: real)
    requires s <= 0.0 && d >= 0.0
    ensures s * d <= 0.0
  {
  }

  /** How many triangles contain the point. */
  function Cover(v: Vec, tris: seq<seq<Vec>>): nat {
    if tris == [] then 0 else (if Inside(v, tris[0]) then 1 else 0) + Cover(v, tris[1..])
  }

  lemma {:induction false} CoverIsWinding(v: Vec, tris: seq<seq<Vec>>)
    requires forall i :: 0 <= i < |tris| ==> |tris[i]| == 3 && Turn(tris[i]) > 0.0
    ensures Total(From(v), tris).winding == Cover(v, tris)
  {
    if tris != [] {
      TriangleWinding(v, tris[0]);
      CoverIsWinding(v, tris[1..]);
    }
  }

  lemma {:induction false} CoverParity(v: Vec, g: EdgeQuantity, tris: seq<seq<Vec>>)
    requires forall i :: 0 <= i < |tris| ==> (Inside(v, tris[i]) <==> Loop(g, tris[i]).winding % 2 == 1)
    ensures Cover(v, tris) % 2 == 1 <==> Total(g, tris).winding % 2 == 1
  {
    if tris != [] {
      CoverParity(v, g, tris[1..]);
      AddParity(if Inside(v, tris[0]) then 1 else 0, Loop(g, tris[0]).winding, Cover(v, tris[1..]),
                Total(g, tris[1..]).winding);
    }
  }

  lemma CoverHasTotalParity(v: Vec, tris: seq<seq<Vec>>)
    ensures Cover(v, tris) % 2 == 1 <==> Total(From(v), tris).winding % 2 == 1
  {
    forall i | 0 <= i < |tris| ensures Inside(v, tris[i]) <==> Loop(From(v), tris[i]).winding % 2 == 1 {
      InsideIsOddWinding(v, tris[i]);
    }
    CoverParity(v, From(v), tris);
  }

  lemma AddParity(a: int, a': int, b: int, b': int)
    requires (a % 2 == 1 <==> a' % 2 == 1) && (b % 2 == 1 <==> b' % 2 == 1)
    ensures (a + b) % 2 == 1 <==> (a' + b') % 2 == 1
  {
  }

  lemma AllIndices(g: EdgeQuantity, p: seq<Vec>, tris: seq<seq<Vec>>)
    requires Antisymmetric(g) && Clips(p, seq(|p|, k => k), tris)
    ensures Total(g, tris) == Loop(g, p) && |tris| == |p| - 2
  {
    ClippingConserves(g, p, seq(|p|, k => k), tris);
    assert Points(p, seq(|p|, k => k)) == p;
  }

  /** Whatever convex_parts triangulates: the triangles have the polygon's signed area in total, there are two
      fewer of them than cleaned vertices, and around every point they wind in total as often as the polygon. */
  lemma TrianglesKeepRegion(vertices: seq<Vec>, cleaned: seq<Vec>, tris: seq<seq<Vec>>, v: Vec)
    requires SameRegion(cleaned, vertices) && Clips(cleaned, seq(|cleaned|, k => k), tris)
    ensures |tris| == |cleaned| - 2
    ensures Total(From(v), tris) == Loop(From(v), vertices)
  {
    FromIsAntisymmetric(v);
    AllIndices(From(v), cleaned, tris);
    assert Loop(From(v), cleaned) == Loop(From(v), vertices);
  }

  /** A point is inside the polygon exactly when an odd number of the triangles contain it. */
  lemma TrianglesKeepInside(vertices: seq<Vec>, cleaned: seq<Vec>, tris: seq<seq<Vec>>, v: Vec)
    requires SameRegion(cleaned, vertices) && Clips(cleaned, seq(|cleaned|, k => k), tris)
    ensures Cover(v, tris) % 2 == 1 <==> Inside(v, vertices)
  {
    TrianglesKeepRegion(vertices, cleaned, tris, v);
    CoverHasTotalParity(v, tris);
    InsideIsOddWinding(v, vertices);
  }
}
