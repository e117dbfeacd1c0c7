/** A simple polygon that never turns right is convex, so the parts that convex_parts returns are
    (workbench/research/support/newhug.py). */
module LocallyConvex {
  import opened Roots
  import opened Planar
  import opened EarClipping
  import opened Segments
  import opened SimplePolygons
  import opened Windings
  import opened Triangulations
  import opened PolygonTurns
  import opened Diagonals
  import opened TwoEarsTheorem

  /** Every vertex is on the left of every edge, or on its line. */
  ghost predicate Convex(p: seq<Vec>) {
    |p| >= 3 && forall i: nat, m: nat :: i < |p| && m < |p| ==> Side(p[i], p[Next(i, |p|)], p[m]) >= 0.0
  }

  ghost predicate NeverRight(p: seq<Vec>) { forall k: nat :: k < |p| ==> Turn(Corner(p, k)) >= 0.0 }

  // ----- the corners beside an ear

  lemma SideSwaps(a: Vec, b: Vec, v: Vec)
    ensures Side(a, b, v) == -Side(b, a, v) && Turn([v, a, b]) == Side(a, b, v) && Turn([a, b, v]) == Side(a, b, v)
  {
  }

  /** Without the ear the corner before it still turns left. */
  lemma BeforeEar(p: seq<Vec>, k: nat)
    requires Simple(p) && |p| >= 4 && NeverRight(p) && k < |p| && OpenEar(p, k)
    ensures var h := Prev(k, |p|); Turn([p[Prev(h, |p|)], p[h], p[Next(k, |p|)]]) > 0.0
  {
    var n := |p|;
    var h := Prev(k, n);
    var l := Prev(h, n);
    var u, a, b, c := p[l], p[h], p[k], p[Next(k, n)];
    assert Corner(p, k) == [a, b, c] && Corner(p, h) == [u, a, b];
    if Turn([u, a, c]) <= 0.0 {
      SideSwaps(a, b, u);
      SideSwaps(a, c, u);
      TriangleHasCorners(a, b, c);
      assert !InTriangle([a, b, c], u);
      assert Next(l, n) == h && Strangers(l, k, n) && Apart(u, a, b, c);
      EdgeFlipped(u, a, b, c);
      var s, first, t := MeetsEdge(a, b, c, a, u);
    }
  }

  /** And so does the corner after it. */
  lemma AfterEar(p: seq<Vec>, k: nat)
    requires Simple(p) && |p| >= 4 && NeverRight(p) && k < |p| && OpenEar(p, k)
    ensures var h := Next(k, |p|); Turn([p[Prev(k, |p|)], p[h], p[Next(h, |p|)]]) > 0.0
  {
    var n := |p|;
    var h := Next(k, n);
    var a, b, c, w := p[Prev(k, n)], p[k], p[h], p[Next(h, n)];
    assert Corner(p, k) == [a, b, c] && Corner(p, h) == [b, c, w];
    if Turn([a, c, w]) <= 0.0 {
      SideSwaps(b, c, w);
      SideSwaps(a, c, w);
      TriangleHasCorners(a, b, c);
      assert !InTriangle([a, b, c], w);
      assert Next(Prev(k, n), n) == k && Strangers(h, Prev(k, n), n) && Apart(c, w, a, b);
      var s, first, t := MeetsEdge(a, b, c, c, w);
    }
  }

  lemma RestNeverRight(p: seq<Vec>, k: nat)
    requires Simple(p) && |p| >= 4 && NeverRight(p) && k < |p| && OpenEar(p, k)
    ensures NeverRight(Without(p, k))
  {
    var n, rest := |p|, Without(p, k);
    BeforeEar(p, k);
    AfterEar(p, k);
    forall m: nat | m < n - 1 ensures Turn(Corner(rest, m)) >= 0.0 {
      RestCorner(p, k, m);
    }
  }

  /** The corner at o once the vertex k is gone. */
  function CornerWithout(p: seq<Vec>, k: nat, o: nat): seq<Vec>
    requires k < |p| && o < |p|
  {
    var n := |p|;
    if o == Prev(k, n) then [p[Prev(o, n)], p[o], p[Next(k, n)]]
    else if o == Next(k, n) then [p[Prev(k, n)], p[o], p[Next(o, n)]]
    else Corner(p, o)
  }

  lemma RestCorner(p: seq<Vec>, k: nat, m: nat)
    requires |p| >= 4 && k < |p| && m < |p| - 1
    ensures Old(m, k) < |p| && Old(m, k) != k
    ensures Corner(Without(p, k), m) == CornerWithout(p, k, Old(m, k))
  {
    OldNeighbours(|p|, k, m);
    OldNeighbours(|p|, k, Prev(m, |p| - 1));
  }

  // ----- all to the left

  /** (e x g)(f x h) = (f x g)(e x h) + (e x f)(g x h). */
  lemma FourVectors(e: Vec, f: Vec, g: Vec, h: Vec)
    ensures Cross(e, g) * Cross(f, h) == Cross(f, g) * Cross(e, h) + Cross(e, f) * Cross(g, h)
  {
  }

  lemma FirstEdgeOfEar(u: Vec, a: Vec, b: Vec, c: Vec, v: Vec)
    requires Turn([u, a, c]) > 0.0 && Turn([a, b, c]) > 0.0 && Turn([u, a, b]) >= 0.0
    requires Side(u, a, v) >= 0.0 && Side(a, c, v) >= 0.0
    ensures Side(a, b, v) >= 0.0
  {
    var e, f, g, h := Sub(a, u), Sub(b, a), Sub(c, a), Sub(v, a);
    FourVectors(e, f, g, h);
    EarCrosses(u, a, b, c, v);
    Weighted(Turn([u, a, c]), Side(a, b, v), Turn([a, b, c]), Side(u, a, v), Turn([u, a, b]), Side(a, c, v));
  }

  lemma EarCrosses(u: Vec, a: Vec, b: Vec, c: Vec, v: Vec)
    ensures var e, f, g, h := Sub(a, u), Sub(b, a), Sub(c, a), Sub(v, a);
      (Cross(e, g) == Turn([u, a, c]) && Cross(f, h) == Side(a, b, v) && Cross(f, g) == Turn([a, b, c])
       && Cross(e, h) == Side(u, a, v) && Cross(e, f) == Turn([u, a, b]) && Cross(g, h) == Side(a, c, v))
  {
  }

  lemma SecondEdgeOfEar(a: Vec, b: Vec, c: Vec, w: Vec, v: Vec)
    requires Turn([a, c, w]) > 0.0 && Turn([a, b, c]) > 0.0 && Turn([b, c, w]) >= 0.0
    requires Side(a, c, v) >= 0.0 && Side(c, w, v) >= 0.0
    ensures Side(b, c, v) >= 0.0
  {
    var e, f, g, h := Sub(c, a), Sub(c, b), Sub(w, c), Sub(v, c);
    FourVectors(e, f, g, h);
    EarCrossesAfter(a, b, c, w, v);
    Weighted(Turn([a, c, w]), Side(b, c, v), Turn([b, c, w]), Side(a, c, v), Turn([a, b, c]), Side(c, w, v));
  }

  lemma EarCrossesAfter(a: Vec, b: Vec, c: Vec, w: Vec, v: Vec)
    ensures var e, f, g, h := Sub(c, a), Sub(c, b), Sub(w, c), Sub(v, c);
      (Cross(e, g) == Turn([a, c, w]) && Cross(f, h) == Side(b, c, v) && Cross(f, g) == Turn([b, c, w])
       && Cross(e, h) == Side(a, c, v) && Cross(e, f) == Turn([a, b, c]) && Cross(g, h) == Side(c, w, v))
  {
  }

  lemma Weighted(d: real, x: real, s: real, y: real, t: real, z: real)
    requires d > 0.0 && s >= 0.0 && y >= 0.0 && t >= 0.0 && z >= 0.0 && d * x == s * y + t * z
    ensures x >= 0.0
  {
    Nonnegative(s, y);
    Nonnegative(t, z);
    Scaled(0.0, x, d);
  }

  function New(m: nat, k: nat): nat
    requires m != k
  {
    if m < k then m else m - 1
  }

  lemma NewEdge(p: seq<Vec>, k: nat, i: nat)
    requires |p| >= 4 && k < |p| && i < |p| && i != k
    ensures New(i, k) < |p| - 1 && Without(p, k)[New(i, k)] == p[i]
    ensures Without(p, k)[Next(New(i, k), |p| - 1)] == if i == Prev(k, |p|) then p[Next(k, |p|)] else p[Next(i, |p|)]
  {
    OldEdge(p, k, New(i, k));
  }

  lemma OtherEar(p: seq<Vec>, m: nat) returns (k: nat)
    requires TwoEars(p)
    ensures k < |p| && k != m && OpenEar(p, k)
  {
    var i: nat, j: nat :| i < |p| && j < |p| && Strangers(i, j, |p|) && OpenEar(p, i) && OpenEar(p, j);
    k := if i != m then i else j;
  }

  /** Every vertex of a simple polygon that never turns right is on the left of every edge. */
  lemma {:induction false} LeftOfEvery(p: seq<Vec>, i: nat, m: nat)
    requires Simple(p) && |p| >= 3 && Counterclockwise(p) && NeverRight(p) && i < |p| && m < |p|
    ensures Side(p[i], p[Next(i, |p|)], p[m]) >= 0.0
    decreases |p|, 1
  {
    if |p| == 3 {
      LeftInTriangle(p, i, m);
    } else {
      var n := |p|;
      TwoEarsOf(p);
      var k := OtherEar(p, m);
      if i == k {
        LeftInRest(p, k, Prev(k, n), m);
        LeftInRest(p, k, Next(k, n), m);
        LeftOfSecond(p, k, m);
      } else if i == Prev(k, n) {
        LeftInRest(p, k, i, m);
        LeftInRest(p, k, Prev(i, n), m);
        LeftOfFirst(p, k, m);
      } else {
        LeftInRest(p, k, i, m);
      }
    }
  }

  /** The same once the ear k is gone. */
  lemma LeftInRest(p: seq<Vec>, k: nat, i: nat, m: nat)
    requires Simple(p) && |p| >= 4 && Counterclockwise(p) && NeverRight(p) && k < |p| && OpenEar(p, k)
    requires i < |p| && m < |p| && i != k && m != k
    ensures Side(p[i], if i == Prev(k, |p|) then p[Next(k, |p|)] else p[Next(i, |p|)], p[m]) >= 0.0
    decreases |p|, 0
  {
    RestIsCounterclockwise(p, k);
    RestNeverRight(p, k);
    NewEdge(p, k, i);
    NewEdge(p, k, m);
    LeftOfEvery(Without(p, k), New(i, k), New(m, k));
  }

  lemma LeftOfFirst(p: seq<Vec>, k: nat, m: nat)
    requires Simple(p) && |p| >= 4 && NeverRight(p) && k < |p| && m < |p| && OpenEar(p, k)
    requires var n := |p|; var h := Prev(k, n);
      Side(p[Prev(h, n)], p[h], p[m]) >= 0.0 && Side(p[h], p[Next(k, n)], p[m]) >= 0.0
    ensures Side(p[Prev(k, |p|)], p[k], p[m]) >= 0.0
  {
    var n := |p|;
    var h := Prev(k, n);
    assert Corner(p, k) == [p[h], p[k], p[Next(k, n)]] && Corner(p, h) == [p[Prev(h, n)], p[h], p[k]];
    BeforeEar(p, k);
    FirstEdgeOfEar(p[Prev(h, n)], p[h], p[k], p[Next(k, n)], p[m]);
  }

  lemma LeftOfSecond(p: seq<Vec>, k: nat, m: nat)
    requires Simple(p) && |p| >= 4 && NeverRight(p) && k < |p| && m < |p| && OpenEar(p, k)
    requires var n := |p|; var o := Next(k, n);
      Side(p[Prev(k, n)], p[o], p[m]) >= 0.0 && Side(p[o], p[Next(o, n)], p[m]) >= 0.0
    ensures Side(p[k], p[Next(k, |p|)], p[m]) >= 0.0
  {
    var n := |p|;
    var o := Next(k, n);
    assert Corner(p, k) == [p[Prev(k, n)], p[k], p[o]] && Corner(p, o) == [p[k], p[o], p[Next(o, n)]];
    AfterEar(p, k);
    SecondEdgeOfEar(p[Prev(k, n)], p[k], p[o], p[Next(o, n)], p[m]);
  }

  lemma NeverRightIsConvex(p: seq<Vec>)
    requires Simple(p) && |p| >= 3 && Counterclockwise(p) && NeverRight(p)
    ensures Convex(p)
  {
    forall i: nat, m: nat | i < |p| && m < |p| ensures Side(p[i], p[Next(i, |p|)], p[m]) >= 0.0 {
      LeftOfEvery(p, i, m);
    }
  }

  lemma LeftInTriangle(p: seq<Vec>, i: nat, m: nat)
    requires |p| == 3 && Turn(p) > 0.0 && i < 3 && m < 3
    ensures Side(p[i], p[Next(i, 3)], p[m]) >= 0.0
  {
    var a, b, c := p[0], p[1], p[2];
    assert p == [a, b, c];
    TurnRotates(a, b, c);
    SidesOfVertices(a, b, c);
    SidesOfVertices(b, c, a);
    SidesOfVertices(c, a, b);
  }
}
