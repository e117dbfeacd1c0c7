/** Cutting a simple polygon at a diagonal from its lowest vertex: when another vertex is in the triangle of its lowest
    corner, the one furthest from the third edge is seen from it, and each of the two parts lies off the other. */
module Diagonals {
  import opened Roots
  import opened Planar
  import opened EarClipping
  import opened Notches
  import opened Segments
  import opened SimplePolygons
  import opened Windings
  import opened Triangulations
  import opened PolygonTurns
  import opened LowestVertex

  /** A simple polygon begun at its lowest vertex, where it turns left. */
  ghost predicate Set(p: seq<Vec>) { Simple(p) && |p| >= 4 && LowFirst(p) && Turn(Corner(p, 0)) > 0.0 }

  /** How far towards the lowest vertex, from the third edge of its corner. */
  function Depth(p: seq<Vec>, v: Vec): real
    requires |p| >= 2
  {
    Side(p[1], p[|p| - 1], v)
  }

  /** In the closed triangle of the lowest corner, and deepest there. */
  ghost predicate Deepest(p: seq<Vec>, j: nat)
    requires |p| >= 4
  {
    && 2 <= j <= |p| - 2 && InTriangle(Corner(p, 0), p[j])
    && forall i :: 2 <= i <= |p| - 2 && InTriangle(Corner(p, 0), p[i]) ==> Depth(p, p[i]) <= Depth(p, p[j])
  }

  lemma {:induction false} DeepestOf(p: seq<Vec>, n: nat) returns (j: nat)
    requires |p| >= 4 && 2 < n <= |p| - 1 && exists i :: 2 <= i < n && InTriangle(Corner(p, 0), p[i])
    ensures 2 <= j < n && InTriangle(Corner(p, 0), p[j])
    ensures forall i :: 2 <= i < n && InTriangle(Corner(p, 0), p[i]) ==> Depth(p, p[i]) <= Depth(p, p[j])
  {
    if exists i :: 2 <= i < n - 1 && InTriangle(Corner(p, 0), p[i]) {
      j := DeepestOf(p, n - 1);
      if InTriangle(Corner(p, 0), p[n - 1]) && Depth(p, p[n - 1]) > Depth(p, p[j]) {
        j := n - 1;
      }
    } else {
      j := n - 1;
    }
  }

  lemma SomeDeepest(p: seq<Vec>) returns (j: nat)
    requires |p| >= 4 && Turn(Corner(p, 0)) > 0.0 && !OpenEar(p, 0)
    ensures Deepest(p, j)
  {
    var i: nat :| i < |p| && i != |p| - 1 && i != 0 && i != 1 && InTriangle(Corner(p, 0), p[i]);
    j := DeepestOf(p, |p| - 1);
  }

  // ----- the diagonal

  /** The deepest vertex is off the corner's two edges. */
  lemma DeepestSides(p: seq<Vec>, j: nat)
    requires Set(p) && Deepest(p, j)
    ensures Side(p[|p| - 1], p[0], p[j]) > 0.0 && Side(p[0], p[1], p[j]) > 0.0
    ensures 0.0 <= Depth(p, p[j]) < Turn(Corner(p, 0))
  {
    var n, z := |p|, p[j];
    var a, m, c := p[n - 1], p[0], p[1];
    assert Corner(p, 0) == [a, m, c];
    TurnRotates(a, m, c);
    if Side(a, m, z) == 0.0 {
      var t := OnFirstEdge(a, m, c, z);
      VertexOff(p, j, n - 1);
    }
    if Side(m, c, z) == 0.0 {
      var t := OnFirstEdge(m, c, a, z);
      VertexOff(p, j, 0);
    }
    SidesAddUp(a, m, c, z);
  }

  /** The sides of a point on the way from the middle vertex. */
  lemma FromMiddle(a: Vec, m: Vec, c: Vec, z: Vec, s: real)
    ensures var x := At(m, z, s);
      (Side(a, m, x) == Mix(0.0, Side(a, m, z), s) && Side(m, c, x) == Mix(0.0, Side(m, c, z), s)
       && Side(c, a, x) == Mix(Turn([a, m, c]), Side(c, a, z), s))
  {
    SidesOfVertices(a, m, c);
    SidesOfVertices(m, c, a);
    SidesOfVertices(c, a, m);
    TurnRotates(a, m, c);
    SideAffine(a, m, m, z, s);
    SideAffine(m, c, m, z, s);
    SideAffine(c, a, m, z, s);
  }

  /** Towards a point of the triangle that is less deep than the middle vertex all is in it, and deeper. */
  lemma TowardsInner(a: Vec, m: Vec, c: Vec, z: Vec, s: real)
    requires 0.0 <= s < 1.0 && Side(a, m, z) >= 0.0 && Side(m, c, z) >= 0.0
    requires 0.0 <= Side(c, a, z) < Turn([a, m, c])
    ensures InTriangle([a, m, c], At(m, z, s)) && Side(c, a, At(m, z, s)) > Side(c, a, z)
  {
    FromMiddle(a, m, c, z, s);
    StaysUp(0.0, Side(a, m, z), s);
    StaysUp(0.0, Side(m, c, z), s);
    var d := Product(1.0 - s, Turn([a, m, c]) - Side(c, a, z));
    MixAbove(Turn([a, m, c]), Side(c, a, z), s, d);
  }

  lemma AlongDiagonal(p: seq<Vec>, j: nat, s: real)
    requires Set(p) && Deepest(p, j) && 0.0 <= s < 1.0
    ensures InTriangle(Corner(p, 0), At(p[0], p[j], s)) && Depth(p, At(p[0], p[j], s)) > Depth(p, p[j])
  {
    assert Corner(p, 0) == [p[|p| - 1], p[0], p[1]];
    DeepestSides(p, j);
    TowardsInner(p[|p| - 1], p[0], p[1], p[j], s);
  }

  lemma MixAbove(x: real, y: real, s: real, d: real)
    requires d == (1.0 - s) * (x - y)
    ensures Mix(x, y, s) == y + d
  {
  }

  lemma OneAsHigh(x: real, y: real, t: real)
    requires Unit(t)
    ensures x >= Mix(x, y, t) || y >= Mix(x, y, t)
  {
    MixMinus(x, y, Mix(x, y, t), t);
    OneIsUp(x - Mix(x, y, t), y - Mix(x, y, t), t);
  }

  /** The diagonal keeps apart from all edges that do not begin or end with it. */
  lemma DiagonalApart(p: seq<Vec>, j: nat, i: nat)
    requires Set(p) && Deepest(p, j) && 1 <= i <= |p| - 2 && i != j && i != j - 1
    ensures Apart(p[0], p[j], p[i], p[i + 1])
  {
    forall s, t | Unit(s) && Unit(t) ensures At(p[0], p[j], s) != At(p[i], p[i + 1], t) {
      if At(p[0], p[j], s) == At(p[i], p[i + 1], t) {
        if s == 1.0 {
          EndsOfEdge(p[0], p[j], s);
          VertexOff(p, j, i);
        } else {
          AlongDiagonal(p, j, s);
          NoneAbove(p, j, i, t);
        }
      }
    }
  }

  lemma DeeperIsOutside(p: seq<Vec>, j: nat, k: nat)
    requires Set(p) && Deepest(p, j) && 1 <= k <= |p| - 1 && Depth(p, p[k]) > Depth(p, p[j])
    ensures 2 <= k <= |p| - 2 && !InTriangle(Corner(p, 0), p[k])
  {
    DeepestSides(p, j);
    SidesOfVertices(p[1], p[|p| - 1], p[0]);
  }

  /** No edge has a point in the triangle that is deeper than the deepest vertex. */
  lemma NoneAbove(p: seq<Vec>, j: nat, i: nat, t: real)
    requires Set(p) && Deepest(p, j) && 1 <= i <= |p| - 2 && Unit(t)
    ensures var x := At(p[i], p[i + 1], t);
      !(InTriangle(Corner(p, 0), x) && Depth(p, x) > Depth(p, p[j]))
  {
    var n, x := |p|, At(p[i], p[i + 1], t);
    var a, m, c := p[n - 1], p[0], p[1];
    assert Corner(p, 0) == [a, m, c];
    if InTriangle([a, m, c], x) && Depth(p, x) > Depth(p, p[j]) {
      SideAffine(c, a, p[i], p[i + 1], t);
      OneAsHigh(Side(c, a, p[i]), Side(c, a, p[i + 1]), t);
      DeepestSides(p, j);
      SidesOfVertices(c, a, m);
      EndsOfEdge(p[i], p[i + 1], t);
      if Side(c, a, p[i + 1]) >= Side(c, a, x) {
        DeeperIsOutside(p, j, i + 1);
        Crosses(p, i, t, false);
      } else {
        DeeperIsOutside(p, j, i);
        Crosses(p, i, t, true);
      }
    }
  }

  /** No edge has a point deep in the triangle of the lowest corner and an end outside, not beyond the third edge: it
      would touch one of the corner's own. */
  lemma Crosses(p: seq<Vec>, i: nat, t: real, back: bool)
    requires Set(p) && 1 <= i <= |p| - 2 && Unit(t)
    requires var r := if back then p[i] else p[i + 1]; !InTriangle(Corner(p, 0), r) && Depth(p, r) >= 0.0
    ensures var x := At(p[i], p[i + 1], t); !(InTriangle(Corner(p, 0), x) && Depth(p, x) > 0.0)
  {
    var n, x := |p|, At(p[i], p[i + 1], t);
    var a, m, c := p[n - 1], p[0], p[1];
    assert Corner(p, 0) == [a, m, c];
    SidesOfVertices(c, a, m);
    EndsOfEdge(p[i], p[i + 1], t);
    TriangleHasCorners(a, m, c);
    if InTriangle([a, m, c], x) && Depth(p, x) > 0.0 {
      if i == n - 2 {
        assert Strangers(i, 0, n) && Apart(p[i], a, m, c);
        EndsAtCorner(a, m, c, p[i], t);
      } else if i == 1 {
        assert Strangers(i, n - 1, n) && Apart(c, p[2], a, m);
        StartsAtCorner(a, m, c, p[2], t);
      } else {
        MeetsCorner(p, i, t, back);
      }
    }
  }

  lemma MeetsCorner(p: seq<Vec>, i: nat, t: real, back: bool)
    requires Set(p) && 2 <= i <= |p| - 3 && Unit(t) && InTriangle(Corner(p, 0), At(p[i], p[i + 1], t))
    requires var r := if back then p[i] else p[i + 1]; !InTriangle(Corner(p, 0), r)
    ensures Depth(p, if back then p[i] else p[i + 1]) < 0.0
  {
    var n, x := |p|, At(p[i], p[i + 1], t);
    var a, m, c := p[n - 1], p[0], p[1];
    assert Corner(p, 0) == [a, m, c];
    if Depth(p, if back then p[i] else p[i + 1]) >= 0.0 {
      assert Strangers(i, 0, n) && Apart(p[i], p[i + 1], m, c);
      assert Strangers(i, n - 1, n) && Apart(p[i], p[i + 1], a, m);
      var s, first, v := MeetsEdge(a, m, c, x, if back then p[i] else p[i + 1]);
      var u;
      if back { u := TowardsStart(p[i], p[i + 1], t, s); } else { u := TowardsEnd(p[i], p[i + 1], t, s); }
    }
  }

  lemma TriangleHasCorners(a: Vec, b: Vec, c: Vec)
    requires Turn([a, b, c]) > 0.0
    ensures InTriangle([a, b, c], a) && InTriangle([a, b, c], c)
  {
    SidesOfVertices(a, b, c);
    SidesOfVertices(b, c, a);
    SidesOfVertices(c, a, b);
    TurnRotates(a, b, c);
  }

  // ----- the two parts

  /** From the lowest vertex to the diagonal's end, and from there back to the lowest vertex. */
  function LeftPart(p: seq<Vec>, j: nat): (q: seq<Vec>)
    requires j < |p|
    ensures |q| == j + 1 && forall i :: 0 <= i <= j ==> q[i] == p[i]
  {
    p[..j + 1]
  }

  function RightPart(p: seq<Vec>, j: nat): (q: seq<Vec>)
    requires 0 < j < |p|
    ensures |q| == |p| - j + 1 && q[0] == p[0] && forall i :: 0 < i < |q| ==> q[i] == p[j + i - 1]
  {
    [p[0]] + p[j..]
  }

  lemma LeftEdge(p: seq<Vec>, j: nat, k: nat)
    requires 0 < j < |p| - 1 && k <= j
    ensures var q := LeftPart(p, j); q[k] == p[k] && q[Next(k, |q|)] == if k == j then p[0] else p[k + 1]
    ensures k < j ==> Next(k, |p|) == k + 1
  {
  }

  lemma LeftStrangers(p: seq<Vec>, j: nat, k: nat, l: nat)
    requires 2 <= j <= |p| - 2 && k <= j && l <= j && Strangers(k, l, j + 1)
    ensures k < j && l < j ==> Strangers(k, l, |p|)
    ensures k == j ==> 1 <= l <= j - 2
    ensures l == j ==> 1 <= k <= j - 2
  {
  }

  lemma LeftApart(p: seq<Vec>, j: nat, k: nat, l: nat)
    requires Set(p) && Deepest(p, j) && k <= j && l <= j && Strangers(k, l, j + 1)
    ensures var q := LeftPart(p, j); Apart(q[k], q[Next(k, j + 1)], q[l], q[Next(l, j + 1)])
  {
    LeftEdge(p, j, k);
    LeftEdge(p, j, l);
    LeftStrangers(p, j, k, l);
    if k < j && l < j {
      assert Apart(p[k], p[Next(k, |p|)], p[l], p[Next(l, |p|)]);
    } else if k == j {
      DiagonalApart(p, j, l);
      EdgeFlipped(p[0], p[j], p[l], p[l + 1]);
    } else {
      DiagonalApart(p, j, k);
      EdgeFlipped(p[0], p[j], p[k], p[k + 1]);
      ApartIsSymmetric(p[j], p[0], p[k], p[k + 1]);
    }
  }

  lemma LeftIsSimple(p: seq<Vec>, j: nat)
    requires Set(p) && Deepest(p, j)
    ensures Simple(LeftPart(p, j))
  {
    var q := LeftPart(p, j);
    forall k: nat, l: nat | k < |q| && l < |q| && Strangers(k, l, |q|)
      ensures Apart(q[k], q[Next(k, |q|)], q[l], q[Next(l, |q|)])
    {
      LeftApart(p, j, k, l);
    }
  }

  lemma RightEdge(p: seq<Vec>, j: nat, k: nat)
    requires |p| >= 3 && 0 < j < |p| && 1 <= k <= |p| - j
    ensures var q := RightPart(p, j); q[k] == p[j + k - 1] && q[Next(k, |q|)] == p[Next(j + k - 1, |p|)]
  {
  }

  lemma RightIsSimple(p: seq<Vec>, j: nat)
    requires Set(p) && Deepest(p, j)
    ensures Simple(RightPart(p, j))
  {
    var n, q := |p|, RightPart(p, j);
    forall k: nat, l: nat | k < |q| && l < |q| && Strangers(k, l, |q|)
      ensures Apart(q[k], q[Next(k, |q|)], q[l], q[Next(l, |q|)])
    {
      if k != 0 && l != 0 {
        RightEdge(p, j, k);
        RightEdge(p, j, l);
        var e: nat, f: nat := j + k - 1, j + l - 1;
        assert Strangers(e, f, n) && Apart(p[e], p[Next(e, n)], p[f], p[Next(f, n)]);
      } else if k == 0 {
        RightEdge(p, j, l);
        DiagonalApart(p, j, j + l - 1);
      } else {
        RightEdge(p, j, k);
        DiagonalApart(p, j, j + k - 1);
        ApartIsSymmetric(p[0], p[j], p[j + k - 1], p[j + k]);
      }
    }
  }

  /** Both parts begin at the lowest vertex and turn left there. */
  lemma PartsAreSet(p: seq<Vec>, j: nat)
    requires Set(p) && Deepest(p, j)
    ensures var q := LeftPart(p, j); Simple(q) && LowFirst(q) && Turn(Corner(q, 0)) > 0.0
    ensures var q := RightPart(p, j); Simple(q) && LowFirst(q) && Turn(Corner(q, 0)) > 0.0
  {
    LeftIsSimple(p, j);
    RightIsSimple(p, j);
    DeepestSides(p, j);
    var a, m, c, z := p[|p| - 1], p[0], p[1], p[j];
    assert Corner(LeftPart(p, j), 0) == [z, m, c] && Corner(RightPart(p, j), 0) == [a, m, z];
    SidesOfVertices(a, m, z);
    SidesOfVertices(m, c, z);
    TurnRotates(z, m, c);
  }
}
