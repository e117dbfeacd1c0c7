/** The parts of a polygon cut at the diagonal from its lowest vertex: neither winds around the other's vertices, so an
    ear of a part that is off the diagonal is an ear of the polygon. */
module CutParts {
  import opened Roots
  import opened Planar
  import opened EarClipping
  import opened Notches
  import opened Segments
  import opened SimplePolygons
  import opened Windings
  import opened Triangulations
  import opened PolygonTurns
  import opened LowestVertex
  import opened Diagonals

  // ----- beside the lowest corner

  /** All of the way from m to r but its start is off the polygon. */
  ghost predicate OffRay(q: seq<Vec>, m: Vec, r: Vec) {
    forall i: nat, t, w :: i < |q| && Unit(t) && 0.0 < w <= 1.0 ==> At(q[i], q[Next(i, |q|)], t) != At(m, r, w)
  }

  lemma LaterOnWay(m: Vec, r: Vec, eps: real, u: real) returns (w: real)
    requires 0.0 < eps <= 1.0 && Unit(u)
    ensures 0.0 < w <= 1.0 && At(At(m, r, eps), r, u) == At(m, r, w)
  {
    var more := Between(u, 1.0 - eps);
    w := eps + more;
    Onward(m.x, r.x, eps, u, more);
    Onward(m.y, r.y, eps, u, more);
  }

  /** A polygon does not wind around the end of a way that leaves its lowest corner on the outside. */
  lemma UnwoundEnd(q: seq<Vec>, r: Vec)
    requires LowFirst(q) && |q| >= 3 && Turn(Corner(q, 0)) > 0.0 && OffRay(q, q[0], r)
    requires Side(q[|q| - 1], q[0], r) < 0.0 || Side(q[0], q[1], r) < 0.0
    ensures Loop(From(r), q).winding == 0
  {
    var s, eps := UnwoundBeside(q, r);
    forall i: nat | i < |q| ensures Apart(q[i], q[Next(i, |q|)], s, r) {
      forall t, u | Unit(t) && Unit(u) ensures At(q[i], q[Next(i, |q|)], t) != At(s, r, u) {
        var w := LaterOnWay(q[0], r, eps, u);
      }
    }
    SameWinding(q, s, r);
  }

  /** Two ways from m in different directions have only m in common. */
  lemma WaysPart(m: Vec, r: Vec, z: Vec, t: real, w: real)
    requires Side(m, r, z) != 0.0 && 0.0 < w <= 1.0
    ensures At(m, z, t) != At(m, r, w)
  {
    var x := At(m, z, t);
    SidesOfVertices(m, r, z);
    SideAffine(m, r, m, z, t);
    if x == At(m, r, w) {
      OnOwnEdge(m, r, w);
      assert t * Side(m, r, z) == 0.0;
      NoProduct(t, Side(m, r, z));
      EndsOfEdge(m, z, 0.0);
      MovesOn(m, r, w);
    }
  }

  lemma NoProduct(t: real, s: real)
    requires t * s == 0.0 && s != 0.0
    ensures t == 0.0
  {
    if s > 0.0 { NoFactor(s, t); } else { assert -s * t == 0.0; NoFactor(-s, t); }
  }

  lemma MovesOn(m: Vec, r: Vec, w: real)
    requires w > 0.0 && At(m, r, w) == m
    ensures r == m
  {
    assert w * (r.x - m.x) == 0.0 && w * (r.y - m.y) == 0.0;
    NoFactor(w, r.x - m.x);
    NoFactor(w, r.y - m.y);
    assert r == Vec(r.x, r.y) && m == Vec(m.x, m.y);
  }

  lemma SwapSide(m: Vec, r: Vec, z: Vec)
    ensures Side(m, r, z) == -Side(r, m, z) == -Side(m, z, r)
  {
  }

  // ----- the left part against the right chain

  /** The last edge, from its far end up to the lowest vertex, is off the left part. */
  lemma LastEdgeOff(p: seq<Vec>, j: nat)
    requires Set(p) && Deepest(p, j)
    ensures OffRay(LeftPart(p, j), p[0], p[|p| - 1])
  {
    var n, q := |p|, LeftPart(p, j);
    var a, m, c, z := p[n - 1], p[0], p[1], p[j];
    assert Corner(p, 0) == [a, m, c];
    DeepestSides(p, j);
    SwapSide(m, a, z);
    SwapSide(m, a, c);
    SidesOfVertices(a, m, c);
    TurnRotates(a, m, c);
    forall i: nat, t, w | i < |q| && Unit(t) && 0.0 < w <= 1.0
      ensures At(q[i], q[Next(i, |q|)], t) != At(m, a, w)
    {
      LeftEdge(p, j, i);
      FlipAlong(a, m, w);
      if i == 0 {
        WaysPart(m, a, c, t, w);
      } else if i == j {
        FlipAlong(m, z, t);
        WaysPart(m, a, z, 1.0 - t, w);
      } else {
        assert Strangers(i, n - 1, n) && Apart(p[i], p[Next(i, n)], a, m);
      }
    }
  }

  lemma RightChainOff(p: seq<Vec>, j: nat, i: nat)
    requires Set(p) && Deepest(p, j) && j < i < |p| - 1
    ensures Untouched(LeftPart(p, j), p[i], p[i + 1])
  {
    var n, q := |p|, LeftPart(p, j);
    forall l: nat | l < |q| ensures Apart(q[l], q[Next(l, |q|)], p[i], p[i + 1]) {
      LeftEdge(p, j, l);
      if l < j {
        assert Strangers(l, i, n) && Apart(p[l], p[Next(l, n)], p[i], p[Next(i, n)]);
      } else {
        DiagonalApart(p, j, i);
        EdgeFlipped(p[0], p[j], p[i], p[i + 1]);
      }
    }
  }

  lemma {:induction false} LeftUnwound(p: seq<Vec>, j: nat, i: nat)
    requires Set(p) && Deepest(p, j) && j < i < |p|
    ensures Loop(From(p[i]), LeftPart(p, j)).winding == 0
    decreases |p| - i
  {
    var q := LeftPart(p, j);
    if i == |p| - 1 {
      PartsAreSet(p, j);
      LastEdgeOff(p, j);
      DeepestSides(p, j);
      SwapSide(p[0], p[i], p[j]);
      SwapSide(p[j], p[0], p[i]);
      UnwoundEnd(q, p[i]);
    } else {
      LeftUnwound(p, j, i + 1);
      RightChainOff(p, j, i);
      SameWinding(q, p[i], p[i + 1]);
    }
  }

  lemma LeftFree(p: seq<Vec>, j: nat, i: nat)
    requires Set(p) && Deepest(p, j) && j < i < |p|
    ensures Free(p[i], LeftPart(p, j))
  {
    var q := LeftPart(p, j);
    forall l: nat, t | l < |q| && Unit(t) ensures At(q[l], q[Next(l, |q|)], t) != p[i] {
      if i == |p| - 1 {
        LastEdgeOff(p, j);
        EndsOfEdge(p[0], p[i], 1.0);
      } else {
        RightChainOff(p, j, i);
        EndsOfEdge(p[i], p[i + 1], 0.0);
        assert Apart(q[l], q[Next(l, |q|)], p[i], p[i + 1]);
      }
    }
  }

  // ----- the right part against the left chain

  lemma FirstEdgeOff(p: seq<Vec>, j: nat)
    requires Set(p) && Deepest(p, j)
    ensures OffRay(RightPart(p, j), p[0], p[1])
  {
    var n, q := |p|, RightPart(p, j);
    var a, m, c, z := p[n - 1], p[0], p[1], p[j];
    assert Corner(p, 0) == [a, m, c];
    DeepestSides(p, j);
    SwapSide(m, c, a);
    SidesOfVertices(m, c, a);
    TurnRotates(a, m, c);
    forall i: nat, t, w | i < |q| && Unit(t) && 0.0 < w <= 1.0
      ensures At(q[i], q[Next(i, |q|)], t) != At(m, c, w)
    {
      if i == 0 {
        WaysPart(m, c, z, t, w);
      } else {
        var e: nat := j + i - 1;
        RightEdge(p, j, i);
        if e == n - 1 {
          FlipAlong(m, a, t);
          WaysPart(m, c, a, 1.0 - t, w);
        } else {
          assert Strangers(e, 0, n) && Apart(p[e], p[Next(e, n)], m, c);
        }
      }
    }
  }

  lemma LeftChainOff(p: seq<Vec>, j: nat, i: nat)
    requires Set(p) && Deepest(p, j) && 1 <= i < j - 1
    ensures Untouched(RightPart(p, j), p[i], p[i + 1])
  {
    var n, q := |p|, RightPart(p, j);
    forall l: nat | l < |q| ensures Apart(q[l], q[Next(l, |q|)], p[i], p[i + 1]) {
      if l == 0 {
        DiagonalApart(p, j, i);
      } else {
        var e: nat := j + l - 1;
        RightEdge(p, j, l);
        assert Strangers(e, i, n) && Apart(p[e], p[Next(e, n)], p[i], p[Next(i, n)]);
      }
    }
  }

  lemma {:induction false} RightUnwound(p: seq<Vec>, j: nat, i: nat)
    requires Set(p) && Deepest(p, j) && 0 < i < j
    ensures Loop(From(p[i]), RightPart(p, j)).winding == 0
  {
    if i == 1 {
      RightUnwoundFirst(p, j);
    } else {
      RightUnwound(p, j, i - 1);
      LeftChainOff(p, j, i - 1);
      SameWinding(RightPart(p, j), p[i - 1], p[i]);
    }
  }

  lemma RightUnwoundFirst(p: seq<Vec>, j: nat)
    requires Set(p) && Deepest(p, j)
    ensures Loop(From(p[1]), RightPart(p, j)).winding == 0
  {
    var q := RightPart(p, j);
    PartsAreSet(p, j);
    FirstEdgeOff(p, j);
    DeepestSides(p, j);
    SwapSide(p[0], p[1], p[j]);
    assert q[0] == p[0] && q[1] == p[j];
    UnwoundEnd(q, p[1]);
  }

  lemma RightFree(p: seq<Vec>, j: nat, i: nat)
    requires Set(p) && Deepest(p, j) && 0 < i < j
    ensures Free(p[i], RightPart(p, j))
  {
    var q := RightPart(p, j);
    forall l: nat, t | l < |q| && Unit(t) ensures At(q[l], q[Next(l, |q|)], t) != p[i] {
      if i == 1 {
        FirstEdgeOff(p, j);
        EndsOfEdge(p[0], p[1], 1.0);
      } else {
        LeftChainOff(p, j, i - 1);
        EndsOfEdge(p[i - 1], p[i], 1.0);
        assert Apart(q[l], q[Next(l, |q|)], p[i - 1], p[i]);
      }
    }
  }
}
