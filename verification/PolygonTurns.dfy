/** The same polygon begun at another vertex, or run backwards. */
module PolygonTurns {
  import opened Planar
  import opened EarClipping
  import opened Notches
  import opened Segments
  import opened SimplePolygons
  import opened Windings
  import opened Triangulations

  /** Two ears that are not neighbours. */
  ghost predicate TwoEars(p: seq<Vec>) {
    exists i: nat, j: nat :: i < |p| && j < |p| && Strangers(i, j, |p|) && OpenEar(p, i) && OpenEar(p, j)
  }

  // ----- begun one vertex on

  function Shifted(p: seq<Vec>): (q: seq<Vec>)
    requires p != []
    ensures |q| == |p| && forall i :: 0 <= i < |p| ==> q[i] == p[Next(i, |p|)]
  {
    p[1..] + [p[0]]
  }

  lemma StrangersShift(i: nat, j: nat, n: nat)
    requires i < n && j < n
    ensures Strangers(i, j, n) <==> Strangers(Next(i, n), Next(j, n), n)
  {
  }

  lemma ShiftedIsSimple(p: seq<Vec>)
    requires p != [] && Simple(p)
    ensures Simple(Shifted(p))
  {
    var n, q := |p|, Shifted(p);
    forall i: nat, j: nat | i < n && j < n && Strangers(i, j, n)
      ensures Apart(q[i], q[Next(i, n)], q[j], q[Next(j, n)])
    {
      StrangersShift(i, j, n);
      assert Apart(p[Next(i, n)], p[Next(Next(i, n), n)], p[Next(j, n)], p[Next(Next(j, n), n)]);
    }
  }

  lemma ShiftedIsFree(p: seq<Vec>, v: Vec)
    requires p != []
    ensures Free(v, Shifted(p)) <==> Free(v, p)
  {
    var n, q := |p|, Shifted(p);
    if Free(v, p) {
      forall i: nat | i < n ensures NotOn(v, q[i], q[Next(i, n)]) {
        assert NotOn(v, p[Next(i, n)], p[Next(Next(i, n), n)]);
      }
    }
    if Free(v, q) {
      forall i: nat | i < n ensures NotOn(v, p[i], p[Next(i, n)]) {
        assert Next(Prev(i, n), n) == i && NotOn(v, q[Prev(i, n)], q[i]);
      }
    }
  }

  lemma {:induction false} ShiftedSum(p: seq<Vec>, v: Vec, i: nat)
    requires p != [] && i < |p|
    ensures WindSum(v, Shifted(p), i) + Crossing(v, p[0], p[Next(0, |p|)]) == WindSum(v, p, i + 1)
  {
    if i > 0 {
      ShiftedSum(p, v, i - 1);
      assert Next(i - 1, |p|) == i;
    } else {
      assert WindSum(v, p, 0) == 0;
    }
  }

  lemma ShiftedWinding(p: seq<Vec>, v: Vec)
    requires p != []
    ensures Loop(From(v), Shifted(p)).winding == Loop(From(v), p).winding
  {
    var n := |p|;
    LoopIsWindSum(v, p);
    LoopIsWindSum(v, Shifted(p));
    ShiftedSum(p, v, n - 1);
    assert Shifted(p)[n - 1] == p[0] && Shifted(p)[Next(n - 1, n)] == p[Next(0, n)];
  }

  lemma ShiftedCorner(p: seq<Vec>, k: nat)
    requires k < |p|
    ensures Corner(Shifted(p), k) == Corner(p, Next(k, |p|))
  {
  }

  lemma ShiftedEar(p: seq<Vec>, k: nat)
    requires k < |p| && OpenEar(Shifted(p), k)
    ensures OpenEar(p, Next(k, |p|))
  {
    var n, h := |p|, Next(k, |p|);
    ShiftedCorner(p, k);
    forall m: nat | m < n && m != Prev(h, n) && m != h && m != Next(h, n) ensures !InTriangle(Corner(p, h), p[m]) {
      assert Next(Prev(m, n), n) == m;
      assert !InTriangle(Corner(Shifted(p), k), Shifted(p)[Prev(m, n)]);
    }
  }

  lemma ShiftedTwoEars(p: seq<Vec>)
    requires p != [] && TwoEars(Shifted(p))
    ensures TwoEars(p)
  {
    var n := |p|;
    var i: nat, j: nat :| i < n && j < n && Strangers(i, j, n) && OpenEar(Shifted(p), i) && OpenEar(Shifted(p), j);
    StrangersShift(i, j, n);
    ShiftedEar(p, i);
    ShiftedEar(p, j);
  }

  // ----- begun at any vertex

  function Begun(p: seq<Vec>, r: nat): (q: seq<Vec>)
    requires p != []
    ensures |q| == |p|
  {
    if r == 0 then p else Shifted(Begun(p, r - 1))
  }

  lemma ShiftOnce(p: seq<Vec>, r: nat)
    requires 0 < r < |p|
    ensures Shifted(p[r - 1..] + p[..r - 1]) == p[r..] + p[..r]
  {
    var q := p[r - 1..] + p[..r - 1];
    assert q[0] == p[r - 1] && q[1..] == p[r..] + p[..r - 1];
    assert p[..r] == p[..r - 1] + [p[r - 1]];
  }

  lemma {:induction false} BegunAt(p: seq<Vec>, r: nat)
    requires r < |p|
    ensures Begun(p, r) == p[r..] + p[..r]
  {
    if r > 0 {
      BegunAt(p, r - 1);
      ShiftOnce(p, r);
    }
  }

  lemma {:induction false} BegunIsSimple(p: seq<Vec>, r: nat)
    requires p != [] && Simple(p)
    ensures Simple(Begun(p, r))
  {
    if r > 0 {
      BegunIsSimple(p, r - 1);
      ShiftedIsSimple(Begun(p, r - 1));
    }
  }

  /** What a polygon has whenever the polygon begun one vertex on has it, it has wherever it begins. */
  lemma {:induction false} BegunHolds(holds: seq<Vec> -> bool, p: seq<Vec>, r: nat)
    requires p != [] && holds(Begun(p, r))
    requires forall q :: q != [] && holds(Shifted(q)) ==> holds(q)
    ensures holds(p)
  {
    if r > 0 {
      BegunHolds(holds, p, r - 1);
    }
  }

  lemma BegunWinding(p: seq<Vec>, r: nat, v: Vec)
    requires p != []
    ensures Free(v, Begun(p, r)) <==> Free(v, p)
    ensures Loop(From(v), Begun(p, r)).winding == Loop(From(v), p).winding
  {
    var free, winding := Free(v, Begun(p, r)), Loop(From(v), Begun(p, r)).winding;
    var same := (q: seq<Vec>) => Free(v, q) == free && Loop(From(v), q).winding == winding;
    forall q: seq<Vec> | q != [] && same(Shifted(q)) ensures same(q) {
      ShiftedIsFree(q, v);
      ShiftedWinding(q, v);
    }
    BegunHolds(same, p, r);
  }

  lemma BegunWinds(p: seq<Vec>, r: nat, s: int)
    requires p != [] && Winds(Begun(p, r), s)
    ensures Winds(p, s)
  {
    forall v | Free(v, p) ensures Loop(From(v), p).winding == 0 || Loop(From(v), p).winding == s {
      BegunWinding(p, r, v);
    }
  }

  lemma BegunTwoEars(p: seq<Vec>, r: nat)
    requires p != [] && TwoEars(Begun(p, r))
    ensures TwoEars(p)
  {
    var two := (q: seq<Vec>) => TwoEars(q);
    forall q: seq<Vec> | q != [] && two(Shifted(q)) ensures two(q) {
      ShiftedTwoEars(q);
    }
    BegunHolds(two, p, r);
  }

  // ----- run backwards

  function Backwards(p: seq<Vec>): (q: seq<Vec>)
    requires p != []
    ensures |q| == |p| && q[0] == p[0] && forall i :: 0 < i < |p| ==> q[i] == p[|p| - i]
  {
    seq(|p|, i requires 0 <= i < |p| => if i == 0 then p[0] else p[|p| - i])
  }

  /** Edge i of the reversed polygon is edge n - 1 - i the other way. */
  lemma BackwardsEdge(p: seq<Vec>, i: nat)
    requires i < |p|
    ensures var n, e := |p|, |p| - 1 - i;
      Backwards(p)[i] == p[Next(e, n)] && Backwards(p)[Next(i, n)] == p[e]
  {
  }

  lemma BackwardsApart(p: seq<Vec>, i: nat, j: nat)
    requires Simple(p) && i < |p| && j < |p| && Strangers(i, j, |p|)
    ensures Apart(p[Next(i, |p|)], p[i], p[Next(j, |p|)], p[j])
  {
    var n := |p|;
    SegmentFlipped(p[i], p[Next(i, n)], p[j], p[Next(j, n)]);
    EdgeFlipped(p[i], p[Next(i, n)], p[Next(j, n)], p[j]);
  }

  lemma BackwardsStrangers(i: nat, j: nat, n: nat)
    requires i < n && j < n && Strangers(i, j, n)
    ensures Strangers(n - 1 - i, n - 1 - j, n)
  {
  }

  lemma BackwardsEdgesApart(p: seq<Vec>, i: nat, j: nat)
    requires Simple(p) && i < |p| && j < |p| && Strangers(i, j, |p|)
    ensures var n, q := |p|, Backwards(p); Apart(q[i], q[Next(i, n)], q[j], q[Next(j, n)])
  {
    BackwardsEdge(p, i);
    BackwardsEdge(p, j);
    BackwardsStrangers(i, j, |p|);
    BackwardsApart(p, |p| - 1 - i, |p| - 1 - j);
  }

  lemma BackwardsIsSimple(p: seq<Vec>)
    requires p != [] && Simple(p)
    ensures Simple(Backwards(p))
  {
    var n, q := |p|, Backwards(p);
    forall i: nat, j: nat | i < n && j < n && Strangers(i, j, n)
      ensures Apart(q[i], q[Next(i, n)], q[j], q[Next(j, n)])
    {
      BackwardsEdgesApart(p, i, j);
    }
  }

  lemma BackwardsIsFree(p: seq<Vec>, v: Vec)
    requires p != [] && Free(v, p)
    ensures Free(v, Backwards(p))
  {
    var n, q := |p|, Backwards(p);
    forall i: nat, t | i < n && Unit(t) ensures At(q[i], q[Next(i, n)], t) != v {
      var e: nat := n - 1 - i;
      BackwardsEdge(p, i);
      FlipAlong(p[e], p[Next(e, n)], t);
      assert NotOn(v, p[e], p[Next(e, n)]) && Unit(1.0 - t);
    }
  }

  lemma {:induction false} BackwardsSum(p: seq<Vec>, v: Vec, i: nat)
    requires p != [] && i <= |p|
    ensures WindSum(v, Backwards(p), i) == WindSum(v, p, |p| - i) - WindSum(v, p, |p|)
  {
    if i > 0 {
      BackwardsSum(p, v, i - 1);
      BackwardsEdge(p, i - 1);
      Reversed(v, p[|p| - i], p[Next(|p| - i, |p|)]);
    }
  }

  lemma BackwardsWinds(p: seq<Vec>)
    requires p != [] && Winds(Backwards(p), 1)
    ensures Winds(p, -1)
  {
    forall v | Free(v, p) ensures Loop(From(v), p).winding == 0 || Loop(From(v), p).winding == -1 {
      BackwardsIsFree(p, v);
      LoopIsWindSum(v, p);
      LoopIsWindSum(v, Backwards(p));
      BackwardsSum(p, v, |p|);
    }
  }

  lemma BackwardsCorner(p: seq<Vec>)
    requires p != []
    ensures Turn(Corner(Backwards(p), 0)) == -Turn(Corner(p, 0))
  {
    var n := |p|;
    var a, b, c := p[Prev(0, n)], p[0], p[Next(0, n)];
    assert Corner(p, 0) == [a, b, c] && Corner(Backwards(p), 0) == [c, b, a];
    TurnReverses(a, b, c);
  }
}
