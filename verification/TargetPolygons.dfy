/** From a target outline to its convex parts: a simple outline that clean_polygon lets pass is always cut into convex
    parts that cover it exactly (workbench/research/support/newhug.py, clean_polygon and convex_parts). */
module TargetPolygons {
  import opened Roots
  import opened InputErrors
  import opened Planar
  import opened EarClipping
  import opened Notches
  import opened Segments
  import opened SimplePolygons
  import opened Windings
  import opened Triangulations
  import opened CleanPolygons
  import opened PolygonTurns
  import opened TwoEarsTheorem
  import opened LocallyConvex
  import opened Outlines

  // ----- clipping never gets stuck

  lemma OpenIsEar(p: seq<Vec>, ids: seq<nat>, k: nat)
    requires Indices(p, ids) && k < |ids| && OpenEar(Points(p, ids), k)
    ensures IsEar(p, ids, k)
  {
    forall m | 0 <= m < |ids| && ids[m] !in Corner(ids, k) ensures !InTriangle(Corner(Points(p, ids), k), p[ids[m]]) {
      assert m != Prev(k, |ids|) && m != k && m != Next(k, |ids|);
      assert Points(p, ids)[m] == p[ids[m]];
    }
  }

  lemma {:induction false} FirstOf(p: seq<Vec>, ids: seq<nat>, n: nat) returns (k: nat)
    requires Indices(p, ids) && n < |ids| && IsEar(p, ids, n)
    ensures FirstEar(p, ids, k)
  {
    if m: nat :| m < n && IsEar(p, ids, m) {
      k := FirstOf(p, ids, m);
    } else {
      k := n;
    }
  }

  /** A simple polygon that runs counterclockwise is clipped to its end, and its last triangle turns left. */
  lemma {:induction false} ClipsAway(p: seq<Vec>, ids: seq<nat>) returns (tris: seq<seq<Vec>>)
    requires Indices(p, ids) && DistinctIds(ids) && |ids| >= 3
    requires Simple(Points(p, ids)) && Counterclockwise(Points(p, ids))
    ensures Clips(p, ids, tris) && tris != [] && |Last(tris)| == 3 && Turn(Last(tris)) > 0.0
    decreases |ids|
  {
    var q := Points(p, ids);
    if |ids| == 3 {
      tris := [q];
    } else {
      TwoEarsOf(q);
      var e: nat :| e < |q| && OpenEar(q, e);
      OpenIsEar(p, ids, e);
      var k := FirstOf(p, ids, e);
      EarIsOpen(p, ids, k);
      RestIsCounterclockwise(q, k);
      WithoutKeepsIndices(p, ids, k);
      StillDistinct(ids, k);
      var rest := ClipsAway(p, Without(ids, k));
      ClipFront(p, ids, k, rest);
      tris := [Corner(q, k)] + rest;
      assert Last(tris) == Last(rest);
    }
  }

  lemma LeftTurnsAdd(tris: seq<seq<Vec>>)
    requires tris != [] && forall i :: 0 <= i < |tris| ==> |tris[i]| == 3 && Turn(tris[i]) > 0.0
    ensures Total(From(ZERO), tris).area2 > 0.0
  {
    LeftTurnsHaveArea(ZERO, tris);
    if |tris| == 1 {
      TriangleArea(ZERO, tris[0]);
      assert tris[1..] == [];
    }
  }

  lemma ClippedHasArea(p: seq<Vec>, tris: seq<seq<Vec>>)
    requires Clips(p, seq(|p|, k => k), tris) && tris != [] && |Last(tris)| == 3 && Turn(Last(tris)) > 0.0
    ensures Loop(From(ZERO), p).area2 > 0.0
  {
    ClippedTurnsLeft(p, seq(|p|, k => k), tris);
    FromIsAntisymmetric(ZERO);
    AllIndices(From(ZERO), p, tris);
    LeftTurnsAdd(tris);
  }

  lemma ClippedTurnsLeft(p: seq<Vec>, ids: seq<nat>, tris: seq<seq<Vec>>)
    requires Indices(p, ids) && Clips(p, ids, tris) && tris != [] && |Last(tris)| == 3 && Turn(Last(tris)) > 0.0
    ensures forall i :: 0 <= i < |tris| ==> |tris[i]| == 3 && Turn(tris[i]) > 0.0
  {
    EarsTurnLeft(p, ids, tris);
  }

  lemma ClipsWhole(p: seq<Vec>) returns (tris: seq<seq<Vec>>)
    requires Simple(p) && |p| >= 3 && Counterclockwise(p)
    ensures Clips(p, seq(|p|, k => k), tris) && tris != [] && |Last(tris)| == 3 && Turn(Last(tris)) > 0.0
  {
    var ids := seq(|p|, k => k);
    AllIds(p, ids);
    tris := ClipsAway(p, ids);
  }

  /** A simple polygon runs counterclockwise exactly when its signed area is positive. */
  lemma AreaIffCounterclockwise(p: seq<Vec>)
    requires Simple(p) && |p| >= 3
    ensures Counterclockwise(p) <==> Loop(From(ZERO), p).area2 > 0.0
  {
    if Counterclockwise(p) {
      var tris := ClipsWhole(p);
      ClippedHasArea(p, tris);
    } else {
      OtherwiseBackwards(p);
      BackwardsHasNoArea(p, ZERO);
    }
  }

  lemma FewHaveNoArea(p: seq<Vec>)
    requires |p| < 3
    ensures Loop(From(ZERO), p).area2 == 0.0
  {
    if |p| == 2 {
      PathStep(From(ZERO), p, p[1..]);
      assert p[1..] == [p[1]] && Path(From(ZERO), p[1..]) == NOTHING;
      CrossFlip(p[0], p[1]);
    } else if |p| == 1 {
      CrossItself(p[0]);
    }
  }

  lemma CrossItself(a: Vec)
    ensures Cross(a, a) == 0.0
  {
  }

  /** convex_parts raises on no simple polygon of positive area. */
  lemma NeverStuck(vertices: seq<Vec>)
    requires Simple(vertices) && Loop(From(ZERO), vertices).area2 > 0.0
    ensures |Cleaned(vertices)| >= 3 && !Stuck(Cleaned(vertices), seq(|Cleaned(vertices)|, k => k))
  {
    var p := Cleaned(vertices);
    CleanedIsSimple(vertices);
    CleanedKeepsRegion(vertices);
    assert Loop(From(ZERO), p) == Loop(From(ZERO), vertices);
    if |p| < 3 { FewHaveNoArea(p); }
    AreaIffCounterclockwise(p);
    var tris := ClipsWhole(p);
    ClipsIsUnique(p, seq(|p|, k => k), tris, tris);
  }

  // ----- from outline to parts

  /** The parts lie over the polygon: off its edges one on every point inside and none on any outside. */
  ghost predicate Partition(p: seq<Vec>, parts: seq<seq<Vec>>) {
    forall v {:trigger Free(v, Cleaned(p))} ::
      Free(v, Cleaned(p)) ==> Cover(v, parts) == if Inside(v, p) then 1 else 0
  }

  ghost predicate AllConvex(parts: seq<seq<Vec>>) { forall i :: 0 <= i < |parts| ==> Convex(parts[i]) }

  /** What convex_parts answers for a polygon: the whole of it, its clipped ears, or an error. */
  ghost predicate IsParted(p: seq<Vec>, r: Result<seq<seq<Vec>>>) {
    var q := Cleaned(p);
    if q == [] then r.InputError?
    else if !TurnsRight(q) then r == Ok([q])
    else
      match r case Ok(tris) => Clips(q, seq(|q|, k => k), tris) case InputError => Stuck(q, seq(|q|, k => k))
  }

  lemma PartedOnce(p: seq<Vec>, r: Result<seq<seq<Vec>>>, s: Result<seq<seq<Vec>>>)
    requires IsParted(p, r) && IsParted(p, s)
    ensures r == s
  {
    var q := Cleaned(p);
    if q != [] && TurnsRight(q) {
      if r.Ok? { ClipsIsUnique(q, seq(|q|, k => k), r.value, r.value); }
      if s.Ok? { ClipsIsUnique(q, seq(|q|, k => k), s.value, s.value); }
      if r.Ok? && s.Ok? {
        ClipsIsUnique(q, seq(|q|, k => k), r.value, s.value);
      }
    }
  }

  /** convex_parts after clean_polygon: on a simple outline it raises exactly when clean_polygon rejects it, and its
      parts are convex and cover the outline exactly. */
  method TargetParts(vertices: seq<Vec>) returns (r: Result<(seq<Vec>, seq<seq<Vec>>)>)
    ensures r.Ok? ==> Passes(vertices) && r.value.0 == Tidied(Opened(vertices))
    ensures Passes(vertices) ==>
      IsParted(Tidied(Opened(vertices)), if r.Ok? then Ok(r.value.1) else InputError)
    ensures Simple(Opened(vertices)) ==> (r.Ok? <==> Passes(vertices))
    ensures r.Ok? && Simple(Opened(vertices)) ==>
      IsClean(r.value.0, Opened(vertices)) && Partition(r.value.0, r.value.1) && AllConvex(r.value.1)
  {
    var clean := CleanPolygon(vertices);
    if clean.InputError? {
      return InputError;
    }
    var p := clean.value;
    ghost var simple := Simple(Opened(vertices));
    if simple {
      AreaOfLoop(ZERO, p);
      NeverStuck(p);
    }
    var parts := ConvexParts(p);
    if parts.InputError? {
      return InputError;
    }
    if simple {
      PartsPartition(p, parts.value);
      PartsAreConvex(p, parts.value);
    }
    r := Ok((p, parts.value));
  }

  /** A closed outline has the parts of the open one, and they are those of that outline. */
  method TargetPartsClosed(p: seq<Vec>)
    returns (open: Result<(seq<Vec>, seq<seq<Vec>>)>, closed: Result<(seq<Vec>, seq<seq<Vec>>)>)
    requires Open(p) && 3 <= |p| <= 127
    ensures closed == open
    ensures open.Ok? && Simple(p) ==>
      IsClean(open.value.0, p) && Partition(open.value.0, open.value.1) && AllConvex(open.value.1)
  {
    open := TargetParts(p);
    closed := TargetParts(p + [p[0]]);
    OpenStays(p);
    ClosedPasses(p);
    if Passes(p) {
      PartedOnce(Tidied(p), if open.Ok? then Ok(open.value.1) else InputError,
                 if closed.Ok? then Ok(closed.value.1) else InputError);
    }
  }

  lemma PartsPartition(p: seq<Vec>, parts: seq<seq<Vec>>)
    requires Simple(p) && Loop(From(ZERO), p).area2 > 0.0
    requires if TurnsRight(Cleaned(p)) then Clips(Cleaned(p), seq(|Cleaned(p)|, k => k), parts)
             else parts == [Cleaned(p)]
    ensures Partition(p, parts)
  {
    forall v | Free(v, Cleaned(p)) ensures Cover(v, parts) == if Inside(v, p) then 1 else 0 {
      PartsCoverOnce(p, parts, v);
    }
  }

  lemma LeftTriangleIsConvex(t: seq<Vec>)
    requires |t| == 3 && Turn(t) > 0.0
    ensures Convex(t)
  {
    forall i: nat, m: nat | i < |t| && m < |t| ensures Side(t[i], t[Next(i, |t|)], t[m]) >= 0.0 {
      LeftInTriangle(t, i, m);
    }
  }

  /** Triangles that turn left, and a polygon that never turns right: every part is convex. */
  lemma PartsAreConvex(p: seq<Vec>, parts: seq<seq<Vec>>)
    requires Simple(p) && Loop(From(ZERO), p).area2 > 0.0
    requires if TurnsRight(Cleaned(p)) then Clips(Cleaned(p), seq(|Cleaned(p)|, k => k), parts)
             else parts == [Cleaned(p)]
    ensures AllConvex(parts)
  {
    var q := Cleaned(p);
    CleanedIsSimple(p);
    CleanedKeepsRegion(p);
    assert Loop(From(ZERO), q) == Loop(From(ZERO), p);
    NeverStuck(p);
    AreaIffCounterclockwise(q);
    if TurnsRight(q) {
      var tris := ClipsWhole(q);
      ClipsIsUnique(q, seq(|q|, k => k), tris, parts);
      EarsTurnLeft(q, seq(|q|, k => k), parts);
      forall i | 0 <= i < |parts| ensures Convex(parts[i]) { LeftTriangleIsConvex(parts[i]); }
    } else {
      NeverRightIsConvex(q);
    }
  }
}
