/** Clipping a rail segment to a radial band (workbench/research/support/newhug.py,
    segment_circle_intersections and clip_segment_to_band), with exact reals and zero tolerances. */
module RingClip {
  import opened InputErrors
  import opened Planar
  import opened RealLists
  import opened Roots

  datatype Segment = Segment(a: Vec, b: Vec)

  datatype Piece = Piece(first: real, last: real)

  function PointAt(s: Segment, t: real): Vec { Add(s.a, Scale(t, Sub(s.b, s.a))) }

  /** Squared distance from the centre at parameter t. */
  function Dist2(s: Segment, c: Vec, t: real): real {
    Dot(Sub(PointAt(s, t), c), Sub(PointAt(s, t), c))
  }

  function Length2(s: Segment): real { Dot(Sub(s.b, s.a), Sub(s.b, s.a)) }

  /** The parameter of the foot of the perpendicular. */
  function Foot(s: Segment, c: Vec): real
    requires Length2(s) > 0.0
  {
    Dot(Sub(c, s.a), Sub(s.b, s.a)) / Length2(s)
  }

  function InUnit(t: real): seq<real> { if 0.0 <= t <= 1.0 then [t] else [] }

  function SegmentCircleIntersections(s: Segment, c: Vec, radius: real, root: real -> real): Result<seq<real>> {
    if radius <= 0.0 || Length2(s) <= 0.0 then InputError
    else
      var t := Foot(s, c);
      var delta := radius * radius - Dist2(s, c, t);
      if delta < 0.0 then Ok([])
      else
        var dt := root(delta / Length2(s));
        var low := InUnit(t - dt);
        var high := InUnit(t + dt);
        Ok(if low == high then low else low + high)
  }

  /** The quadratic in vertex form. */
  lemma VertexForm(s: Segment, c: Vec, t: real)
    requires Length2(s) > 0.0
    ensures var t0 := Foot(s, c);
      Dist2(s, c, t) == Length2(s) * ((t - t0) * (t - t0)) + Dist2(s, c, t0)
  {
    var d, e, q, t0 := Sub(s.b, s.a), Sub(s.a, c), Length2(s), Foot(s, c);
    assert t0 * q == Dot(Sub(c, s.a), d) == -Dot(e, d);
    Expand(s, c, t);
    Expand(s, c, t0);
    Complete(q, Dot(e, d), Dot(e, e), t, t0);
  }

  lemma Expand(s: Segment, c: Vec, t: real)
    ensures Dist2(s, c, t)
         == Dot(Sub(s.a, c), Sub(s.a, c)) + 2.0 * t * Dot(Sub(s.a, c), Sub(s.b, s.a)) + t * t * Length2(s)
  {
    SquareOfSum(s.a.x - c.x, t, s.b.x - s.a.x);
    SquareOfSum(s.a.y - c.y, t, s.b.y - s.a.y);
    assert PointAt(s, t).x - c.x == (s.a.x - c.x) + t * (s.b.x - s.a.x);
    assert PointAt(s, t).y - c.y == (s.a.y - c.y) + t * (s.b.y - s.a.y);
    var e, d := Sub(s.a, c), Sub(s.b, s.a);
    assert 2.0 * t * Dot(e, d) == 2.0 * t * (e.x * d.x) + 2.0 * t * (e.y * d.y);
    assert t * t * Length2(s) == t * t * (d.x * d.x) + t * t * (d.y * d.y);
  }

  lemma SquareOfSum(e: real, t: real, d: real)
    ensures (e + t * d) * (e + t * d) == e * e + 2.0 * t * (e * d) + t * t * (d * d)
  {
  }

  lemma Complete(q: real, b: real, k: real, t: real, t0: real)
    requires t0 * q == -b
    ensures k + 2.0 * t * b + t * t * q == q * ((t - t0) * (t - t0)) + (k + 2.0 * t0 * b + t0 * t0 * q)
  {
    assert 2.0 * t * b == -2.0 * t * (t0 * q);
    assert 2.0 * t0 * b == -2.0 * t0 * (t0 * q);
  }

  /** The parameters within a radius form an interval whose ends are the crossings, or nothing. */
  datatype Level = Missed | Crossed(r1: real, r2: real)

  ghost predicate IsLevel(s: Segment, c: Vec, radius: real, level: Level) {
    match level
    case Missed => forall t :: Dist2(s, c, t) > radius * radius
    case Crossed(r1, r2) =>
      && r1 <= r2
      && (forall t :: Dist2(s, c, t) <= radius * radius <==> r1 <= t <= r2)
      && (forall t :: Dist2(s, c, t) == radius * radius <==> t == r1 || t == r2)
  }

  lemma QuadraticLevel(q: real, u: real, dt: real)
    requires q > 0.0 && dt >= 0.0
    ensures q * (u * u) <= q * (dt * dt) <==> -dt <= u <= dt
    ensures q * (u * u) == q * (dt * dt) <==> u == -dt || u == dt
  {
    assert q * (dt * dt) - q * (u * u) == q * ((dt - u) * (dt + u));
    if -dt < u < dt {
      var p := Product(dt - u, dt + u);
      var r := Product(q, p);
    } else if u > dt {
      var p := Product(u - dt, dt + u);
      var r := Product(q, p);
    } else if u < -dt {
      var p := Product(dt - u, -dt - u);
      var r := Product(q, p);
    }
  }

  lemma LevelOf(s: Segment, c: Vec, radius: real, root: real -> real) returns (level: Level)
    requires IsRoot(root) && Length2(s) > 0.0 && radius > 0.0
    ensures IsLevel(s, c, radius, level)
    ensures forall t :: t in SegmentCircleIntersections(s, c, radius, root).value <==>
                        0.0 <= t <= 1.0 && Dist2(s, c, t) == radius * radius
  {
    var q, t0 := Length2(s), Foot(s, c);
    var delta := radius * radius - Dist2(s, c, t0);
    if delta < 0.0 {
      level := Missed;
      NoCrossing(s, c, radius);
    } else {
      var dt := root(delta / q);
      assert delta / q >= 0.0 && q * (delta / q) == delta;
      level := Crossed(t0 - dt, t0 + dt);
      Crossings(s, c, radius, dt);
    }
  }

  lemma NoCrossing(s: Segment, c: Vec, radius: real)
    requires Length2(s) > 0.0 && radius * radius < Dist2(s, c, Foot(s, c))
    ensures forall t :: Dist2(s, c, t) > radius * radius
  {
    forall t ensures Dist2(s, c, t) > radius * radius {
      VertexForm(s, c, t);
      NonnegativeTerm(Length2(s), t - Foot(s, c));
    }
  }

  lemma Crossings(s: Segment, c: Vec, radius: real, dt: real)
    requires Length2(s) > 0.0 && dt >= 0.0 && Length2(s) * (dt * dt) == radius * radius - Dist2(s, c, Foot(s, c))
    ensures forall t :: Dist2(s, c, t) <= radius * radius <==> Foot(s, c) - dt <= t <= Foot(s, c) + dt
    ensures forall t :: Dist2(s, c, t) == radius * radius <==> t == Foot(s, c) - dt || t == Foot(s, c) + dt
  {
    forall t
      ensures Dist2(s, c, t) <= radius * radius <==> Foot(s, c) - dt <= t <= Foot(s, c) + dt
      ensures Dist2(s, c, t) == radius * radius <==> t == Foot(s, c) - dt || t == Foot(s, c) + dt
    {
      CrossingAt(s, c, radius, dt, t);
    }
  }

  lemma CrossingAt(s: Segment, c: Vec, radius: real, dt: real, t: real)
    requires Length2(s) > 0.0 && dt >= 0.0 && Length2(s) * (dt * dt) == radius * radius - Dist2(s, c, Foot(s, c))
    ensures Dist2(s, c, t) <= radius * radius <==> Foot(s, c) - dt <= t <= Foot(s, c) + dt
    ensures Dist2(s, c, t) == radius * radius <==> t == Foot(s, c) - dt || t == Foot(s, c) + dt
  {
    var q, t0, r2 := Length2(s), Foot(s, c), radius * radius;
    VertexForm(s, c, t);
    LevelTest(q, t0, dt, t, Dist2(s, c, t), Dist2(s, c, t0), r2);
  }

  lemma LevelTest(q: real, t0: real, dt: real, t: real, here: real, least: real, r2: real)
    requires q > 0.0 && dt >= 0.0 && here == q * ((t - t0) * (t - t0)) + least && q * (dt * dt) == r2 - least
    ensures here <= r2 <==> t0 - dt <= t <= t0 + dt
    ensures here == r2 <==> t == t0 - dt || t == t0 + dt
  {
    QuadraticLevel(q, t - t0, dt);
  }

  lemma NonnegativeTerm(q: real, u: real)
    requires q > 0.0
    ensures q * (u * u) >= 0.0
  {
    var s := SquareSign(u);
    if s > 0.0 {
      var p := Product(q, s);
    }
  }

  // ----- the band

  function Distance(s: Segment, c: Vec, t: real, root: real -> real): real { root(Dist2(s, c, t)) }

  predicate InBand(s: Segment, c: Vec, low: real, high: real, root: real -> real, t: real) {
    low <= Distance(s, c, t, root) <= high
  }

  lemma Dist2Nonnegative(s: Segment, c: Vec, t: real)
    ensures Dist2(s, c, t) >= 0.0
  {
    var x := SquareSign(Sub(PointAt(s, t), c).x);
    var y := SquareSign(Sub(PointAt(s, t), c).y);
  }

  /** The band in terms of squared distances. */
  lemma BandBySquares(s: Segment, c: Vec, low: real, high: real, root: real -> real, t: real)
    requires IsRoot(root)
    ensures InBand(s, c, low, high, root, t) <==>
            (low <= 0.0 || low * low <= Dist2(s, c, t)) && high >= 0.0 && Dist2(s, c, t) <= high * high
  {
    Dist2Nonnegative(s, c, t);
    var d := Distance(s, c, t, root);
    if low > 0.0 { SquaresOrdered(low, d); }
    if high >= 0.0 { SquaresOrdered(d, high); }
  }

  /** The intersections of one circle, if its radius is positive; the segment must then have a length. */
  function CutsOf(s: Segment, c: Vec, radius: real, root: real -> real): seq<real>
    requires radius > 0.0 ==> Length2(s) > 0.0
  {
    if radius > 0.0 then SegmentCircleIntersections(s, c, radius, root).value else []
  }

  function Cuts(s: Segment, c: Vec, low: real, high: real, root: real -> real): (cuts: seq<real>)
    requires low > 0.0 || high > 0.0 ==> Length2(s) > 0.0
    ensures Increasing(cuts) && |cuts| >= 2
  {
    var cuts := SortedUnique([0.0, 1.0] + CutsOf(s, c, low, root) + CutsOf(s, c, high, root));
    TwoCuts([0.0, 1.0] + CutsOf(s, c, low, root) + CutsOf(s, c, high, root));
    cuts
  }

  lemma TwoCuts(xs: seq<real>)
    requires |xs| >= 2 && xs[0] == 0.0 && xs[1] == 1.0
    ensures |SortedUnique(xs)| >= 2
  {
    assert xs[0] in xs && xs[1] in xs;
    assert 0.0 in SortedUnique(xs) && 1.0 in SortedUnique(xs);
  }

  /** Every cut lies in the unit interval, the ends are cuts, and every crossing of a positive radius is a cut. */
  lemma CutsOfRadius(s: Segment, c: Vec, radius: real, root: real -> real)
    requires IsRoot(root) && (radius > 0.0 ==> Length2(s) > 0.0)
    ensures forall t :: t in CutsOf(s, c, radius, root) ==> 0.0 <= t <= 1.0
    ensures forall t ::
      0.0 <= t <= 1.0 && radius > 0.0 && Dist2(s, c, t) == radius * radius ==> t in CutsOf(s, c, radius, root)
  {
    if radius > 0.0 {
      var level := LevelOf(s, c, radius, root);
    }
  }

  lemma CutsAreCrossings(s: Segment, c: Vec, low: real, high: real, root: real -> real)
    requires IsRoot(root) && (low > 0.0 || high > 0.0 ==> Length2(s) > 0.0)
    ensures var cuts := Cuts(s, c, low, high, root);
      && cuts[0] == 0.0 && cuts[|cuts| - 1] == 1.0
      && (forall t :: 0.0 <= t <= 1.0 && low > 0.0 && Dist2(s, c, t) == low * low ==> t in cuts)
      && (forall t :: 0.0 <= t <= 1.0 && high > 0.0 && Dist2(s, c, t) == high * high ==> t in cuts)
  {
    CutsOfRadius(s, c, low, root);
    CutsOfRadius(s, c, high, root);
    WithEnds(CutsOf(s, c, low, root), CutsOf(s, c, high, root));
  }

  /** Sorting the ends and two lists of inner cuts. */
  lemma WithEnds(a: seq<real>, b: seq<real>)
    requires (forall t :: t in a ==> 0.0 <= t <= 1.0) && forall t :: t in b ==> 0.0 <= t <= 1.0
    ensures var cuts := SortedUnique([0.0, 1.0] + a + b);
      && |cuts| >= 2 && cuts[0] == 0.0 && cuts[|cuts| - 1] == 1.0
      && (forall t :: t in a ==> t in cuts) && (forall t :: t in b ==> t in cuts)
  {
    var xs := [0.0, 1.0] + a + b;
    InEnds(a, b, xs);
    Extremes(SortedUnique(xs));
  }

  lemma InEnds(a: seq<real>, b: seq<real>, xs: seq<real>)
    requires xs == [0.0, 1.0] + a + b
    ensures forall t :: t in xs <==> t == 0.0 || t == 1.0 || t in a || t in b
  {
    assert [0.0, 1.0][0] == 0.0 && [0.0, 1.0][1] == 1.0;
    assert forall t :: t in [0.0, 1.0] <==> t == 0.0 || t == 1.0;
  }

  lemma Extremes(cuts: seq<real>)
    requires Increasing(cuts) && 0.0 in cuts && 1.0 in cuts && forall t :: t in cuts ==> 0.0 <= t <= 1.0
    ensures |cuts| >= 2 && cuts[0] == 0.0 && cuts[|cuts| - 1] == 1.0
  {
    var i :| 0 <= i < |cuts| && cuts[i] == 0.0;
    var j :| 0 <= j < |cuts| && cuts[j] == 1.0;
    assert cuts[0] in cuts && cuts[|cuts| - 1] in cuts;
    assert i == 0;
    assert j == |cuts| - 1;
  }

  /** Between two neighbouring cuts the squared distance stays on one side of a radius. */
  lemma OneSide(s: Segment, c: Vec, radius: real, root: real -> real, u: real, v: real, m: real, t: real)
    requires IsRoot(root) && Length2(s) > 0.0 && radius > 0.0
    requires u < m < v && u <= t <= v
    requires forall x :: u < x < v ==> Dist2(s, c, x) != radius * radius
    ensures Dist2(s, c, m) < radius * radius ==> Dist2(s, c, t) <= radius * radius
    ensures Dist2(s, c, m) > radius * radius ==> Dist2(s, c, t) >= radius * radius
    ensures Dist2(s, c, m) != radius * radius
    ensures u < t < v && Dist2(s, c, m) < radius * radius ==> Dist2(s, c, t) < radius * radius
    ensures u < t < v && Dist2(s, c, m) > radius * radius ==> Dist2(s, c, t) > radius * radius
  {
    var level := LevelOf(s, c, radius, root);
    if level.Crossed? {
      assert Dist2(s, c, level.r1) == radius * radius && Dist2(s, c, level.r2) == radius * radius;
    }
  }

  function Mid(u: real, v: real): real { u + (v - u) / 2.0 }

  /** What the midpoint test decides holds for the whole interval between two cuts. */
  lemma MidpointDecides(s: Segment, c: Vec, low: real, high: real, root: real -> real, u: real, v: real, t: real)
    requires IsRoot(root) && (low > 0.0 || high > 0.0 ==> Length2(s) > 0.0) && 0.0 <= u < v <= 1.0 && u <= t <= v
    requires low > 0.0 ==> forall x :: u < x < v ==> Dist2(s, c, x) != low * low
    requires high > 0.0 ==> forall x :: u < x < v ==> Dist2(s, c, x) != high * high
    requires high != 0.0
    ensures InBand(s, c, low, high, root, Mid(u, v)) ==> InBand(s, c, low, high, root, t)
    ensures u < t < v && InBand(s, c, low, high, root, t) ==> InBand(s, c, low, high, root, Mid(u, v))
  {
    var m := Mid(u, v);
    BandBySquares(s, c, low, high, root, m);
    BandBySquares(s, c, low, high, root, t);
    if low > 0.0 { OneSide(s, c, low, root, u, v, m, t); }
    if high > 0.0 { OneSide(s, c, high, root, u, v, m, t); }
  }

  ghost predicate Ordered(pieces: seq<Piece>) {
    && (forall k :: 0 <= k < |pieces| ==> 0.0 <= pieces[k].first < pieces[k].last <= 1.0)
    && (forall k, l :: 0 <= k < l < |pieces| ==> pieces[k].last < pieces[l].first)
  }

  ghost predicate Covered(pieces: seq<Piece>, t: real) {
    exists k :: 0 <= k < |pieces| && pieces[k].first <= t <= pieces[k].last
  }

  type Band = real -> bool

  /** t is the only member between lo and hi. */
  ghost predicate Alone(band: Band, lo: real, hi: real, t: real) {
    lo < t < hi && forall x :: lo < x < hi && 0.0 <= x <= 1.0 && x != t ==> !band(x)
  }

  /** Nothing else of the band lies near t. */
  ghost predicate Isolated(band: Band, t: real) {
    exists lo, hi :: Alone(band, lo, hi, t)
  }

  /** The pieces are the part of the unit interval inside the band, up to isolated tangency points. */
  ghost predicate IsClip(band: Band, pieces: seq<Piece>) {
    forall t {:trigger band(t)} {:trigger Covered(pieces, t)} :: 0.0 <= t <= 1.0 ==>
      (Covered(pieces, t) ==> band(t)) && (band(t) && !Covered(pieces, t) ==> Isolated(band, t))
  }

  function BandOf(s: Segment, c: Vec, low: real, high: real, root: real -> real): Band {
    t => InBand(s, c, low, high, root, t)
  }

  /** The midpoint tests of the intervals between neighbouring cuts. */
  function Tests(band: Band, cuts: seq<real>): (chosen: seq<bool>)
    requires cuts != []
    ensures |chosen| + 1 == |cuts|
  {
    seq(|cuts| - 1, i requires 0 <= i < |cuts| - 1 => band(Mid(cuts[i], cuts[i + 1])))
  }

  /** t lies in one of the first n intervals whose test succeeded. */
  ghost predicate Selected(chosen: seq<bool>, cuts: seq<real>, n: nat, t: real)
    requires n <= |chosen| < |cuts|
  {
    exists i :: 0 <= i < n && chosen[i] && cuts[i] <= t <= cuts[i + 1]
  }

  ghost predicate CutAxis(cuts: seq<real>) {
    |cuts| >= 2 && Increasing(cuts) && cuts[0] == 0.0 && cuts[|cuts| - 1] == 1.0
  }

  /** After n intervals the pieces are the chosen ones, ordered, disjoint and joined where they touch. */
  ghost predicate Merged(cuts: seq<real>, chosen: seq<bool>, n: nat, pieces: seq<Piece>)
    requires n <= |chosen| < |cuts|
  {
    && Ordered(pieces) && (pieces != [] ==> pieces[|pieces| - 1].last <= cuts[n])
    && ((n > 0 && chosen[n - 1]) <==> (pieces != [] && pieces[|pieces| - 1].last == cuts[n]))
    && forall t :: Covered(pieces, t) <==> Selected(chosen, cuts, n, t)
  }

  /** What one turn of the merging loop does with a chosen interval. */
  function MergeOne(pieces: seq<Piece>, first: real, last: real): (r: seq<Piece>)
    ensures r != [] && r[|r| - 1].last == last
  {
    var n := |pieces| - 1;
    if pieces != [] && pieces[n].last == first then pieces[n := Piece(pieces[n].first, last)]
    else pieces + [Piece(first, last)]
  }

  lemma MergeKeepsOrder(cuts: seq<real>, chosen: seq<bool>, n: nat, pieces: seq<Piece>)
    requires CutAxis(cuts) && |chosen| + 1 == |cuts| && n < |chosen| && Merged(cuts, chosen, n, pieces)
    ensures Ordered(MergeOne(pieces, cuts[n], cuts[n + 1]))
  {
    assert 0.0 <= cuts[n] < cuts[n + 1] <= 1.0;
    var last := |pieces| - 1;
    if pieces != [] && pieces[last].last != cuts[n] {
      forall k | 0 <= k < |pieces| ensures pieces[k].last < cuts[n] {
        if k < last { assert pieces[k].last < pieces[last].first; }
      }
    }
  }

  lemma MergeCovers(pieces: seq<Piece>, first: real, last: real, t: real)
    requires Ordered(pieces) && first <= last
    ensures Covered(MergeOne(pieces, first, last), t) <==> Covered(pieces, t) || first <= t <= last
  {
    if pieces != [] && pieces[|pieces| - 1].last == first {
      CoverExtended(pieces, last, t);
    } else {
      CoverAppended(pieces, Piece(first, last), t);
    }
  }

  lemma SelectMore(chosen: seq<bool>, cuts: seq<real>, n: nat, t: real)
    requires n < |chosen| < |cuts|
    ensures Selected(chosen, cuts, n + 1, t)
       <==> Selected(chosen, cuts, n, t) || (chosen[n] && cuts[n] <= t <= cuts[n + 1])
  {
  }

  lemma MergeStep(cuts: seq<real>, chosen: seq<bool>, n: nat, pieces: seq<Piece>)
    requires CutAxis(cuts) && |chosen| + 1 == |cuts| && n < |chosen| && Merged(cuts, chosen, n, pieces)
    ensures Merged(cuts, chosen, n + 1, if chosen[n] then MergeOne(pieces, cuts[n], cuts[n + 1]) else pieces)
  {
    var pieces' := if chosen[n] then MergeOne(pieces, cuts[n], cuts[n + 1]) else pieces;
    forall t ensures Covered(pieces', t) <==> Selected(chosen, cuts, n + 1, t) {
      SelectMore(chosen, cuts, n, t);
      MergeCovers(pieces, cuts[n], cuts[n + 1], t);
    }
    MergeKeepsOrder(cuts, chosen, n, pieces);
  }

  /** The merging loop. */
  method MergePieces(cuts: seq<real>, chosen: seq<bool>) returns (pieces: seq<Piece>)
    requires CutAxis(cuts) && |cuts| == |chosen| + 1
    ensures Merged(cuts, chosen, |chosen|, pieces)
  {
    pieces := [];
    for i := 0 to |chosen|
      invariant Merged(cuts, chosen, i, pieces)
    {
      MergeStep(cuts, chosen, i, pieces);
      if chosen[i] {
        pieces := MergeOne(pieces, cuts[i], cuts[i + 1]);
      }
    }
  }

  /** The midpoint test speaks for the whole interval. */
  ghost predicate Decides(band: Band, u: real, v: real) {
    forall t :: u <= t <= v ==> (band(Mid(u, v)) ==> band(t)) && (u < t < v && band(t) ==> band(Mid(u, v)))
  }

  ghost predicate Decisive(band: Band, cuts: seq<real>) {
    forall i :: 0 <= i < |cuts| - 1 ==> Decides(band, cuts[i], cuts[i + 1])
  }

  lemma DecisiveTestsClip(band: Band, cuts: seq<real>, pieces: seq<Piece>)
    requires CutAxis(cuts) && Decisive(band, cuts) && Merged(cuts, Tests(band, cuts), |cuts| - 1, pieces)
    ensures IsClip(band, pieces)
  {
    forall t | 0.0 <= t <= 1.0
      ensures Covered(pieces, t) ==> band(t)
      ensures band(t) && !Covered(pieces, t) ==> Isolated(band, t)
    {
      if Covered(pieces, t) {
        SelectedIsInside(band, cuts, t);
      } else if band(t) {
        UnselectedIsIsolated(band, cuts, t);
      }
    }
  }

  lemma SelectedIsInside(band: Band, cuts: seq<real>, t: real)
    requires CutAxis(cuts) && Decisive(band, cuts) && Selected(Tests(band, cuts), cuts, |cuts| - 1, t)
    ensures band(t)
  {
    var i :| 0 <= i < |cuts| - 1 && Tests(band, cuts)[i] && cuts[i] <= t <= cuts[i + 1];
    assert Decides(band, cuts[i], cuts[i + 1]);
  }

  /** Strictly between a cut whose point no chosen interval covers and its neighbours the band is left. */
  lemma Beside(band: Band, cuts: seq<real>, j: nat, x: real)
    requires CutAxis(cuts) && Decisive(band, cuts) && j < |cuts| && 0.0 <= x <= 1.0 && x != cuts[j]
    requires !Selected(Tests(band, cuts), cuts, |cuts| - 1, cuts[j])
    requires (j > 0 ==> cuts[j - 1] < x) && (j + 1 < |cuts| ==> x < cuts[j + 1])
    ensures !band(x)
  {
    var chosen := Tests(band, cuts);
    var k := if x < cuts[j] then j - 1 else j;
    assert 0 <= k < |chosen| && cuts[k] < x < cuts[k + 1] && !chosen[k];
    assert Decides(band, cuts[k], cuts[k + 1]);
  }

  lemma UnselectedIsIsolated(band: Band, cuts: seq<real>, t: real)
    requires CutAxis(cuts) && Decisive(band, cuts)
    requires 0.0 <= t <= 1.0 && band(t) && !Selected(Tests(band, cuts), cuts, |cuts| - 1, t)
    ensures Isolated(band, t)
  {
    var chosen := Tests(band, cuts);
    var i := FindInterval(cuts, t);
    assert Decides(band, cuts[i], cuts[i + 1]) && !chosen[i];
    var j := if t == cuts[i] then i else i + 1;
    assert t == cuts[j];
    var lo := if j > 0 then cuts[j - 1] else -1.0;
    var hi := if j + 1 < |cuts| then cuts[j + 1] else 2.0;
    forall x | lo < x < hi && 0.0 <= x <= 1.0 && x != t ensures !band(x) {
      Beside(band, cuts, j, x);
    }
    assert Alone(band, lo, hi, t);
  }

  lemma CoverAppended(pieces: seq<Piece>, p: Piece, t: real)
    ensures Covered(pieces + [p], t) <==> Covered(pieces, t) || p.first <= t <= p.last
  {
    var all := pieces + [p];
    if Covered(pieces, t) {
      var k :| 0 <= k < |pieces| && pieces[k].first <= t <= pieces[k].last;
      assert all[k] == pieces[k];
    }
    if p.first <= t <= p.last {
      assert all[|pieces|] == p;
    }
  }

  lemma CoverExtended(pieces: seq<Piece>, last: real, t: real)
    requires pieces != [] && pieces[|pieces| - 1].first <= pieces[|pieces| - 1].last <= last
    ensures var n := |pieces| - 1;
      Covered(pieces[n := Piece(pieces[n].first, last)], t) <==> Covered(pieces, t) || pieces[n].last <= t <= last
  {
    var n := |pieces| - 1;
    var all := pieces[n := Piece(pieces[n].first, last)];
    if Covered(pieces, t) {
      var k :| 0 <= k < |pieces| && pieces[k].first <= t <= pieces[k].last;
      assert all[k].first <= t <= all[k].last;
    }
    if pieces[n].last <= t <= last {
      assert all[n].first <= t <= all[n].last;
    }
    if Covered(all, t) {
      var k :| 0 <= k < |all| && all[k].first <= t <= all[k].last;
      if k < n {
        assert pieces[k] == all[k];
      }
    }
  }

  /** The one case the midpoint test gets wrong: an outer radius of zero hit exactly by the midpoint. */
  predicate Degenerate(s: Segment, c: Vec, low: real, high: real) {
    high == 0.0 && low <= 0.0 && PointAt(s, 0.5) == c && s.a != s.b
  }

  method ClipSegmentToBand(s: Segment, c: Vec, low: real, high: real,
                           root: real -> real) returns (r: Result<seq<Piece>>)
    requires IsRoot(root)
    ensures r.InputError? <==> s.a == s.b && (low > 0.0 || high > 0.0)
    ensures r.Ok? ==> Ordered(r.value)
    ensures r.Ok? ==> (IsClip(BandOf(s, c, low, high, root), r.value) <==> !Degenerate(s, c, low, high))
  {
    LengthZero(s);
    if (low > 0.0 || high > 0.0) && Length2(s) <= 0.0 {
      return InputError;
    }
    var cuts := Cuts(s, c, low, high, root);
    CutsAreCrossings(s, c, low, high, root);
    var band := BandOf(s, c, low, high, root);
    var pieces := MergePieces(cuts, Tests(band, cuts));
    r := Ok(pieces);
    if high == 0.0 && s.a != s.b {
      ZeroRadius(s, c, low, root, cuts, pieces);
    } else {
      BandIsDecisive(s, c, low, high, root);
      DecisiveTestsClip(band, cuts, pieces);
    }
  }

  lemma LengthZero(s: Segment)
    ensures Length2(s) >= 0.0 && (Length2(s) > 0.0 <==> s.a != s.b)
  {
    var d := Sub(s.b, s.a);
    assert s.a == Vec(s.a.x, s.a.y) && s.b == Vec(s.b.x, s.b.y);
    if d != ZERO {
      NonzeroSquare(d);
    }
  }

  lemma BandIsDecisive(s: Segment, c: Vec, low: real, high: real, root: real -> real)
    requires IsRoot(root) && (low > 0.0 || high > 0.0 ==> Length2(s) > 0.0) && (high != 0.0 || s.a == s.b)
    ensures Decisive(BandOf(s, c, low, high, root), Cuts(s, c, low, high, root))
  {
    var band, cuts := BandOf(s, c, low, high, root), Cuts(s, c, low, high, root);
    forall i | 0 <= i < |cuts| - 1 ensures Decides(band, cuts[i], cuts[i + 1]) {
      IntervalIsDecided(s, c, low, high, root, cuts, i);
    }
  }

  lemma IntervalIsDecided(s: Segment, c: Vec, low: real, high: real, root: real -> real, cuts: seq<real>, i: nat)
    requires IsRoot(root) && (low > 0.0 || high > 0.0 ==> Length2(s) > 0.0) && (high != 0.0 || s.a == s.b)
    requires cuts == Cuts(s, c, low, high, root) && i + 1 < |cuts|
    ensures Decides(BandOf(s, c, low, high, root), cuts[i], cuts[i + 1])
  {
    var band, u, v := BandOf(s, c, low, high, root), cuts[i], cuts[i + 1];
    forall t | u <= t <= v
      ensures (band(Mid(u, v)) ==> band(t)) && (u < t < v && band(t) ==> band(Mid(u, v)))
    {
      if s.a == s.b {
        StandStill(s, t);
        StandStill(s, Mid(u, v));
      } else {
        IntervalDecides(s, c, low, high, root, cuts, i, t);
      }
    }
  }

  lemma StandStill(s: Segment, t: real)
    requires s.a == s.b
    ensures PointAt(s, t) == s.a
  {
    assert s.a == Vec(s.a.x, s.a.y);
  }

  lemma IntervalDecides(s: Segment, c: Vec, low: real, high: real, root: real -> real, cuts: seq<real>, i: nat, t: real)
    requires IsRoot(root) && (low > 0.0 || high > 0.0 ==> Length2(s) > 0.0) && high != 0.0
    requires cuts == Cuts(s, c, low, high, root) && i + 1 < |cuts| && cuts[i] <= t <= cuts[i + 1]
    ensures var m := Mid(cuts[i], cuts[i + 1]);
      (InBand(s, c, low, high, root, m) ==> InBand(s, c, low, high, root, t)) &&
      (cuts[i] < t < cuts[i + 1] && InBand(s, c, low, high, root, t) ==> InBand(s, c, low, high, root, m))
  {
    CutsAreCrossings(s, c, low, high, root);
    assert cuts[0] <= cuts[i] && cuts[i + 1] <= cuts[|cuts| - 1];
    forall x | cuts[i] < x < cuts[i + 1] ensures x !in cuts {
      BetweenNeighbours(cuts, i, x);
    }
    MidpointDecides(s, c, low, high, root, cuts[i], cuts[i + 1], t);
  }

  /** Radius zero: only the centre itself is in the band. */
  lemma ZeroBand(s: Segment, c: Vec, low: real, root: real -> real, t: real)
    requires IsRoot(root)
    ensures InBand(s, c, low, 0.0, root, t) ==> low <= 0.0 && PointAt(s, t) == c
    ensures low <= 0.0 && PointAt(s, t) == c ==> InBand(s, c, low, 0.0, root, t)
  {
    Dist2Nonnegative(s, c, t);
    var r := ZeroRoot(root, Dist2(s, c, t), low);
    if InBand(s, c, low, 0.0, root, t) {
      CentreOnly(s, c, t);
    } else if low <= 0.0 {
      CentreOnly(s, c, t);
    }
  }

  lemma ZeroRoot(root: real -> real, d: real, low: real) returns (r: real)
    requires IsRoot(root) && d >= 0.0
    ensures r == root(d) && (low <= r <= 0.0 <==> low <= 0.0 && d <= 0.0)
  {
    r := root(d);
    assert r >= 0.0 && r * r == d;
    if r > 0.0 {
      var p := Product(r, r);
    }
  }

  lemma PlainCuts(s: Segment, c: Vec, low: real, root: real -> real)
    requires low <= 0.0
    ensures Cuts(s, c, low, 0.0, root) == [0.0, 1.0]
  {
    assert [0.0, 1.0] + [] + [] == [0.0, 1.0];
    assert [0.0, 1.0][..1] == [0.0];
    assert SortedUnique([0.0]) == [0.0];
  }

  lemma ZeroRadius(s: Segment, c: Vec, low: real, root: real -> real, cuts: seq<real>, pieces: seq<Piece>)
    requires IsRoot(root) && s.a != s.b && Length2(s) > 0.0
    requires cuts == Cuts(s, c, low, 0.0, root) && CutAxis(cuts)
    requires var chosen := Tests(BandOf(s, c, low, 0.0, root), cuts); Merged(cuts, chosen, |chosen|, pieces)
    ensures IsClip(BandOf(s, c, low, 0.0, root), pieces) <==> !Degenerate(s, c, low, 0.0)
  {
    var band := BandOf(s, c, low, 0.0, root);
    if Degenerate(s, c, low, 0.0) {
      PlainCuts(s, c, low, root);
      ZeroBand(s, c, low, root, 0.5);
      ZeroBand(s, c, low, root, 0.0);
      CentreOnce(s, c, 0.0, 0.5);
      assert Mid(0.0, 1.0) == 0.5 && Tests(band, cuts)[0];
      assert Selected(Tests(band, cuts), cuts, 1, 0.0);
      assert Covered(pieces, 0.0) && !band(0.0);
    } else {
      NothingChosen(s, c, low, root, cuts);
      forall t | 0.0 <= t <= 1.0 ensures !Covered(pieces, t) && (band(t) ==> Isolated(band, t)) {
        assert !Selected(Tests(band, cuts), cuts, |cuts| - 1, t);
        if band(t) {
          AloneAtCentre(s, c, low, root, t);
        }
      }
    }
  }

  lemma NothingChosen(s: Segment, c: Vec, low: real, root: real -> real, cuts: seq<real>)
    requires IsRoot(root) && s.a != s.b && Length2(s) > 0.0 && !Degenerate(s, c, low, 0.0)
    requires cuts == Cuts(s, c, low, 0.0, root)
    ensures forall i :: 0 <= i < |cuts| - 1 ==> !Tests(BandOf(s, c, low, 0.0, root), cuts)[i]
  {
    if low <= 0.0 {
      PlainCuts(s, c, low, root);
      MidpointMissed(s, c, low, root);
    } else {
      forall i | 0 <= i < |cuts| - 1 ensures !Tests(BandOf(s, c, low, 0.0, root), cuts)[i] {
        NeverInside(s, c, low, root, Mid(cuts[i], cuts[i + 1]));
      }
    }
  }

  lemma MidpointMissed(s: Segment, c: Vec, low: real, root: real -> real)
    requires IsRoot(root) && s.a != s.b && low <= 0.0 && !Degenerate(s, c, low, 0.0)
    ensures !InBand(s, c, low, 0.0, root, Mid(0.0, 1.0))
  {
    assert Mid(0.0, 1.0) == 0.5;
    ZeroBand(s, c, low, root, 0.5);
  }

  lemma NeverInside(s: Segment, c: Vec, low: real, root: real -> real, t: real)
    requires IsRoot(root) && low > 0.0
    ensures !InBand(s, c, low, 0.0, root, t)
  {
    ZeroBand(s, c, low, root, t);
  }

  lemma NotTwice(s: Segment, c: Vec, low: real, root: real -> real, x: real, t: real)
    requires IsRoot(root) && s.a != s.b && x != t && InBand(s, c, low, 0.0, root, t)
    ensures !InBand(s, c, low, 0.0, root, x)
  {
    ZeroBand(s, c, low, root, t);
    ZeroBand(s, c, low, root, x);
    CentreOnce(s, c, x, t);
  }

  lemma AloneAtCentre(s: Segment, c: Vec, low: real, root: real -> real, t: real)
    requires IsRoot(root) && s.a != s.b && 0.0 <= t <= 1.0 && InBand(s, c, low, 0.0, root, t)
    ensures Isolated(BandOf(s, c, low, 0.0, root), t)
  {
    var band := BandOf(s, c, low, 0.0, root);
    forall x | -1.0 < x < 2.0 && x != t ensures !band(x) {
      NotTwice(s, c, low, root, x, t);
    }
    assert Alone(band, -1.0, 2.0, t);
  }

  lemma CentreOnly(s: Segment, c: Vec, t: real)
    ensures Dist2(s, c, t) >= 0.0 && (Dist2(s, c, t) <= 0.0 <==> PointAt(s, t) == c)
  {
    var p := PointAt(s, t);
    assert p == Vec(p.x, p.y) && c == Vec(c.x, c.y);
    Dist2Nonnegative(s, c, t);
    if Sub(p, c) != ZERO {
      NonzeroSquare(Sub(p, c));
    }
  }

  lemma CentreOnce(s: Segment, c: Vec, x: real, t: real)
    requires s.a != s.b && x != t && PointAt(s, t) == c
    ensures PointAt(s, x) != c
  {
    var d := Sub(s.b, s.a);
    assert d.x != 0.0 || d.y != 0.0 by {
      assert s.a == Vec(s.a.x, s.a.y) && s.b == Vec(s.b.x, s.b.y);
    }
    DifferentProducts(x, t, d.x);
    DifferentProducts(x, t, d.y);
  }

  lemma DifferentProducts(x: real, t: real, d: real)
    requires x != t
    ensures d != 0.0 ==> x * d != t * d
  {
    if d != 0.0 {
      assert x * d - t * d == (x - t) * d;
      if x > t && d > 0.0 { var p := Product(x - t, d); }
      if x > t && d < 0.0 { var p := Product(x - t, -d); }
      if x < t && d > 0.0 { var p := Product(t - x, d); }
      if x < t && d < 0.0 { var p := Product(t - x, -d); }
    }
  }

  /** On the exception the pieces are wrong. */
  method ClipDegenerate(s: Segment, c: Vec, low: real, high: real, root: real -> real) returns (pieces: seq<Piece>)
    requires IsRoot(root) && s.a != s.b && Degenerate(s, c, low, high)
    ensures Ordered(pieces) && !IsClip(BandOf(s, c, low, high, root), pieces)
  {
    var r := ClipSegmentToBand(s, c, low, high, root);
    pieces := r.value;
  }

  /** The exception is real: a segment whose midpoint is the centre, clipped to radius zero, comes back whole. */
  method ZeroBandThroughCentre(s: Segment, root: real -> real) returns (pieces: seq<Piece>)
    requires IsRoot(root) && s == Segment(Vec(-1.0, 0.0), Vec(1.0, 0.0))
    ensures Ordered(pieces) && !IsClip(BandOf(s, ZERO, 0.0, 0.0, root), pieces)
  {
    ExampleIsDegenerate(s);
    pieces := ClipDegenerate(s, ZERO, 0.0, 0.0, root);
  }

  lemma ExampleIsDegenerate(s: Segment)
    requires s == Segment(Vec(-1.0, 0.0), Vec(1.0, 0.0))
    ensures s.a != s.b && Degenerate(s, ZERO, 0.0, 0.0)
  {
  }
}
