/** A polygon that winds nowhere positively has no positive signed area: the area is the sum over bands of heights
    without vertices, and at one height it is the sum of the signed places where edges are met. */
module AreaSign {
  import opened Roots
  import opened Planar
  import opened EarClipping
  import opened Segments
  import opened Windings

  // ----- sums

  function Sum(s: seq<real>, n: nat): real
    requires n <= |s|
  {
    if n == 0 then 0.0 else Sum(s, n - 1) + s[n - 1]
  }

  /** a is b plus d times c, term by term. */
  ghost predicate Combines(a: seq<real>, b: seq<real>, c: seq<real>, d: real) {
    |a| == |b| == |c| && forall i :: 0 <= i < |a| ==> a[i] == b[i] + d * c[i]
  }

  lemma {:induction false} SumCombines(a: seq<real>, b: seq<real>, c: seq<real>, d: real, n: nat)
    requires Combines(a, b, c, d) && n <= |a|
    ensures Sum(a, n) == Sum(b, n) + d * Sum(c, n)
  {
    if n > 0 {
      SumCombines(a, b, c, d, n - 1);
      Distributes(d, Sum(c, n - 1), c[n - 1]);
    }
  }

  lemma Distributes(d: real, x: real, y: real)
    ensures d * (x + y) == d * x + d * y
  {
  }

  ghost predicate Adds(a: seq<real>, b: seq<real>, c: seq<real>) {
    |a| == |b| == |c| && forall i :: 0 <= i < |a| ==> a[i] == b[i] + c[i]
  }

  lemma {:induction false} SumAdds(a: seq<real>, b: seq<real>, c: seq<real>, n: nat)
    requires Adds(a, b, c) && n <= |a|
    ensures Sum(a, n) == Sum(b, n) + Sum(c, n)
  {
    if n > 0 {
      SumAdds(a, b, c, n - 1);
    }
  }

  ghost predicate IsScaled(b: seq<real>, m: seq<real>, d: real) {
    |b| == |m| && forall i: nat :: i < |b| ==> ScaledAt(b, m, d, i)
  }

  predicate ScaledAt(b: seq<real>, m: seq<real>, d: real, i: nat)
    requires i < |b| == |m|
  {
    b[i] == d * m[i]
  }

  lemma {:induction false} ScaledSum(b: seq<real>, m: seq<real>, d: real, n: nat)
    requires IsScaled(b, m, d) && n <= |b|
    ensures Sum(b, n) == d * Sum(m, n)
  {
    if n > 0 {
      ScaledSum(b, m, d, n - 1);
      assert ScaledAt(b, m, d, n - 1);
      Distributes(d, Sum(m, n - 1), m[n - 1]);
    }
  }

  /** b is c plus the steps of q. */
  ghost predicate Steps(b: seq<real>, c: seq<real>, q: seq<real>) {
    |b| == |c| && |q| == |b| + 1 && forall i: nat :: i < |b| ==> StepsAt(b, c, q, i)
  }

  predicate StepsAt(b: seq<real>, c: seq<real>, q: seq<real>, i: nat)
    requires i < |b| == |c| && |q| == |b| + 1
  {
    b[i] == c[i] + q[i + 1] - q[i]
  }

  lemma {:induction false} SumTelescopes(b: seq<real>, c: seq<real>, q: seq<real>, n: nat)
    requires Steps(b, c, q) && n <= |b|
    ensures Sum(b, n) == Sum(c, n) + q[n] - q[0]
  {
    if n > 0 {
      SumTelescopes(b, c, q, n - 1);
      assert StepsAt(b, c, q, n - 1);
    }
  }

  // ----- signed places on a line

  /** Where a height meets an edge, and whether the edge rises (1), falls (-1) or does not pass the height (0). */
  datatype Place = Place(sign: real, x: real)

  predicate IsSign(sign: real) { sign == -1.0 || sign == 0.0 || sign == 1.0 }

  ghost predicate AreSigned(s: seq<Place>) { forall i :: 0 <= i < |s| ==> IsSign(s[i].sign) }

  function Signed(sign: real, x: real): real { if sign == 0.0 then 0.0 else if sign > 0.0 then x else -x }

  function Over(a: Place, t: real): real { Signed(a.sign, Max(a.x - t, 0.0)) }

  function SignBeyond(a: Place, t: real): real { if a.x > t then a.sign else 0.0 }

  function Signs(s: seq<Place>): (r: seq<real>)
    ensures |r| == |s|
  {
    seq(|s|, i requires 0 <= i < |s| => s[i].sign)
  }

  /** The signed places. */
  function Meets(s: seq<Place>): (r: seq<real>)
    ensures |r| == |s|
  {
    seq(|s|, i requires 0 <= i < |s| => Signed(s[i].sign, s[i].x))
  }

  /** How far they lie beyond t, with their signs. */
  function Overs(s: seq<Place>, t: real): (r: seq<real>)
    ensures |r| == |s|
  {
    seq(|s|, i requires 0 <= i < |s| => Over(s[i], t))
  }

  /** The signs of the places beyond t. */
  function SignsBeyond(s: seq<Place>, t: real): (r: seq<real>)
    ensures |r| == |s|
  {
    seq(|s|, i requires 0 <= i < |s| => SignBeyond(s[i], t))
  }

  /** At no place do the signs beyond add up to more than zero. */
  ghost predicate Nonpositive(s: seq<Place>) { forall x: real :: Sum(SignsBeyond(s, x), |s|) <= 0.0 }

  function Beyond(s: seq<Place>, t: real, n: nat): nat
    requires n <= |s|
  {
    if n == 0 then 0 else Beyond(s, t, n - 1) + if s[n - 1].x > t then 1 else 0
  }

  predicate Outside(a: Place, t: real, u: real) { a.x <= t || a.x >= u }

  ghost predicate NoneBetween(s: seq<Place>, t: real, u: real, n: nat)
    requires n <= |s|
  {
    forall i :: 0 <= i < n ==> Outside(s[i], t, u)
  }

  /** From t to u the excess shrinks by their distance times what winds in between. */
  lemma ExcessStep(s: seq<Place>, t: real, u: real, d: real)
    requires t <= u && d == u - t && NoneBetween(s, t, u, |s|) && AreSigned(s)
    ensures Combines(Overs(s, t), Overs(s, u), SignsBeyond(s, t), d)
  {
    forall i | 0 <= i < |s| ensures Overs(s, t)[i] == Overs(s, u)[i] + d * SignsBeyond(s, t)[i] {
      OneStep(s[i], t, u, d);
    }
  }

  lemma OneStep(a: Place, t: real, u: real, d: real)
    requires t <= u && d == u - t && IsSign(a.sign) && Outside(a, t, u)
    ensures Over(a, t) == Over(a, u) + d * SignBeyond(a, t)
  {
  }

  /** The next place beyond t. */
  lemma {:induction false} NextPlace(s: seq<Place>, t: real, n: nat) returns (u: real)
    requires n <= |s| && Beyond(s, t, n) > 0
    ensures u > t && NoneBetween(s, t, u, n) && Beyond(s, u, n) < Beyond(s, t, n)
  {
    var last := s[n - 1];
    if Beyond(s, t, n - 1) == 0 {
      u := last.x;
      NoneBeyond(s, t, n - 1);
    } else {
      u := NextPlace(s, t, n - 1);
      u := if t < last.x < u then last.x else u;
    }
    FewerBeyond(s, t, u, n - 1);
  }

  lemma {:induction false} NoneBeyond(s: seq<Place>, t: real, n: nat)
    requires n <= |s| && Beyond(s, t, n) == 0
    ensures Sum(Overs(s, t), n) == 0.0 && forall i :: 0 <= i < n ==> s[i].x <= t
  {
    if n > 0 {
      NoneBeyond(s, t, n - 1);
    }
  }

  lemma {:induction false} FewerBeyond(s: seq<Place>, t: real, u: real, n: nat)
    requires n <= |s| && t <= u
    ensures Beyond(s, u, n) <= Beyond(s, t, n)
  {
    if n > 0 {
      FewerBeyond(s, t, u, n - 1);
    }
  }

  lemma {:induction false} ExcessNonpositive(s: seq<Place>, t: real)
    requires AreSigned(s) && Nonpositive(s)
    ensures Sum(Overs(s, t), |s|) <= 0.0
    decreases Beyond(s, t, |s|)
  {
    if Beyond(s, t, |s|) == 0 {
      NoneBeyond(s, t, |s|);
    } else {
      var u := NextPlace(s, t, |s|);
      var d := u - t;
      ExcessStep(s, t, u, d);
      SumCombines(Overs(s, t), Overs(s, u), SignsBeyond(s, t), d, |s|);
      ExcessNonpositive(s, u);
      StillNonpositive(Sum(Overs(s, t), |s|), Sum(Overs(s, u), |s|), d, Sum(SignsBeyond(s, t), |s|));
    }
  }

  lemma StillNonpositive(e: real, e': real, d: real, w: real)
    requires e == e' + d * w && e' <= 0.0 && d >= 0.0 && w <= 0.0
    ensures e <= 0.0
  {
    Nonnegative(d, -w);
    assert d * -w == -(d * w);
  }

  /** A place before all others. */
  lemma {:induction false} FirstPlace(s: seq<Place>, n: nat) returns (t: real)
    requires n <= |s|
    ensures forall i :: 0 <= i < n ==> s[i].x >= t
  {
    if n == 0 {
      t := 0.0;
    } else {
      t := FirstPlace(s, n - 1);
      t := Min(t, s[n - 1].x);
    }
  }

  lemma AllBeyond(s: seq<Place>, t: real, d: real)
    requires AreSigned(s) && d == -t && forall i :: 0 <= i < |s| ==> s[i].x >= t
    ensures Combines(Overs(s, t), Meets(s), Signs(s), d)
  {
    forall i | 0 <= i < |s| ensures Overs(s, t)[i] == Meets(s)[i] + d * Signs(s)[i] {
      OverAll(s[i], t, d);
    }
  }

  lemma OverAll(a: Place, t: real, d: real)
    requires IsSign(a.sign) && a.x >= t && d == -t
    ensures Over(a, t) == Signed(a.sign, a.x) + d * a.sign
  {
  }

  /** Balanced signs that nowhere wind positively: the signed places add up to no more than zero. */
  lemma MeetsNonpositive(s: seq<Place>)
    requires AreSigned(s) && Sum(Signs(s), |s|) == 0.0 && Nonpositive(s)
    ensures Sum(Meets(s), |s|) <= 0.0
  {
    var t := FirstPlace(s, |s|);
    var d := -t;
    AllBeyond(s, t, d);
    SumCombines(Overs(s, t), Meets(s), Signs(s), d, |s|);
    ExcessNonpositive(s, t);
    Balanced(Sum(Overs(s, t), |s|), Sum(Meets(s), |s|), d, Sum(Signs(s), |s|));
  }

  lemma Balanced(e: real, m: real, d: real, s: real)
    requires e == m + d * s && s == 0.0
    ensures e == m
  {
  }

  // ----- the edges met at one height

  /** No vertex is at height h. */
  ghost predicate Generic(h: real, p: seq<Vec>) { forall i :: 0 <= i < |p| ==> p[i].y != h }

  function Sign(h: real, a: Vec, b: Vec): (s: real)
    ensures IsSign(s)
  {
    if (a.y > h) == (b.y > h) then 0.0 else if b.y > h then 1.0 else -1.0
  }

  function Places(p: seq<Vec>, h: real): (s: seq<Place>)
    ensures |s| == |p| && AreSigned(s)
  {
    seq(|p|, i requires 0 <= i < |p| => Place(Sign(h, p[i], p[Next(i, |p|)]), Meet(h, p[i], p[Next(i, |p|)])))
  }

  lemma CrossingIsSign(v: Vec, a: Vec, b: Vec)
    ensures Crossing(v, a, b) as real == if Meet(v.y, a, b) > v.x then Sign(v.y, a, b) else 0.0
  {
    CrossingAtHeight(v, a, b);
  }

  lemma {:induction false} WindIsWindSum(p: seq<Vec>, h: real, x: real, n: nat)
    requires n <= |p|
    ensures Sum(SignsBeyond(Places(p, h), x), n) == WindSum(Vec(x, h), p, n) as real
  {
    if n > 0 {
      WindIsWindSum(p, h, x, n - 1);
      CrossingIsSign(Vec(x, h), p[n - 1], p[Next(n - 1, |p|)]);
    }
  }

  lemma {:induction false} SignsTelescope(p: seq<Vec>, h: real, n: nat)
    requires n <= |p| && p != []
    ensures Sum(Signs(Places(p, h)), n)
         == (if p[if n == |p| then 0 else n].y > h then 1.0 else 0.0) - (if p[0].y > h then 1.0 else 0.0)
  {
    if n > 0 {
      SignsTelescope(p, h, n - 1);
    }
  }

  /** At no point of this height does the polygon wind positively. */
  ghost predicate NonpositiveAt(h: real, p: seq<Vec>) { forall x: real :: WindSum(Vec(x, h), p, |p|) <= 0 }

  lemma PlacesNonpositive(p: seq<Vec>, h: real)
    requires p != [] && NonpositiveAt(h, p)
    ensures Sum(Meets(Places(p, h)), |p|) <= 0.0
  {
    var s := Places(p, h);
    SignsTelescope(p, h, |p|);
    forall x: real ensures Sum(SignsBeyond(s, x), |s|) <= 0.0 { WindIsWindSum(p, h, x, |p|); }
    MeetsNonpositive(s);
  }

  // ----- bands of heights

  function Clamp(y: real, lo: real, hi: real): real { if y <= lo then lo else if y >= hi then hi else y }

  /** Twice the area left of an edge's line from height zero to y. */
  function Primitive(a: Vec, b: Vec, y: real): real { y * (Meet(0.0, a, b) + Meet(y, a, b)) }

  /** Twice the signed area left of an edge, between the heights of the band. */
  function Band(a: Vec, b: Vec, lo: real, hi: real): real {
    if a.y == b.y then 0.0 else Primitive(a, b, Clamp(b.y, lo, hi)) - Primitive(a, b, Clamp(a.y, lo, hi))
  }

  /** The edges' shares, and their sum. */
  function Shares(p: seq<Vec>, lo: real, hi: real): (b: seq<real>)
    ensures |b| == |p|
  {
    seq(|p|, i requires 0 <= i < |p| => Band(p[i], p[Next(i, |p|)], lo, hi))
  }

  lemma SplitEdge(a: Vec, b: Vec, lo: real, mid: real, hi: real)
    requires lo <= mid <= hi
    ensures Band(a, b, lo, hi) == Band(a, b, lo, mid) + Band(a, b, mid, hi)
  {
  }

  lemma SplitShares(p: seq<Vec>, lo: real, mid: real, hi: real, a: seq<real>, b: seq<real>, c: seq<real>)
    requires lo <= mid <= hi && a == Shares(p, lo, hi) && b == Shares(p, lo, mid) && c == Shares(p, mid, hi)
    ensures Adds(a, b, c)
  {
    forall i | 0 <= i < |p| ensures a[i] == b[i] + c[i] {
      SplitEdge(p[i], p[Next(i, |p|)], lo, mid, hi);
    }
  }

  lemma SplitBand(p: seq<Vec>, lo: real, mid: real, hi: real, a: seq<real>, b: seq<real>, c: seq<real>)
    requires lo <= mid <= hi && a == Shares(p, lo, hi) && b == Shares(p, lo, mid) && c == Shares(p, mid, hi)
    ensures Sum(a, |p|) == Sum(b, |p|) + Sum(c, |p|)
  {
    SplitShares(p, lo, mid, hi, a, b, c);
    SumAdds(a, b, c, |p|);
  }

  /** No vertex is strictly inside the band. */
  ghost predicate FreeBand(p: seq<Vec>, lo: real, hi: real, from: nat) {
    forall i :: from <= i < |p| ==> p[i].y <= lo || p[i].y >= hi
  }

  /** An edge across a band without its ends: twice the width times the place at half height. */
  lemma AcrossBand(a: Vec, b: Vec, lo: real, hi: real, mid: real, d: real)
    requires a.y != b.y && 2.0 * mid == lo + hi && d == 2.0 * (hi - lo)
    ensures Primitive(a, b, hi) - Primitive(a, b, lo) == d * Meet(mid, a, b)
  {
    var k := MeetBySlope(a, b);
    var m := a.x - k * a.y;
    AtHeight(a.x, a.y, k, m, 0.0);
    AtHeight(a.x, a.y, k, m, lo);
    AtHeight(a.x, a.y, k, m, hi);
    AtHeight(a.x, a.y, k, m, mid);
    QuadraticStep(m, k, lo, hi, mid, d);
  }

  lemma AtHeight(x: real, y: real, k: real, m: real, h: real)
    requires m == x - k * y
    ensures x + k * (h - y) == m + k * h
  {
  }

  lemma QuadraticStep(m: real, k: real, lo: real, hi: real, mid: real, d: real)
    requires 2.0 * mid == lo + hi && d == 2.0 * (hi - lo)
    ensures hi * (m + k * 0.0 + (m + k * hi)) - lo * (m + k * 0.0 + (m + k * lo)) == d * (m + k * mid)
  {
    assert k * (hi + lo) == 2.0 * (k * mid) by { assert k * (2.0 * mid) == 2.0 * (k * mid); }
    assert (hi - lo) * (k * (hi + lo)) == hi * (k * hi) - lo * (k * lo);
    assert (hi - lo) * (2.0 * (k * mid)) == d * (k * mid);
    assert d * m == hi * (2.0 * m) - lo * (2.0 * m);
  }

  lemma EdgeInFreeBand(a: Vec, b: Vec, lo: real, hi: real, mid: real, d: real)
    requires lo < hi && 2.0 * mid == lo + hi && d == 2.0 * (hi - lo)
    requires (a.y <= lo || a.y >= hi) && (b.y <= lo || b.y >= hi)
    ensures Band(a, b, lo, hi) == d * Signed(Sign(mid, a, b), Meet(mid, a, b))
  {
    if a.y != b.y {
      AcrossBand(a, b, lo, hi, mid, d);
    }
  }

  lemma PlaceInFreeBand(p: seq<Vec>, lo: real, hi: real, mid: real, d: real, i: nat)
    requires lo < hi && 2.0 * mid == lo + hi && d == 2.0 * (hi - lo) && FreeBand(p, lo, hi, 0) && i < |p|
    ensures ScaledAt(Shares(p, lo, hi), Meets(Places(p, mid)), d, i)
  {
    EdgeInFreeBand(p[i], p[Next(i, |p|)], lo, hi, mid, d);
  }

  lemma EachShare(p: seq<Vec>, lo: real, hi: real, mid: real, d: real)
    requires lo < hi && 2.0 * mid == lo + hi && d == 2.0 * (hi - lo) && FreeBand(p, lo, hi, 0)
    ensures IsScaled(Shares(p, lo, hi), Meets(Places(p, mid)), d)
  {
    forall i: nat | i < |p| ensures ScaledAt(Shares(p, lo, hi), Meets(Places(p, mid)), d, i) {
      PlaceInFreeBand(p, lo, hi, mid, d, i);
    }
  }

  lemma ScaledNonpositive(b: seq<real>, m: seq<real>, d: real)
    requires IsScaled(b, m, d) && d >= 0.0 && Sum(m, |m|) <= 0.0
    ensures Sum(b, |b|) <= 0.0
  {
    ScaledSum(b, m, d, |b|);
    StillNonpositive(Sum(b, |b|), 0.0, d, Sum(m, |b|));
  }

  lemma MiddleIsGeneric(p: seq<Vec>, lo: real, hi: real, mid: real)
    requires lo < hi && 2.0 * mid == lo + hi && FreeBand(p, lo, hi, 0)
    ensures Generic(mid, p)
  {
  }

  /** Between no vertices the band's area is not positive. */
  lemma FreeBandNonpositive(p: seq<Vec>, lo: real, hi: real)
    requires p != [] && lo < hi && FreeBand(p, lo, hi, 0)
    requires forall h :: Generic(h, p) ==> NonpositiveAt(h, p)
    ensures Sum(Shares(p, lo, hi), |p|) <= 0.0
  {
    var mid, d := (lo + hi) / 2.0, 2.0 * (hi - lo);
    MiddleIsGeneric(p, lo, hi, mid);
    PlacesNonpositive(p, mid);
    EachShare(p, lo, hi, mid, d);
    ScaledNonpositive(Shares(p, lo, hi), Meets(Places(p, mid)), d);
  }

  lemma {:induction false} BandNonpositive(p: seq<Vec>, lo: real, hi: real, from: nat)
    requires p != [] && lo < hi && from <= |p| && FreeBand(p, lo, hi, from)
    requires forall h :: Generic(h, p) ==> NonpositiveAt(h, p)
    ensures Sum(Shares(p, lo, hi), |p|) <= 0.0
    decreases from
  {
    if from == 0 {
      FreeBandNonpositive(p, lo, hi);
    } else {
      var y := p[from - 1].y;
      if lo < y < hi {
        BandNonpositive(p, lo, y, from - 1);
        BandNonpositive(p, y, hi, from - 1);
        SplitBand(p, lo, y, hi, Shares(p, lo, hi), Shares(p, lo, y), Shares(p, y, hi));
      } else {
        BandNonpositive(p, lo, hi, from - 1);
      }
    }
  }

  // ----- the whole area

  function Crosses(p: seq<Vec>): (c: seq<real>)
    ensures |c| == |p|
  {
    seq(|p|, i requires 0 <= i < |p| => Cross(p[i], p[Next(i, |p|)]))
  }

  lemma {:induction false} PathIsCrosses(v: Vec, p: seq<Vec>, n: nat)
    requires n < |p|
    ensures Path(From(v), p[..n + 1]).area2 == Sum(Crosses(p), n)
  {
    if n > 0 {
      PathIsCrosses(v, p, n - 1);
      PathSnoc(From(v), p, n);
    }
  }

  lemma LoopIsCrosses(v: Vec, p: seq<Vec>)
    requires p != []
    ensures Loop(From(v), p).area2 == Sum(Crosses(p), |p|)
  {
    var n := |p| - 1;
    PathIsCrosses(v, p, n);
    LoopCloses(From(v), p);
    LastCross(v, p, n, Path(From(v), p[..|p|]));
  }

  lemma LastCross(v: Vec, p: seq<Vec>, n: nat, sofar: Tally)
    requires n + 1 == |p| && sofar.area2 == Sum(Crosses(p), n)
    ensures Plus(sofar, From(v)(p[n], p[0])).area2 == Sum(Crosses(p), n + 1)
  {
  }

  /** The band of all heights: the trapezoid under an edge. */
  lemma WholeEdge(a: Vec, b: Vec, lo: real, hi: real)
    requires lo <= a.y <= hi && lo <= b.y <= hi
    ensures Band(a, b, lo, hi) == TrapezoidOf(a, b)
  {
    if a.y != b.y {
      var k := MeetBySlope(a, b);
      MeetAtEnds(a, b);
      Trapezoid(a.x, a.y, b.x, b.y, k, Meet(0.0, a, b));
      assert Clamp(a.y, lo, hi) == a.y && Clamp(b.y, lo, hi) == b.y;
    } else {
      LevelCross(a, b);
    }
  }

  lemma LevelCross(a: Vec, b: Vec)
    requires a.y == b.y
    ensures Cross(a, b) + b.x * b.y - a.x * a.y == 0.0
  {
  }

  lemma Trapezoid(x0: real, y0: real, x1: real, y1: real, k: real, m: real)
    requires k * (y1 - y0) == x1 - x0 && m == x0 + k * (0.0 - y0)
    ensures y1 * (m + x1) - y0 * (m + x0) == x0 * y1 - y0 * x1 + x1 * y1 - x0 * y0
  {
    assert (y1 - y0) * m == (y1 - y0) * x0 - (k * (y1 - y0)) * y0;
    assert (x1 - x0) * y0 == (k * (y1 - y0)) * y0;
  }

  function TrapezoidOf(a: Vec, b: Vec): real { Cross(a, b) + b.x * b.y - a.x * a.y }

  /** The products of the coordinates around the loop, the first once more at the end. */
  function Products(p: seq<Vec>): (q: seq<real>)
    requires p != []
    ensures |q| == |p| + 1 && q[|p|] == q[0]
  {
    seq(|p| + 1, i requires 0 <= i <= |p| => if i == |p| then p[0].x * p[0].y else p[i].x * p[i].y)
  }

  lemma WholeShare(p: seq<Vec>, lo: real, hi: real, i: nat)
    requires i < |p| && forall i :: 0 <= i < |p| ==> lo <= p[i].y <= hi
    ensures StepsAt(Shares(p, lo, hi), Crosses(p), Products(p), i)
  {
    WholeEdge(p[i], p[Next(i, |p|)], lo, hi);
    NextProduct(p, i);
  }

  lemma NextProduct(p: seq<Vec>, i: nat)
    requires i < |p|
    ensures Products(p)[i] == p[i].x * p[i].y
    ensures Products(p)[i + 1] == p[Next(i, |p|)].x * p[Next(i, |p|)].y
  {
  }

  lemma WholeShares(p: seq<Vec>, lo: real, hi: real)
    requires p != [] && forall i :: 0 <= i < |p| ==> lo <= p[i].y <= hi
    ensures Steps(Shares(p, lo, hi), Crosses(p), Products(p))
  {
    forall i: nat | i < |p| ensures StepsAt(Shares(p, lo, hi), Crosses(p), Products(p), i) {
      WholeShare(p, lo, hi, i);
    }
  }

  /** All heights together: twice the signed area. */
  lemma WholeArea(p: seq<Vec>, lo: real, hi: real)
    requires p != [] && forall i :: 0 <= i < |p| ==> lo <= p[i].y <= hi
    ensures Sum(Shares(p, lo, hi), |p|) == Sum(Crosses(p), |p|)
  {
    WholeShares(p, lo, hi);
    SumTelescopes(Shares(p, lo, hi), Crosses(p), Products(p), |p|);
  }

  lemma {:induction false} AllHeights(p: seq<Vec>, n: nat) returns (lo: real, hi: real)
    requires n <= |p|
    ensures lo < hi && forall i :: 0 <= i < n ==> lo <= p[i].y <= hi
  {
    if n == 0 {
      lo, hi := 0.0, 1.0;
    } else {
      lo, hi := AllHeights(p, n - 1);
      lo, hi := Min(lo, p[n - 1].y), Max(hi, p[n - 1].y);
    }
  }

  /** Winding nowhere positively at the heights of no vertex, a polygon has no positive area. */
  lemma AreaNonpositive(p: seq<Vec>, v: Vec)
    requires forall h :: Generic(h, p) ==> NonpositiveAt(h, p)
    ensures Loop(From(v), p).area2 <= 0.0
  {
    if p != [] {
      var lo, hi := AllHeights(p, |p|);
      LoopIsCrosses(v, p);
      WholeArea(p, lo, hi);
      BandNonpositive(p, lo, hi, |p|);
    }
  }
}
