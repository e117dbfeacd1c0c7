/** Furthest-point sampling, twice: the CPU reference (workbench/research/experiments/adapointr.py)
    and the blockwise kernel (workbench/research/support/adapointr_ops.py). Coordinates are exact reals. */
module FurthestPoint {
  import opened Roots

  datatype Point = Point(x: real, y: real, z: real)

  const CAP: real := 10000000000.0
  const NEAR_ZERO: real := 0.001

  function Square(a: real): (s: real)
    ensures s >= 0.0
  {
    a * a
  }

  function Distance2(a: Point, b: Point): (d: real)
    ensures d >= 0.0
  {
    (Square(a.x - b.x) + Square(a.y - b.y)) + Square(a.z - b.z)
  }

  predicate Valid(p: Point) {
    (p.x * p.x + p.y * p.y) + p.z * p.z > NEAR_ZERO
  }

  predicate InRange(indices: seq<nat>, n: nat) {
    forall k :: 0 <= k < |indices| ==> indices[k] < n
  }

  /** The distance entry of one point after the picks so far: the capped minimum to the chosen set. */
  function Lowest(points: seq<Point>, chosen: seq<nat>, i: nat): (d: real)
    requires i < |points| && InRange(chosen, |points|)
    ensures 0.0 <= d <= CAP
    ensures forall k :: 0 <= k < |chosen| ==> d <= Distance2(points[i], points[chosen[k]])
    ensures d == CAP || exists k :: 0 <= k < |chosen| && d == Distance2(points[i], points[chosen[k]])
  {
    if chosen == [] then CAP
    else
      var n := |chosen| - 1;
      Min(Lowest(points, chosen[..n], i), Distance2(points[i], points[chosen[n]]))
  }

  /** The whole distance array after the picks so far. */
  function Distances(points: seq<Point>, chosen: seq<nat>): (d: seq<real>)
    requires InRange(chosen, |points|)
    ensures |d| == |points|
  {
    seq(|points|, i requires 0 <= i < |points| => Lowest(points, chosen, i))
  }

  function Mask(points: seq<Point>): seq<bool> {
    seq(|points|, i requires 0 <= i < |points| => Valid(points[i]))
  }

  /** The lane count: the largest power of two not above n, at most 512. */
  function Lanes(n: nat): (lanes: nat)
    requires n > 0
    ensures 0 < lanes <= 512 && lanes <= n
  {
    if n >= 512 then 512 else if n == 1 then 1 else 2 * Lanes(n / 2)
  }

  /** Priority among equally far points: lower lane first, then lower index. */
  predicate Before(lanes: nat, i: nat, j: nat)
    requires lanes > 0
  {
    i % lanes < j % lanes || (i % lanes == j % lanes && i < j)
  }

  /** The index a sampling step must choose: a valid point furthest from the chosen set and first in
      priority among those; index 0 when no point is valid. */
  ghost predicate IsPick(valid: seq<bool>, distance: seq<real>, lanes: nat, i: nat)
    requires lanes > 0 && |valid| == |distance|
  {
    if exists j :: 0 <= j < |valid| && valid[j] then
      && i < |valid| && valid[i]
      && (forall j :: 0 <= j < |valid| && valid[j] ==> distance[j] <= distance[i])
      && (forall j :: 0 <= j < |valid| && valid[j] && j != i && distance[j] == distance[i] ==> Before(lanes, i, j))
    else i == 0
  }

  ghost predicate PicksNext(points: seq<Point>, chosen: seq<nat>, i: nat) {
    points != [] && InRange(chosen, |points|) && IsPick(Mask(points), Distances(points, chosen), Lanes(|points|), i)
  }

  /** A result array as the sampling loop must fill it: index 0 first, then one pick after another. */
  ghost predicate IsSample(points: seq<Point>, result: seq<nat>) {
    && InRange(result, |points|)
    && (result != [] ==> result[0] == 0)
    && forall j :: 0 < j < |result| ==> PicksNext(points, result[..j], result[j])
  }

  lemma PickIsUnique(valid: seq<bool>, distance: seq<real>, lanes: nat, a: nat, b: nat)
    requires lanes > 0 && |valid| == |distance|
    requires IsPick(valid, distance, lanes, a) && IsPick(valid, distance, lanes, b)
    ensures a == b
  {
  }

  lemma NextIsUnique(points: seq<Point>, chosen: seq<nat>, a: nat, b: nat)
    requires PicksNext(points, chosen, a) && PicksNext(points, chosen, b)
    ensures a == b
  {
    PickIsUnique(Mask(points), Distances(points, chosen), Lanes(|points|), a, b);
  }

  /** Any two procedures that meet the specification return the same indices. */
  lemma {:induction false} SampleIsUnique(points: seq<Point>, r: seq<nat>, s: seq<nat>)
    requires IsSample(points, r) && IsSample(points, s) && |r| == |s|
    ensures r == s
  {
    if |r| > 1 {
      var n := |r| - 1;
      ShorterSample(points, r);
      ShorterSample(points, s);
      SampleIsUnique(points, r[..n], s[..n]);
      NextIsUnique(points, s[..n], r[n], s[n]);
      SplitLast(r, s);
    }
  }

  lemma SplitLast(r: seq<nat>, s: seq<nat>)
    requires 0 < |r| == |s| && r[..|r| - 1] == s[..|r| - 1] && r[|r| - 1] == s[|r| - 1]
    ensures r == s
  {
    assert r == r[..|r| - 1] + [r[|r| - 1]];
    assert s == s[..|r| - 1] + [s[|r| - 1]];
  }

  lemma ShorterSample(points: seq<Point>, r: seq<nat>)
    requires IsSample(points, r) && |r| > 1
    ensures IsSample(points, r[..|r| - 1]) && PicksNext(points, r[..|r| - 1], r[|r| - 1])
  {
    var shorter := r[..|r| - 1];
    forall j | 0 < j < |shorter| ensures PicksNext(points, shorter[..j], shorter[j]) {
      assert shorter[..j] == r[..j];
      assert PicksNext(points, r[..j], r[j]);
    }
  }

  // ----- the sample in plain terms

  /** The squared distance of point i to the nearest chosen point, at most ten thousand million. */
  ghost predicate Reaches(points: seq<Point>, chosen: seq<nat>, i: nat, d: real)
    requires i < |points| && InRange(chosen, |points|)
  {
    && d <= 10000000000.0 && (forall k :: 0 <= k < |chosen| ==> d <= Apart(points[i], points[chosen[k]]))
    && (d == 10000000000.0 || exists k :: 0 <= k < |chosen| && d == Apart(points[i], points[chosen[k]]))
  }

  function Apart(a: Point, b: Point): real {
    (a.x - b.x) * (a.x - b.x) + (a.y - b.y) * (a.y - b.y) + (a.z - b.z) * (a.z - b.z)
  }

  predicate Counts(p: Point) { p.x * p.x + p.y * p.y + p.z * p.z > 0.001 }

  /** The largest power of two not above n, at most 512. */
  predicate AreLanes(n: nat, lanes: nat) {
    lanes in {1, 2, 4, 8, 16, 32, 64, 128, 256, 512} && lanes <= n && (lanes == 512 || n < 2 * lanes)
  }

  lemma {:induction false} LanesAreLanes(n: nat)
    requires n > 0
    ensures AreLanes(n, Lanes(n))
  {
    if 1 < n < 512 {
      LanesAreLanes(n / 2);
    }
  }

  /** Of two points one reaches further, or as far and comes first in lane order. */
  predicate Precedes(lanes: nat, i: nat, far: real, n: nat, near: real)
    requires lanes > 0
  {
    near < far || (near == far && (i % lanes < n % lanes || (i % lanes == n % lanes && i < n)))
  }

  /** Of the points away from the origin the pick reaches furthest; among equals it is first in lane order. */
  ghost predicate IsFurthest(points: seq<Point>, chosen: seq<nat>, lanes: nat, i: nat)
    requires InRange(chosen, |points|) && lanes > 0
  {
    if forall n :: 0 <= n < |points| ==> !Counts(points[n]) then i == 0
    else
      && i < |points| && Counts(points[i])
      && forall n: nat, far, near ::
           (n < |points| && n != i && Counts(points[n])
            && Reaches(points, chosen, i, far) && Reaches(points, chosen, n, near)) ==> Precedes(lanes, i, far, n, near)
  }

  lemma ReachIsLowest(points: seq<Point>, chosen: seq<nat>, i: nat, d: real)
    requires i < |points| && InRange(chosen, |points|)
    ensures Reaches(points, chosen, i, d) ==> d == Lowest(points, chosen, i)
  {
    var low := Lowest(points, chosen, i);
    assert forall k :: 0 <= k < |chosen| ==>
      (Apart(points[i], points[chosen[k]]) == Distance2(points[i], points[chosen[k]]));
  }

  lemma PickPrecedes(points: seq<Point>, chosen: seq<nat>, i: nat, n: nat)
    requires PicksNext(points, chosen, i) && n < |points| && n != i && Valid(points[n])
    ensures i < |points| && Valid(points[i])
    ensures Precedes(Lanes(|points|), i, Lowest(points, chosen, i), n, Lowest(points, chosen, n))
  {
    var valid, distance := Mask(points), Distances(points, chosen);
    assert valid[n];
    assert valid[i];
    assert distance[n] <= distance[i];
  }

  lemma CountsIsValid(p: Point)
    ensures Counts(p) <==> Valid(p)
  {
  }

  /** Every sample picks, step by step, the furthest point of the plain description. */
  lemma SampleIsFurthest(points: seq<Point>, r: seq<nat>, j: nat) returns (lanes: nat)
    requires IsSample(points, r) && 0 < j < |r|
    ensures r[0] == 0 && AreLanes(|points|, lanes) && lanes > 0 && IsFurthest(points, r[..j], lanes, r[j])
  {
    var chosen, i := r[..j], r[j];
    lanes := Lanes(|points|);
    LanesAreLanes(|points|);
    assert PicksNext(points, chosen, i);
    forall n | 0 <= n < |points| ensures Counts(points[n]) <==> Mask(points)[n] { CountsIsValid(points[n]); }
    forall n: nat, far, near | n < |points| && n != i && Counts(points[n])
      && Reaches(points, chosen, i, far) && Reaches(points, chosen, n, near)
      ensures Precedes(lanes, i, far, n, near)
    {
      ReachIsLowest(points, chosen, i, far);
      ReachIsLowest(points, chosen, n, near);
      PickPrecedes(points, chosen, i, n);
    }
  }

  /** The indices of one lane in increasing order. */
  method OneLane(n: nat, lanes: nat, lane: nat) returns (order: seq<nat>)
    requires lanes > 0
    ensures forall i :: 0 <= i < n && i % lanes == lane ==> i in order
    ensures forall k :: 0 <= k < |order| ==> order[k] < n && order[k] % lanes == lane
    ensures forall k, l :: 0 <= k < l < |order| ==> order[k] < order[l]
  {
    order := [];
    for i := 0 to n
      invariant forall j :: 0 <= j < i && j % lanes == lane ==> j in order
      invariant forall k :: 0 <= k < |order| ==> order[k] < i && order[k] % lanes == lane
      invariant forall k, l :: 0 <= k < l < |order| ==> order[k] < order[l]
    {
      if i % lanes == lane {
        order := order + [i];
      }
    }
  }

  /** np.lexsort over (index, index % lanes): lane by lane, each lane in index order. */
  method LaneOrder(n: nat, lanes: nat) returns (order: seq<nat>)
    requires lanes > 0
    ensures forall i :: 0 <= i < n ==> i in order
    ensures InRange(order, n)
    ensures forall k, l :: 0 <= k < l < |order| ==> Before(lanes, order[k], order[l])
  {
    order := [];
    for lane := 0 to lanes
      invariant forall i :: 0 <= i < n && i % lanes < lane ==> i in order
      invariant forall k :: 0 <= k < |order| ==> order[k] < n && order[k] % lanes < lane
      invariant forall k, l :: 0 <= k < l < |order| ==> Before(lanes, order[k], order[l])
    {
      var next := OneLane(n, lanes, lane);
      order := order + next;
    }
  }

  /** np.argmax(candidates[order]): the first position of the largest candidate. */
  method ArgMax(candidates: seq<real>, order: seq<nat>) returns (best: nat)
    requires order != [] && forall k :: 0 <= k < |order| ==> order[k] < |candidates|
    ensures best < |order|
    ensures forall k :: 0 <= k < |order| ==> candidates[order[k]] <= candidates[order[best]]
    ensures forall k :: 0 <= k < best ==> candidates[order[k]] < candidates[order[best]]
  {
    best := 0;
    for k := 1 to |order|
      invariant best < k
      invariant forall l :: 0 <= l < k ==> candidates[order[l]] <= candidates[order[best]]
      invariant forall l :: 0 <= l < best ==> candidates[order[l]] < candidates[order[best]]
    {
      if candidates[order[k]] > candidates[order[best]] {
        best := k;
      }
    }
  }

  /** One reference step: mask the invalid points with -1 and take the first maximum in lane order. */
  method ReferencePick(valid: seq<bool>, distance: seq<real>, order: seq<nat>, ghost lanes: nat) returns (pick: nat)
    requires 0 < |valid| == |distance| && lanes > 0
    requires forall i :: 0 <= i < |distance| ==> distance[i] >= 0.0
    requires forall i :: 0 <= i < |valid| ==> i in order
    requires InRange(order, |valid|)
    requires forall k, l :: 0 <= k < l < |order| ==> Before(lanes, order[k], order[l])
    ensures pick < |valid| && IsPick(valid, distance, lanes, pick)
  {
    if exists i :: 0 <= i < |valid| && valid[i] {
      var candidates := seq(|valid|, i requires 0 <= i < |valid| => if valid[i] then distance[i] else -1.0);
      assert 0 in order;
      var best := ArgMax(candidates, order);
      pick := order[best];
      forall j | 0 <= j < |valid|
        ensures candidates[j] <= candidates[pick]
        ensures j != pick && candidates[j] == candidates[pick] ==> Before(lanes, pick, j)
      {
        assert j in order;
        var k :| 0 <= k < |order| && order[k] == j;
        if k != best && candidates[j] == candidates[pick] {
          assert best < k;
        }
      }
      var i :| 0 <= i < |valid| && valid[i];
      assert 0.0 <= candidates[i] <= candidates[pick];
      forall j | 0 <= j < |valid| && valid[j] ensures distance[j] == candidates[j] <= distance[pick] { }
    } else {
      pick := 0;
    }
  }

  method FpsReference(points: seq<Point>, count: nat) returns (result: seq<nat>)
    requires points != []
    ensures |result| == count && IsSample(points, result)
  {
    if count == 0 {
      return [];
    }
    var order := LaneOrder(|points|, Lanes(|points|));
    var distance := seq(|points|, i => CAP);
    result := [0];
    for j := 1 to count
      invariant |result| == j && IsSample(points, result)
      invariant distance == Distances(points, result[..j - 1])
    {
      distance := Lowered(points, result, distance);
      var pick := ReferencePick(Mask(points), distance, order, Lanes(|points|));
      Extend(points, result, pick);
      assert (result + [pick])[..j] == result;
      result := result + [pick];
    }
  }

  /** The update of the distance array by the last index. */
  method Lowered(points: seq<Point>, result: seq<nat>, distance: seq<real>) returns (lower: seq<real>)
    requires result != [] && InRange(result, |points|) && distance == Distances(points, result[..|result| - 1])
    ensures lower == Distances(points, result)
  {
    var last := result[|result| - 1];
    LowerAll(points, result, distance);
    lower := seq(|points|, i requires 0 <= i < |points| => Min(distance[i], Distance2(points[i], points[last])));
  }

  /** The in-place update of the distance array is the next entry of the specification. */
  lemma LowerAll(points: seq<Point>, result: seq<nat>, distance: seq<real>)
    requires result != [] && InRange(result, |points|)
    requires distance == Distances(points, result[..|result| - 1])
    ensures seq(|points|, i requires 0 <= i < |points| =>
              Min(distance[i], Distance2(points[i], points[result[|result| - 1]]))) == Distances(points, result)
  {
  }

  /** The same update over a padded block: its first entries are the distance array. */
  lemma LowerBlock(points: seq<Point>, out: seq<nat>, loaded: seq<Point>, distance: seq<real>)
    requires out != [] && InRange(out, |points|)
    requires |points| <= |loaded| == |distance| && loaded[..|points|] == points
    requires distance[..|points|] == Distances(points, out[..|out| - 1])
    requires forall i :: 0 <= i < |distance| ==> distance[i] >= 0.0
    ensures var at := loaded[out[|out| - 1]];
      var lowered := seq(|distance|, i requires 0 <= i < |distance| => Min(distance[i], Distance2(loaded[i], at)));
      lowered[..|points|] == Distances(points, out) && forall i :: 0 <= i < |lowered| ==> lowered[i] >= 0.0
  {
    var at := loaded[out[|out| - 1]];
    var lowered := seq(|distance|, i requires 0 <= i < |distance| => Min(distance[i], Distance2(loaded[i], at)));
    forall i: nat | i < |points| ensures lowered[i] == Lowest(points, out, i) {
      LowerOne(points, out, loaded, distance, i);
    }
    assert lowered[..|points|] == Distances(points, out);
  }

  lemma LowerOne(points: seq<Point>, out: seq<nat>, loaded: seq<Point>, distance: seq<real>, i: nat)
    requires out != [] && InRange(out, |points|) && i < |points|
    requires |points| <= |loaded| == |distance| && loaded[..|points|] == points
    requires distance[..|points|] == Distances(points, out[..|out| - 1])
    ensures Min(distance[i], Distance2(loaded[i], loaded[out[|out| - 1]])) == Lowest(points, out, i)
  {
    assert loaded[i] == loaded[..|points|][i] && distance[i] == distance[..|points|][i];
    assert loaded[out[|out| - 1]] == loaded[..|points|][out[|out| - 1]];
  }

  lemma Extend(points: seq<Point>, result: seq<nat>, pick: nat)
    requires result != [] && IsSample(points, result) && pick < |points| && PicksNext(points, result, pick)
    ensures IsSample(points, result + [pick])
  {
    var longer := result + [pick];
    forall j | 0 < j < |longer| ensures PicksNext(points, longer[..j], longer[j]) {
      if j < |result| {
        assert longer[..j] == result[..j];
      } else {
        assert longer[..j] == result;
      }
    }
  }

  const NONE: nat := 2147483647

  /** tl.max over the masked block. */
  method BlockMax(valid: seq<bool>, distance: seq<real>) returns (best: real)
    requires |valid| == |distance| && forall i :: 0 <= i < |distance| ==> distance[i] >= 0.0
    ensures forall j :: 0 <= j < |valid| && valid[j] ==> distance[j] <= best
    ensures if exists j ::
      0 <= j < |valid| && valid[j] then exists j :: 0 <= j < |valid| && valid[j] && distance[j] == best
            else best == -1.0
  {
    best := -1.0;
    for i := 0 to |valid|
      invariant forall j :: 0 <= j < i && valid[j] ==> distance[j] <= best
      invariant best == -1.0 || exists j :: 0 <= j < i && valid[j] && distance[j] == best
    {
      var candidate := if valid[i] then distance[i] else -1.0;
      if candidate > best { best := candidate; }
    }
  }

  /** tl.min of the lanes of the entries attaining the maximum. */
  method BlockLane(valid: seq<bool>, distance: seq<real>, best: real, lanes: nat) returns (lane: nat)
    requires |valid| == |distance| && 0 < lanes < NONE
    ensures forall j :: 0 <= j < |valid| && valid[j] && distance[j] == best ==> lane <= j % lanes
    ensures lane == NONE || exists j :: 0 <= j < |valid| && valid[j] && distance[j] == best && j % lanes == lane
  {
    lane := NONE;
    for i := 0 to |valid|
      invariant forall j :: 0 <= j < i && valid[j] && distance[j] == best ==> lane <= j % lanes
      invariant lane == NONE || exists j :: 0 <= j < i && valid[j] && distance[j] == best && j % lanes == lane
    {
      if valid[i] && distance[i] == best && i % lanes < lane { lane := i % lanes; }
    }
  }

  /** tl.min of the indices of those entries in that lane. */
  method BlockIndex(valid: seq<bool>, distance: seq<real>, best: real, lanes: nat, lane: nat) returns (chosen: nat)
    requires |valid| == |distance| < NONE && 0 < lanes
    ensures forall j :: 0 <= j < |valid| && valid[j] && distance[j] == best && j % lanes == lane ==> chosen <= j
    ensures chosen == NONE || (chosen < |valid| && valid[chosen] && distance[chosen] == best && chosen % lanes == lane)
  {
    chosen := NONE;
    for i := 0 to |valid|
      invariant forall j :: 0 <= j < i && valid[j] && distance[j] == best && j % lanes == lane ==> chosen <= j
      invariant chosen == NONE || (chosen < i && valid[chosen] && distance[chosen] == best && chosen % lanes == lane)
    {
      if valid[i] && distance[i] == best && i % lanes == lane && i < chosen { chosen := i; }
    }
  }

  /** One kernel step over a padded block; the reductions run over all block entries and padding is masked off. */
  method KernelPick(valid: seq<bool>, distance: seq<real>, lanes: nat, ghost n: nat) returns (old': nat)
    requires 0 < n <= |valid| == |distance| < NONE && 0 < lanes < NONE
    requires forall i :: n <= i < |valid| ==> !valid[i]
    requires forall i :: 0 <= i < |distance| ==> distance[i] >= 0.0
    ensures old' < n && IsPick(valid[..n], distance[..n], lanes, old')
  {
    var best := BlockMax(valid, distance);
    var lane := BlockLane(valid, distance, best, lanes);
    var chosen := BlockIndex(valid, distance, best, lanes, lane);
    old' := if best >= 0.0 then chosen else 0;
    if j :| 0 <= j < |valid| && valid[j] && distance[j] == best {
      assert lane <= j % lanes < NONE;
      var k :| 0 <= k < |valid| && valid[k] && distance[k] == best && k % lanes == lane;
      assert chosen <= k;
    } else {
      assert forall j :: 0 <= j < |valid| ==> !valid[j];
    }
  }

  method FpsKernel(points: seq<Point>, count: nat, block: nat) returns (out: seq<nat>)
    requires 1 <= count <= |points| <= block < NONE
    ensures |out| == count && IsSample(points, out)
  {
    var n := |points|;
    var loaded := points + seq(block - n, i => Point(0.0, 0.0, 0.0));
    var valid := seq(block, i requires 0 <= i < block => i < n && Valid(loaded[i]));
    var distance := seq(block, i => CAP);
    var old' := 0;
    out := [0];
    assert valid[..n] == Mask(points);
    for j := 1 to count
      invariant |out| == j && IsSample(points, out) && |distance| == block && old' == out[j - 1]
      invariant forall i :: 0 <= i < block ==> distance[i] >= 0.0
      invariant distance[..n] == Distances(points, out[..j - 1])
    {
      var at := loaded[old'];
      LowerBlock(points, out, loaded, distance);
      distance := seq(block, i requires 0 <= i < block => Min(distance[i], Distance2(loaded[i], at)));
      old' := KernelPick(valid, distance, Lanes(n), n);
      Extend(points, out, old');
      assert (out + [old'])[..j] == out;
      out := out + [old'];
    }
  }

  /** The kernel refines the reference on every input the kernel accepts. */
  method CompareOperators(points: seq<Point>, count: nat, block: nat) returns (reference: seq<nat>, kernel: seq<nat>)
    requires 1 <= count <= |points| <= block < NONE
    ensures reference == kernel && |kernel| == count
  {
    reference := FpsReference(points, count);
    kernel := FpsKernel(points, count, block);
    SampleIsUnique(points, reference, kernel);
  }

  // ----- sampling quality: the greedy 2-approximation of the k-center radius

  /** Every valid point lies within squared radius r2 of one of the centers. */
  ghost predicate Covers(points: seq<Point>, centers: seq<Point>, r2: real) {
    forall i :: 0 <= i < |points| && Valid(points[i]) ==>
      exists c :: 0 <= c < |centers| && Distance2(points[i], centers[c]) <= r2
  }

  /** Two points within one center's radius are within twice that radius of each other. */
  lemma SharedCenter(a: Point, b: Point, c: Point, r2: real)
    requires Distance2(a, c) <= r2 && Distance2(b, c) <= r2
    ensures Distance2(a, b) <= 4.0 * r2
  {
    SpreadAxis(a.x, b.x, c.x);
    SpreadAxis(a.y, b.y, c.y);
    SpreadAxis(a.z, b.z, c.z);
  }

  lemma SpreadAxis(a: real, b: real, c: real)
    ensures Square(a - b) <= 2.0 * Square(a - c) + 2.0 * Square(b - c)
  {
    assert Square((a - c) + (b - c)) >= 0.0;
    assert 2.0 * Square(a - c) + 2.0 * Square(b - c) - Square(a - b) == Square((a - c) + (b - c));
  }

  /** More items than bins: two items share a bin. */
  lemma {:induction false} Pigeonhole(bins: nat, f: seq<nat>) returns (i: nat, j: nat)
    requires |f| > bins && forall k :: 0 <= k < |f| ==> f[k] < bins
    ensures i < j < |f| && f[i] == f[j]
    decreases bins
  {
    if k :| 0 <= k < |f| - 1 && f[k] == f[|f| - 1] {
      return k, |f| - 1;
    }
    var last := f[|f| - 1];
    var rest := seq(|f| - 1, k requires 0 <= k < |f| - 1 => if f[k] == bins - 1 then last else f[k]);
    i, j := Pigeonhole(bins - 1, rest);
  }

  /** No distance between two points of the cloud exceeds the initial entry of the distance array. */
  ghost predicate UnderCap(points: seq<Point>) {
    forall i, j :: 0 <= i < |points| && 0 <= j < |points| ==> Distance2(points[i], points[j]) <= CAP
  }

  function Gather(points: seq<Point>, indices: seq<nat>): seq<Point>
    requires InRange(indices, |points|)
  {
    seq(|indices|, k requires 0 <= k < |indices| => points[indices[k]])
  }

  /** If the cap is never reached and point 0 is valid, the chosen points cover the valid points within
      twice the radius of any other choice of as many centers. */
  lemma {:induction false} SampleCoversWithinTwice(points: seq<Point>, result: seq<nat>, centers: seq<Point>, r2: real)
    requires result != [] && IsSample(points, result) && Valid(points[0]) && UnderCap(points)
    requires |centers| == |result| && Covers(points, centers, r2)
    ensures Covers(points, Gather(points, result), 4.0 * r2)
  {
    forall v | 0 <= v < |points| && Valid(points[v])
      ensures exists c :: 0 <= c < |result| && Distance2(points[v], Gather(points, result)[c]) <= 4.0 * r2
    {
      var k := NearPick(points, result, centers, r2, v);
      assert Gather(points, result)[k] == points[result[k]];
    }
  }

  /** A point further than twice the radius from every pick would need one center more than there are. */
  lemma {:induction false} NearPick(points: seq<Point>, result: seq<nat>, centers: seq<Point>, r2: real, v: nat)
    returns (k: nat)
    requires result != [] && IsSample(points, result) && Valid(points[0]) && UnderCap(points)
    requires |centers| == |result| && Covers(points, centers, r2)
    requires v < |points| && Valid(points[v])
    ensures k < |result| && Distance2(points[v], points[result[k]]) <= 4.0 * r2
  {
    PicksAreValid(points, result);
    var all := result + [v];
    var bin := seq(|all|, k requires 0 <= k < |all| => CenterOf(points, centers, r2, all[k]));
    var i, j := Pigeonhole(|centers|, bin);
    SharedCenter(points[all[i]], points[all[j]], centers[bin[i]], r2);
    k := PicksStaySpread(points, result, v, i, j);
  }

  ghost function CenterOf(points: seq<Point>, centers: seq<Point>, r2: real, i: nat): (c: nat)
    requires i < |points| && Valid(points[i]) && Covers(points, centers, r2)
    ensures c < |centers| && Distance2(points[i], centers[c]) <= r2
  {
    var c :| 0 <= c < |centers| && Distance2(points[i], centers[c]) <= r2;
    c
  }

  lemma PicksAreValid(points: seq<Point>, result: seq<nat>)
    requires IsSample(points, result) && result != [] && Valid(points[0])
    ensures forall k :: 0 <= k < |result| ==> Valid(points[result[k]])
  {
    assert Mask(points)[0];
    forall k | 0 < k < |result| ensures Valid(points[result[k]]) {
      assert PicksNext(points, result[..k], result[k]);
    }
  }

  /** Two picks are at least as far apart as v still is from some pick. */
  lemma PicksStaySpread(points: seq<Point>, result: seq<nat>, v: nat, i: nat, j: nat) returns (k: nat)
    requires result != [] && IsSample(points, result) && v < |points| && Valid(points[v]) && UnderCap(points)
    requires i < j <= |result|
    ensures k < |result|
    ensures Distance2(points[v], points[result[k]]) <= Distance2(points[(result + [v])[i]], points[(result + [v])[j]])
  {
    if j == |result| {
      Mirror(points[v], points[result[i]]);
      return i;
    }
    var chosen := result[..j];
    assert PicksNext(points, chosen, result[j]);
    assert Mask(points)[v];
    assert Distances(points, chosen)[v] <= Distances(points, chosen)[result[j]];
    assert chosen[i] == result[i];
    Mirror(points[result[j]], points[result[i]]);
    if Lowest(points, chosen, v) == CAP {
      return i;
    }
    k :| 0 <= k < |chosen| && Lowest(points, chosen, v) == Distance2(points[v], points[chosen[k]]);
  }

  lemma Mirror(a: Point, b: Point)
    ensures Distance2(a, b) == Distance2(b, a)
  {
  }
}
