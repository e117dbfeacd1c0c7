/** One diameter's rows as a single sequential run computes them, and the batches that workers solve
    (workbench/research/support/hugmap.py). A point is named by its place in the grid. */
module Table {
  import opened Options
  import opened Grid

  /** What the solver reads of a neighbouring solution. */
  datatype Warm = Warm(seg1: real, seg2: real, parts: seq<string>)

  datatype Best = Best(pose: Warm, mu: real)

  datatype Effort = Effort(attempts: nat, candidates: nat)

  /** solve_placement's answer. */
  datatype Solved = Solved(best: Option<Best>, effort: Effort)

  datatype Outcome = Found(best: Best, effort: Effort) | NotFound(effort: Effort) | Excluded(reason: string)

  datatype Row = Row(at: Point, outcome: Outcome)

  /** The exclusion rule and the solver: deterministic functions of diameter, point and warm start. */
  datatype World = World(excluded: (real, Point) -> Option<string>, solve: (real, Point, Option<Warm>) -> Solved)

  function Answer(s: Solved): Outcome {
    if s.best.Some? then Found(s.best.value, s.effort) else NotFound(s.effort)
  }

  /** The warm start a row hands to its successor, whether just solved or read back from a saved table. */
  function WarmOf(o: Outcome): Option<Warm> {
    if o.Found? then Some(o.best.pose) else None
  }

  // ----- the sequential run

  /** The points of a map in grid order at one diameter. */
  datatype Lane = Lane(w: World, d: real, grid: seq<Point>) {
    predicate Out(i: nat)
      requires i < |grid|
    {
      w.excluded(d, grid[i]).Some?
    }
  }

  /** How many of the first i points are solved rather than excluded. */
  function Slots(l: Lane, i: nat): nat
    requires i <= |l.grid|
  {
    if i == 0 then 0 else Slots(l, i - 1) + if l.Out(i - 1) then 0 else 1
  }

  /** The warm start at point i: that of the point solved before it in its batch of four. */
  function WarmBefore(l: Lane, i: nat): Option<Warm>
    requires i <= |l.grid|
    decreases i, 0
  {
    if i == 0 then None
    else if l.Out(i - 1) then WarmBefore(l, i - 1)
    else if Slots(l, i) % 4 == 0 then None
    else WarmOf(OutcomeAt(l, i - 1))
  }

  function OutcomeAt(l: Lane, i: nat): Outcome
    requires i < |l.grid|
    decreases i, 1
  {
    if l.Out(i) then Excluded(l.w.excluded(l.d, l.grid[i]).value)
    else Answer(l.w.solve(l.d, l.grid[i], WarmBefore(l, i)))
  }

  function RowAt(l: Lane, i: nat): Row
    requires i < |l.grid|
  {
    Row(l.grid[i], OutcomeAt(l, i))
  }

  /** One uninterrupted pass over the grid. */
  method SequentialMap(l: Lane) returns (rows: seq<Row>)
    ensures |rows| == |l.grid| && forall i :: 0 <= i < |rows| ==> rows[i] == RowAt(l, i)
    ensures Threaded(l, rows)
  {
    rows := [];
    var warm: Option<Warm> := None;
    var solved := 0;
    for i := 0 to |l.grid|
      invariant |rows| == i && forall k :: 0 <= k < i ==> rows[k] == RowAt(l, k)
      invariant warm == WarmBefore(l, i) && solved == Slots(l, i)
    {
      var reason := l.w.excluded(l.d, l.grid[i]);
      if reason.Some? {
        rows := rows + [Row(l.grid[i], Excluded(reason.value))];
      } else {
        var outcome := Answer(l.w.solve(l.d, l.grid[i], warm));
        rows := rows + [Row(l.grid[i], outcome)];
        solved := solved + 1;
        warm := if solved % 4 == 0 then None else WarmOf(outcome);
      }
    }
    ThreadedIff(l, rows);
  }

  // ----- what the rows say of one another

  /** The outcome is the solver's answer read as found or not found. */
  predicate Reads(o: Outcome, s: Solved) {
    match o
    case Found(best, effort) => s == Solved(Some(best), effort)
    case NotFound(effort) => s == Solved(None, effort)
    case Excluded(_) => false
  }

  /** Solved from the pose found before it, or from nothing when none was found or none comes before. */
  predicate SolvedAfter(l: Lane, o: Outcome, at: Point, before: Option<Outcome>) {
    if before.Some? && before.value.Found? then Reads(o, l.w.solve(l.d, at, Some(before.value.best.pose)))
    else Reads(o, l.w.solve(l.d, at, None))
  }

  /** The points before i that are not excluded. */
  ghost function SolvedBefore(l: Lane, i: nat): set<nat>
    requires i <= |l.grid|
  {
    set k: nat | k < i && l.w.excluded(l.d, l.grid[k]).None?
  }

  /** Two points that are not excluded, with only excluded ones in between. */
  ghost predicate Consecutive(l: Lane, i: nat, j: nat)
    requires j < |l.grid|
  {
    && i < j && l.w.excluded(l.d, l.grid[i]).None? && l.w.excluded(l.d, l.grid[j]).None?
    && forall k :: i < k < j ==> l.w.excluded(l.d, l.grid[k]).Some?
  }

  /** The first n rows of a sequential run, each told from the row before it: an excluded point carries its reason; a
      point that comes after a multiple of four solved ones is solved from nothing; any other one from the point solved
      before it. */
  ghost predicate Threaded(l: Lane, rows: seq<Row>) {
    && |rows| <= |l.grid|
    && (forall j {:trigger rows[j]} :: 0 <= j < |rows| ==> rows[j].at == l.grid[j])
    && (forall j {:trigger rows[j]} :: 0 <= j < |rows| && l.w.excluded(l.d, l.grid[j]).Some? ==>
          rows[j].outcome == Excluded(l.w.excluded(l.d, l.grid[j]).value))
    && (forall j: nat {:trigger rows[j]} ::
          j < |rows| && l.w.excluded(l.d, l.grid[j]).None? && |SolvedBefore(l, j)| % 4 == 0 ==>
          SolvedAfter(l, rows[j].outcome, l.grid[j], None))
    && (forall i: nat, j: nat {:trigger Consecutive(l, i, j)} ::
          j < |rows| && Consecutive(l, i, j) && |SolvedBefore(l, j)| % 4 != 0 ==>
          SolvedAfter(l, rows[j].outcome, l.grid[j], Some(rows[i].outcome)))
  }

  lemma {:induction false} SlotsCount(l: Lane, i: nat)
    requires i <= |l.grid|
    ensures Slots(l, i) == |SolvedBefore(l, i)|
  {
    if i == 0 {
      assert SolvedBefore(l, 0) == {};
    } else {
      SlotsCount(l, i - 1);
      var more: set<nat> := if l.Out(i - 1) then {} else {i - 1};
      assert SolvedBefore(l, i) == SolvedBefore(l, i - 1) + more;
    }
  }

  /** The warm start at a point that does not open a batch is the pose of the point solved before it, if it has one. */
  lemma {:induction false} WarmFrom(l: Lane, i: nat, j: nat)
    requires i < j <= |l.grid| && !l.Out(i) && forall k :: i < k < j ==> l.Out(k)
    requires Slots(l, j) % 4 != 0
    ensures WarmBefore(l, j) == WarmOf(OutcomeAt(l, i))
    decreases j
  {
    if i < j - 1 {
      WarmFrom(l, i, j - 1);
    }
  }

  lemma {:induction false} SolvedEarlier(l: Lane, j: nat) returns (i: nat)
    requires j <= |l.grid| && Slots(l, j) > 0
    ensures i < j && !l.Out(i) && forall k :: i < k < j ==> l.Out(k)
  {
    if l.Out(j - 1) {
      i := SolvedEarlier(l, j - 1);
    } else {
      i := j - 1;
    }
  }

  lemma Answered(o: Outcome, s: Solved)
    ensures Reads(o, s) <==> o == Answer(s)
  {
  }

  /** The rows of the sequential run are the threaded ones, and no others are. */
  lemma {:induction false} ThreadedIff(l: Lane, rows: seq<Row>)
    requires |rows| <= |l.grid|
    ensures Threaded(l, rows) <==> forall j :: 0 <= j < |rows| ==> rows[j] == RowAt(l, j)
  {
    forall j | 0 <= j < |rows| { SlotsCount(l, j); }
    if forall j :: 0 <= j < |rows| ==> rows[j] == RowAt(l, j) {
      SequentialIsThreaded(l, rows);
    }
    if Threaded(l, rows) && rows != [] {
      var n := |rows| - 1;
      FrontIsThreaded(l, rows);
      ThreadedIff(l, rows[..n]);
      LastOfThreaded(l, rows);
    }
  }

  lemma FrontIsThreaded(l: Lane, rows: seq<Row>)
    requires rows != [] && Threaded(l, rows)
    ensures Threaded(l, rows[..|rows| - 1])
  {
    var front := rows[..|rows| - 1];
    assert forall j :: 0 <= j < |front| ==> front[j] == rows[j];
  }

  lemma SequentialIsThreaded(l: Lane, rows: seq<Row>)
    requires |rows| <= |l.grid| && forall j :: 0 <= j < |rows| ==> rows[j] == RowAt(l, j)
    ensures Threaded(l, rows)
  {
    forall j: nat | j < |rows| && !l.Out(j) && |SolvedBefore(l, j)| % 4 == 0
      ensures SolvedAfter(l, rows[j].outcome, l.grid[j], None)
    {
      SlotsCount(l, j);
      FreshBatch(l, j);
      Answered(rows[j].outcome, l.w.solve(l.d, l.grid[j], None));
    }
    forall i: nat, j: nat | j < |rows| && Consecutive(l, i, j) && |SolvedBefore(l, j)| % 4 != 0
      ensures SolvedAfter(l, rows[j].outcome, l.grid[j], Some(rows[i].outcome))
    {
      SlotsCount(l, j);
      WarmFrom(l, i, j);
      Answered(rows[j].outcome, l.w.solve(l.d, l.grid[j], WarmBefore(l, j)));
    }
  }

  lemma LastOfThreaded(l: Lane, rows: seq<Row>)
    requires rows != [] && Threaded(l, rows)
    requires forall j :: 0 <= j < |rows| - 1 ==> rows[j] == RowAt(l, j)
    ensures rows[|rows| - 1] == RowAt(l, |rows| - 1)
  {
    var j := |rows| - 1;
    SlotsCount(l, j);
    if !l.Out(j) {
      Answered(rows[j].outcome, l.w.solve(l.d, l.grid[j], WarmBefore(l, j)));
      if Slots(l, j) % 4 == 0 {
        FreshBatch(l, j);
      } else {
        var i := SolvedEarlier(l, j);
        forall k | i < k < j ensures l.w.excluded(l.d, l.grid[k]).Some? { assert l.Out(k); }
        assert Consecutive(l, i, j);
        WarmFrom(l, i, j);
        assert SolvedAfter(l, rows[j].outcome, l.grid[j], Some(rows[i].outcome));
      }
    }
  }

  lemma {:induction false} FreshBatch(l: Lane, i: nat)
    requires i <= |l.grid| && Slots(l, i) % 4 == 0
    ensures WarmBefore(l, i) == None
  {
    if i > 0 && l.Out(i - 1) {
      FreshBatch(l, i - 1);
    }
  }

  // ----- batches

  /** A point of a batch with its row from an earlier run, if saved. */
  datatype Item = Item(i: nat, cached: Option<Row>)

  /** The warm start that the batch itself offers its k-th item. */
  function Prior(l: Lane, items: seq<Item>, k: nat): Option<Warm>
    requires k <= |items| && forall j :: 0 <= j < |items| ==> items[j].i < |l.grid|
  {
    if k == 0 then None else WarmOf(OutcomeAt(l, items[k - 1].i))
  }

  predicate IsItem(l: Lane, item: Item) {
    item.i < |l.grid| && !l.Out(item.i) && (item.cached.Some? ==> item.cached.value == RowAt(l, item.i))
  }

  /** Consecutive solved points whose batch warm starts are the sequential ones. */
  ghost predicate IsBatch(l: Lane, items: seq<Item>) {
    && (forall k :: 0 <= k < |items| ==> IsItem(l, items[k]))
    && (forall j, k :: 0 <= j < k < |items| ==> items[j].i < items[k].i)
    && (forall k {:trigger Prior(l, items, k)} :: 0 <= k < |items| ==> WarmBefore(l, items[k].i) == Prior(l, items, k))
  }

  /** What solving the first `cut` items adds: the rows of those not already saved. */
  function FreshRows(l: Lane, items: seq<Item>, cut: nat): seq<Row>
    requires cut <= |items| && forall j :: 0 <= j < |items| ==> items[j].i < |l.grid|
  {
    if cut == 0 then []
    else
      var rest := FreshRows(l, items, cut - 1);
      if items[cut - 1].cached.Some? then rest else rest + [RowAt(l, items[cut - 1].i)]
  }

  /** The items among the first k that have no saved row. */
  ghost function Uncached(items: seq<Item>, k: nat): set<nat>
    requires k <= |items|
  {
    set m: nat | m < k && items[m].cached.None?
  }

  /** A batch as its items tell it: a saved item has its saved outcome, any other one is solved from the pose of the
      item before it, saved or not, if that has one; and the rows are those of the items without a saved one, in
      order. */
  ghost predicate BatchThreaded(l: Lane, items: seq<Item>, outcomes: seq<Outcome>, rows: seq<Row>)
    requires |outcomes| <= |items| && forall j :: 0 <= j < |items| ==> items[j].i < |l.grid|
  {
    && (forall k {:trigger outcomes[k]} ::
          0 <= k < |outcomes| && items[k].cached.Some? ==> outcomes[k] == items[k].cached.value.outcome)
    && (forall k {:trigger outcomes[k]} :: 0 <= k < |outcomes| && items[k].cached.None? ==>
          SolvedAfter(l, outcomes[k], l.grid[items[k].i], if k == 0 then None else Some(outcomes[k - 1])))
    && |rows| == |Uncached(items, |outcomes|)|
    && (forall k: nat {:trigger outcomes[k]} :: k < |outcomes| && items[k].cached.None? ==>
          |Uncached(items, k)| < |rows| && rows[|Uncached(items, k)|] == Row(l.grid[items[k].i], outcomes[k]))
  }

  lemma UncachedGrows(items: seq<Item>, k: nat)
    requires k < |items|
    ensures |Uncached(items, k + 1)| == |Uncached(items, k)| + if items[k].cached.None? then 1 else 0
  {
    var more: set<nat> := if items[k].cached.None? then {k} else {};
    assert Uncached(items, k + 1) == Uncached(items, k) + more;
  }

  lemma NoneUncached(items: seq<Item>)
    ensures |Uncached(items, 0)| == 0
  {
    assert Uncached(items, 0) == {};
  }

  lemma SavedNext(l: Lane, items: seq<Item>, outcomes: seq<Outcome>, rows: seq<Row>)
    requires |outcomes| < |items| && forall j :: 0 <= j < |items| ==> items[j].i < |l.grid|
    requires BatchThreaded(l, items, outcomes, rows) && items[|outcomes|].cached.Some?
    ensures BatchThreaded(l, items, outcomes + [items[|outcomes|].cached.value.outcome], rows)
  {
    var m := |outcomes|;
    UncachedGrows(items, m);
    var more := outcomes + [items[m].cached.value.outcome];
    forall k | 0 <= k < |more| && items[k].cached.None?
      ensures SolvedAfter(l, more[k], l.grid[items[k].i], if k == 0 then None else Some(more[k - 1]))
    {
      assert k < m && more[k] == outcomes[k];
    }
    forall k: nat | k < |more| && items[k].cached.None?
      ensures |Uncached(items, k)| < |rows| && rows[|Uncached(items, k)|] == Row(l.grid[items[k].i], more[k])
    {
      assert k < m && more[k] == outcomes[k];
    }
  }

  lemma SolvedNext(l: Lane, items: seq<Item>, outcomes: seq<Outcome>, rows: seq<Row>, o: Outcome)
    requires |outcomes| < |items| && forall j :: 0 <= j < |items| ==> items[j].i < |l.grid|
    requires BatchThreaded(l, items, outcomes, rows) && items[|outcomes|].cached.None?
    requires SolvedAfter(l, o, l.grid[items[|outcomes|].i],
                         if outcomes == [] then None else Some(outcomes[|outcomes| - 1]))
    ensures BatchThreaded(l, items, outcomes + [o], rows + [Row(l.grid[items[|outcomes|].i], o)])
  {
    var m := |outcomes|;
    UncachedGrows(items, m);
    var more := outcomes + [o];
    forall k | 0 <= k < |more| && items[k].cached.None?
      ensures SolvedAfter(l, more[k], l.grid[items[k].i], if k == 0 then None else Some(more[k - 1]))
    {
      if k < m {
        assert more[k] == outcomes[k];
      }
    }
    var longer := rows + [Row(l.grid[items[m].i], o)];
    forall k: nat | k < |more| && items[k].cached.None?
      ensures |Uncached(items, k)| < |longer| && longer[|Uncached(items, k)|] == Row(l.grid[items[k].i], more[k])
    {
      if k < m {
        assert more[k] == outcomes[k] && |Uncached(items, k)| < |rows|;
      }
    }
  }

  /** solve_batch in a worker. The stop flag is seen, or the solve cancelled, at item `cut`. */
  method SolveBatch(l: Lane, items: seq<Item>, cut: nat) returns (rows: seq<Row>, ghost outcomes: seq<Outcome>)
    requires IsBatch(l, items) && cut <= |items|
    ensures rows == FreshRows(l, items, cut)
    ensures |outcomes| == cut && BatchThreaded(l, items, outcomes, rows)
  {
    rows, outcomes := [], [];
    NoneUncached(items);
    var warm: Option<Warm> := None;
    for k := 0 to cut
      invariant rows == FreshRows(l, items, k) && warm == Prior(l, items, k)
      invariant |outcomes| == k && BatchThreaded(l, items, outcomes, rows)
      invariant k > 0 ==> outcomes[k - 1] == OutcomeAt(l, items[k - 1].i)
    {
      if items[k].cached.Some? {
        SavedNext(l, items, outcomes, rows);
        outcomes := outcomes + [items[k].cached.value.outcome];
        warm := WarmOf(items[k].cached.value.outcome);
      } else {
        var solved := l.w.solve(l.d, l.grid[items[k].i], warm);
        Answered(Answer(solved), solved);
        SolvedNext(l, items, outcomes, rows, Answer(solved));
        outcomes := outcomes + [Answer(solved)];
        rows := rows + [Row(l.grid[items[k].i], Answer(solved))];
        warm := if solved.best.Some? then Some(solved.best.value.pose) else None;
      }
    }
  }

  // ----- cutting batches

  /** A batch under construction when the first i points have been looked at. */
  ghost predicate Cutting(l: Lane, items: seq<Item>, i: nat) {
    && i <= |l.grid| && IsBatch(l, items) && |items| == Slots(l, i) % 4
    && (forall k :: 0 <= k < |items| ==> items[k].i < i)
    && WarmBefore(l, i) == Prior(l, items, |items|)
  }

  lemma StartCutting(l: Lane, i: nat)
    requires i <= |l.grid| && Slots(l, i) % 4 == 0
    ensures Cutting(l, [], i)
  {
    FreshBatch(l, i);
  }

  lemma SkipExcluded(l: Lane, items: seq<Item>, i: nat)
    requires Cutting(l, items, i) && i < |l.grid| && l.Out(i)
    ensures Cutting(l, items, i + 1)
  {
  }

  lemma AddItem(l: Lane, items: seq<Item>, i: nat, cached: Option<Row>)
    requires Cutting(l, items, i) && i < |l.grid| && !l.Out(i)
    requires cached.Some? ==> cached.value == RowAt(l, i)
    ensures IsBatch(l, items + [Item(i, cached)])
    ensures if |items| == 3 then Slots(l, i + 1) % 4 == 0 else Cutting(l, items + [Item(i, cached)], i + 1)
  {
    GrowBatch(l, items, Item(i, cached));
    NextWarm(l, i, |items|);
    LastPrior(l, items, Item(i, cached));
  }

  lemma NextWarm(l: Lane, i: nat, m: nat)
    requires i < |l.grid| && !l.Out(i) && m == Slots(l, i) % 4
    ensures if m == 3 then Slots(l, i + 1) % 4 == 0
            else Slots(l, i + 1) % 4 == m + 1 && WarmBefore(l, i + 1) == WarmOf(OutcomeAt(l, i))
  {
    Cycle(Slots(l, i));
  }

  lemma LastPrior(l: Lane, items: seq<Item>, item: Item)
    requires item.i < |l.grid| && forall j :: 0 <= j < |items| ==> items[j].i < |l.grid|
    ensures Prior(l, items + [item], |items| + 1) == WarmOf(OutcomeAt(l, item.i))
  {
  }

  lemma Cycle(n: nat)
    ensures (n + 1) % 4 == if n % 4 == 3 then 0 else n % 4 + 1
  {
  }

  lemma GrowBatch(l: Lane, items: seq<Item>, item: Item)
    requires IsBatch(l, items) && IsItem(l, item) && forall k :: 0 <= k < |items| ==> items[k].i < item.i
    requires WarmBefore(l, item.i) == Prior(l, items, |items|)
    ensures IsBatch(l, items + [item])
  {
    var more := items + [item];
    forall k | 0 <= k < |more| ensures WarmBefore(l, more[k].i) == Prior(l, more, k) {
      SamePrior(l, items, item, k);
    }
  }

  lemma SamePrior(l: Lane, items: seq<Item>, item: Item, k: nat)
    requires k <= |items| && item.i < |l.grid| && forall j :: 0 <= j < |items| ==> items[j].i < |l.grid|
    ensures Prior(l, items + [item], k) == Prior(l, items, k)
  {
  }
}
