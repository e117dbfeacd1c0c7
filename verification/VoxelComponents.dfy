/** The worklist that counts 6-connected components of a voxel set
    (workbench/research/analysis/compare_voxel_mesh.py). */
module VoxelComponents {
  import opened Connectivity
  import opened Integers

  type Cell = (int, int, int)

  /** The cell one step along an axis (0, 1 or 2). */
  function Shift(cell: Cell, axis: nat, sign: int): Cell {
    if axis == 0 then (cell.0 + sign, cell.1, cell.2)
    else if axis == 1 then (cell.0, cell.1 + sign, cell.2)
    else (cell.0, cell.1, cell.2 + sign)
  }

  /** Face neighbours: cells at Manhattan distance one. */
  predicate Adjacent(a: Cell, b: Cell) {
    Distance(a.0, b.0) + Distance(a.1, b.1) + Distance(a.2, b.2) == 1
  }

  lemma ShiftsAreTheNeighbours(a: Cell, b: Cell)
    ensures Adjacent(a, b) <==>
            exists axis: nat, sign: int :: axis < 3 && (sign == -1 || sign == 1) && b == Shift(a, axis, sign)
  {
    if Adjacent(a, b) {
      var axis: nat := if a.0 != b.0 then 0 else if a.1 != b.1 then 1 else 2;
      var sign := (b.0 - a.0) + (b.1 - a.1) + (b.2 - a.2);
      assert b == Shift(a, axis, sign);
    }
  }

  ghost function Faces(cells: set<Cell>): set<(Cell, Cell)> {
    set a, b | a in cells && b in cells && Adjacent(a, b) :: (a, b)
  }

  /** The 6-connected component of a cell. */
  ghost function Component(cells: set<Cell>, c: Cell): set<Cell> {
    set d | d in cells && Connected(Faces(cells), c, d)
  }

  ghost function Components(cells: set<Cell>, part: set<Cell>): set<set<Cell>> {
    set c | c in part :: Component(cells, c)
  }

  lemma ComponentOfMember(cells: set<Cell>, c: Cell, d: Cell)
    requires c in cells && d in Component(cells, c)
    ensures Component(cells, d) == Component(cells, c)
  {
    var f := Faces(cells);
    SymmetricConnection(f, c, d);
    forall e | e in cells ensures e in Component(cells, d) <==> e in Component(cells, c) {
      if Connected(f, c, e) { Transitive(f, d, c, e); }
      if Connected(f, d, e) { Transitive(f, c, d, e); }
    }
  }

  /** No face leads out of the part. */
  ghost predicate Closed(cells: set<Cell>, part: set<Cell>) {
    forall a, b :: a in part && (a, b) in Faces(cells) ==> b in part
  }

  /** Whatever the flood fill collects from a start and cannot extend is the start's component. */
  lemma FloodIsComponent(cells: set<Cell>, before: set<Cell>, start: Cell, found: set<Cell>)
    requires before !! found && before + found <= cells
    requires start in found && found <= Component(cells, start)
    requires forall a, b :: a in found && (a, b) in Faces(cells) ==> b in before + found
    requires Closed(cells, before)
    ensures found == Component(cells, start)
  {
    forall a, b | a in found && (a, b) in Faces(cells) ensures b in found {
      assert (b, a) in Faces(cells);
    }
    forall d | d in Component(cells, start) ensures d in found {
      ClosedSetsAbsorb(Faces(cells), found, start, d);
    }
  }

  lemma OneMoreComponent(cells: set<Cell>, before: set<Cell>, start: Cell, found: set<Cell>)
    requires before !! found && before + found <= cells && start in found
    requires found == Component(cells, start)
    ensures |Components(cells, before + found)| == |Components(cells, before)| + 1
  {
    forall c | c in found ensures Component(cells, c) == found {
      ComponentOfMember(cells, start, c);
    }
    forall c | c in before ensures Component(cells, c) != found {
      Reflexive(Faces(cells), c);
      assert c in Component(cells, c);
    }
    assert start in before + found;
    assert Components(cells, before + found) == Components(cells, before) + {found};
    assert found !in Components(cells, before);
  }

  /** The sequence lists every member of the set exactly once. */
  ghost predicate Lists(order: seq<Cell>, members: set<Cell>) {
    && (forall c :: c in order <==> c in members)
    && (forall i, j :: 0 <= i < j < |order| ==> order[i] != order[j])
  }

  lemma ListMore(order: seq<Cell>, members: set<Cell>, more: seq<Cell>, extra: set<Cell>)
    requires Lists(order, members) && Lists(more, extra) && members !! extra
    ensures Lists(order + more, members + extra)
  {
    var all := order + more;
    forall i, j | 0 <= i < j < |all| ensures all[i] != all[j] {
      if i < |order| <= j {
        assert all[i] in order && all[j] in more;
      }
    }
  }

  /** The first n of the six shifts the neighbour loops try. */
  ghost function Tried(cell: Cell, n: nat): set<Cell> {
    if n == 0 then {} else Tried(cell, n - 1) + {Shift(cell, (n - 1) / 2, 2 * ((n - 1) % 2) - 1)}
  }

  lemma AllSixTried(cell: Cell, c: Cell)
    ensures c in Tried(cell, 6) <==> Adjacent(cell, c)
  {
    assert Tried(cell, 0) == {};
    assert Tried(cell, 1) == Tried(cell, 0) + {Shift(cell, 0, -1)};
    assert Tried(cell, 2) == Tried(cell, 1) + {Shift(cell, 0, 1)};
    assert Tried(cell, 3) == Tried(cell, 2) + {Shift(cell, 1, -1)};
    assert Tried(cell, 4) == Tried(cell, 3) + {Shift(cell, 1, 1)};
    assert Tried(cell, 5) == Tried(cell, 4) + {Shift(cell, 2, -1)};
    assert Tried(cell, 6) == Tried(cell, 5) + {Shift(cell, 2, 1)};
    ShiftsAreTheNeighbours(cell, c);
  }

  /** The neighbour loops of one popped cell: every pending neighbour leaves the set and is queued once. */
  method TakeNeighbours(cell: Cell, start: set<Cell>) returns (pending: set<Cell>, taken: seq<Cell>)
    ensures pending == set c | c in start && !Adjacent(cell, c)
    ensures Lists(taken, start - pending)
  {
    pending, taken := start, [];
    for axis := 0 to 3
      invariant pending == start - Tried(cell, 2 * axis) && Lists(taken, start - pending)
    {
      for side := 0 to 2
        invariant pending == start - Tried(cell, 2 * axis + side) && Lists(taken, start - pending)
      {
        var other := Shift(cell, axis, 2 * side - 1);
        assert Tried(cell, 2 * axis + side + 1) == Tried(cell, 2 * axis + side) + {other};
        if other in pending {
          ListMore(taken, start - pending, [other], {other});
          assert start - (pending - {other}) == (start - pending) + {other};
          pending := pending - {other};
          taken := taken + [other];
        }
      }
    }
    forall c ensures c in Tried(cell, 6) <==> Adjacent(cell, c) {
      AllSixTried(cell, c);
    }
  }

  /** The flood fill between two pops: what left the pending set belongs to the start's component and is
      listed once, and only queued cells may still have unvisited neighbours. */
  ghost predicate Flooding(cells: set<Cell>, before: set<Cell>, waiting: set<Cell>, start: Cell,
                           pending: set<Cell>, queue: seq<Cell>, left: seq<Cell>) {
    var found := waiting - pending;
    && before !! waiting && cells == before + waiting && pending <= waiting
    && start in found && found <= Component(cells, start) && Lists(left, found)
    && (forall c :: c in queue ==> c in found)
    && (forall a, b :: a in found && a !in queue && (a, b) in Faces(cells) ==> b in before + found)
  }

  lemma FloodStep(cells: set<Cell>, before: set<Cell>, waiting: set<Cell>, start: Cell,
                  pending: set<Cell>, queue: seq<Cell>, left: seq<Cell>, rest: set<Cell>, taken: seq<Cell>)
    requires queue != [] && Flooding(cells, before, waiting, start, pending, queue, left)
    requires rest == (set c | c in pending && !Adjacent(queue[|queue| - 1], c)) && Lists(taken, pending - rest)
    ensures Flooding(cells, before, waiting, start, rest, queue[..|queue| - 1] + taken, left + taken)
    ensures |rest| <= |pending| && (|rest| == |pending| ==> taken == [])
  {
    var cell := queue[|queue| - 1];
    var queue' := queue[..|queue| - 1] + taken;
    forall c | c in taken ensures c in Component(cells, start) {
      assert cell in queue && c in pending && Adjacent(cell, c);
      assert (cell, c) in Faces(cells);
      EdgeConnects(Faces(cells), cell, c);
      Transitive(Faces(cells), start, cell, c);
    }
    forall a | a in queue && a != cell ensures a in queue' {
      var k :| 0 <= k < |queue| && queue[k] == a;
      assert queue'[k] == a;
    }
    forall a, b | a in waiting - rest && a !in queue' && (a, b) in Faces(cells)
      ensures b in before + (waiting - rest)
    {
      assert a !in taken;
      if a == cell && b in pending {
        assert b in taken;
      }
    }
    ListMore(left, waiting - pending, taken, pending - rest);
    assert (waiting - pending) + (pending - rest) == waiting - rest;
    Shrinks(rest, pending, taken);
  }

  /** The inner worklist: from one popped start, moves the start's whole component out of `waiting`. */
  method Flood(ghost cells: set<Cell>, ghost before: set<Cell>, start: Cell, waiting: set<Cell>)
    returns (pending: set<Cell>, ghost left: seq<Cell>)
    requires start in waiting && before !! waiting && cells == before + waiting
    requires Closed(cells, before)
    ensures pending == waiting - Component(cells, start) && Component(cells, start) <= waiting
    ensures Lists(left, Component(cells, start))
  {
    pending := waiting - {start};
    var queue := [start];
    left := [start];
    Reflexive(Faces(cells), start);
    while queue != []
      invariant Flooding(cells, before, waiting, start, pending, queue, left)
      decreases |pending|, |queue|
    {
      ghost var queued, earlier := queue, pending;
      var cell := queue[|queue| - 1];
      queue := queue[..|queue| - 1];
      var taken;
      pending, taken := TakeNeighbours(cell, pending);
      queue := queue + taken;
      FloodStep(cells, before, waiting, start, earlier, queued, left, pending, taken);
      left := left + taken;
    }
    FloodIsComponent(cells, before, start, waiting - pending);
  }

  /** Between two floods: whole components are gone, counted and listed. */
  ghost predicate Counted(cells: set<Cell>, pending: set<Cell>, components: nat, left: seq<Cell>) {
    var before := cells - pending;
    pending <= cells && Closed(cells, before) && components == |Components(cells, before)| && Lists(left, before)
  }

  lemma CountOne(cells: set<Cell>, pending: set<Cell>, components: nat, left: seq<Cell>, start: Cell, gone: seq<Cell>)
    requires Counted(cells, pending, components, left) && start in pending
    requires Component(cells, start) <= pending && Lists(gone, Component(cells, start))
    ensures Counted(cells, pending - Component(cells, start), components + 1, left + gone)
    ensures |pending - Component(cells, start)| < |pending|
  {
    var before, found := cells - pending, Component(cells, start);
    Reflexive(Faces(cells), start);
    assert start in found;
    assert cells - (pending - found) == before + found;
    OneMoreComponent(cells, before, start, found);
    forall a, b | a in found && (a, b) in Faces(cells) ensures b in found {
      EdgeConnects(Faces(cells), a, b);
      Transitive(Faces(cells), start, a, b);
    }
    ListMore(left, before, gone, found);
    assert pending - (pending - found) == found;
    Shrinks(pending - found, pending, gone);
    assert start in gone;
  }

  function CellSet(input: seq<Cell>): set<Cell> { set c | c in input }

  /** Counts the components and empties the pending set; `left` records the order in which cells left it. */
  method ComponentCount(input: seq<Cell>) returns (components: nat, ghost left: seq<Cell>)
    ensures components == |Components(CellSet(input), CellSet(input))|
    ensures Lists(left, CellSet(input))
  {
    var cells := CellSet(input);
    var pending := cells;
    components := 0;
    left := [];
    while pending != {}
      invariant Counted(cells, pending, components, left)
      decreases |pending|
    {
      components := components + 1;
      var start :| start in pending;
      ghost var earlier, gone := pending, [];
      pending, gone := Flood(cells, cells - pending, start, pending);
      CountOne(cells, earlier, components - 1, left, start, gone);
      left := left + gone;
    }
    assert cells - pending == cells;
  }

  /** The worklist measure: a visit either shrinks the pending set or queues nothing. */
  lemma Shrinks(small: set<Cell>, large: set<Cell>, taken: seq<Cell>)
    requires small <= large && Lists(taken, large - small)
    ensures |small| <= |large| && (|small| == |large| ==> taken == [])
  {
    assert large == small + (large - small);
    if taken != [] {
      assert taken[0] in large - small;
    }
  }
}
