/** What a table run keeps of each diameter's map, and the ledger of points still owed by outstanding batches
    (workbench/research/support/hugmap.py). */
module TableLedger {
  import opened Options
  import opened Grid
  import opened Table

  datatype Status = Pending | Running | Complete | Cancelled | Failed

  /** The status counters of finished rows. */
  datatype Tally = Tally(found: nat, notFound: nat, excluded: nat)

  function Count(t: Tally, o: Outcome): Tally {
    match o
    case Found(_, _) => t.(found := t.found + 1)
    case NotFound(_) => t.(notFound := t.notFound + 1)
    case Excluded(_) => t.(excluded := t.excluded + 1)
  }

  function Plus(a: Tally, b: Tally): Tally {
    Tally(a.found + b.found, a.notFound + b.notFound, a.excluded + b.excluded)
  }

  function TallyOf(rows: seq<Row>): Tally {
    if rows == [] then Tally(0, 0, 0) else Count(TallyOf(rows[..|rows| - 1]), rows[|rows| - 1].outcome)
  }

  ghost function WithStatus(rows: seq<Row>, status: Outcome -> bool): set<int> {
    set k | 0 <= k < |rows| && status(rows[k].outcome)
  }

  lemma OneMoreRow(rows: seq<Row>, row: Row, status: Outcome -> bool)
    ensures |WithStatus(rows + [row], status)| == |WithStatus(rows, status)| + if status(row.outcome) then 1 else 0
  {
    var more := WithStatus(rows, status) + if status(row.outcome) then {|rows|} else {};
    assert WithStatus(rows + [row], status) == more;
  }

  /** Each counter is the number of rows of its status. */
  lemma {:induction false} TallyCounts(rows: seq<Row>)
    ensures TallyOf(rows).found == |WithStatus(rows, (o: Outcome) => o.Found?)|
    ensures TallyOf(rows).notFound == |WithStatus(rows, (o: Outcome) => o.NotFound?)|
    ensures TallyOf(rows).excluded == |WithStatus(rows, (o: Outcome) => o.Excluded?)|
  {
    if rows != [] {
      var n := |rows| - 1;
      TallyCounts(rows[..n]);
      OneMoreRow(rows[..n], rows[n], (o: Outcome) => o.Found?);
      OneMoreRow(rows[..n], rows[n], (o: Outcome) => o.NotFound?);
      OneMoreRow(rows[..n], rows[n], (o: Outcome) => o.Excluded?);
      assert rows[..n] + [rows[n]] == rows;
    }
  }

  /** One diameter: its document entry, the rows by coordinate and their counter. */
  datatype MapState = MapState(diameter: real, status: Status, results: seq<Row>, saved: map<Point, Row>, counts: Tally)

  ghost predicate IsRowOf(l: Lane, r: Row) { exists i :: 0 <= i < |l.grid| && r == RowAt(l, i) }

  /** Rows of the sequential run, no point twice. */
  ghost predicate Holds(l: Lane, rows: seq<Row>) {
    && (forall k :: 0 <= k < |rows| ==> IsRowOf(l, rows[k]))
    && (forall j, k :: 0 <= j < k < |rows| ==> rows[j].at != rows[k].at)
  }

  ghost function Ats(rows: seq<Row>): set<Point> { set k | 0 <= k < |rows| :: rows[k].at }

  ghost predicate Indexes(saved: map<Point, Row>, rows: seq<Row>) {
    saved.Keys == Ats(rows) && forall k :: 0 <= k < |rows| ==> rows[k].at in saved && saved[rows[k].at] == rows[k]
  }

  /** An entry's status when a run starts. */
  function Phase(n: nat, total: nat): Status {
    if n == total then Complete else if n == 0 then Pending else Running
  }

  ghost predicate MapOk(l: Lane, s: MapState) {
    && s.diameter == l.d && Holds(l, s.results) && Indexes(s.saved, s.results) && s.counts == TallyOf(s.results)
    && (s.status == Complete <==> |s.results| == |l.grid|)
  }

  /** Appending one row. */
  function Recorded(s: MapState, row: Row, total: nat): MapState {
    MapState(s.diameter, if |s.results| + 1 == total then Complete else Running, s.results + [row],
             s.saved[row.at := row], Count(s.counts, row.outcome))
  }

  lemma RecordKeepsMap(l: Lane, s: MapState, i: nat)
    requires MapOk(l, s) && i < |l.grid| && l.grid[i] !in s.saved
    ensures MapOk(l, Recorded(s, RowAt(l, i), |l.grid|))
  {
    var row := RowAt(l, i);
    AppendHolds(l, s.results, i, s.saved);
    AppendIndexes(s.saved, s.results, row);
    assert (s.results + [row])[..|s.results|] == s.results;
  }

  lemma AppendHolds(l: Lane, rows: seq<Row>, i: nat, saved: map<Point, Row>)
    requires Holds(l, rows) && Indexes(saved, rows) && i < |l.grid| && l.grid[i] !in saved
    ensures Holds(l, rows + [RowAt(l, i)])
  {
    var more := rows + [RowAt(l, i)];
    assert IsRowOf(l, RowAt(l, i));
    forall k | 0 <= k < |rows| ensures IsRowOf(l, more[k]) && more[k].at != l.grid[i] {
      assert more[k] == rows[k] && rows[k].at in saved;
    }
  }

  lemma AppendIndexes(saved: map<Point, Row>, rows: seq<Row>, row: Row)
    requires Indexes(saved, rows) && row.at !in saved
    ensures Indexes(saved[row.at := row], rows + [row])
  {
    var more := rows + [row];
    AtsAppend(rows, row);
    forall k | 0 <= k < |more|
      ensures more[k].at in saved[row.at := row] && saved[row.at := row][more[k].at] == more[k]
    {
      assert k < |rows| ==> rows[k].at in saved;
    }
  }

  lemma AtsAppend(rows: seq<Row>, row: Row)
    ensures Ats(rows + [row]) == Ats(rows) + {row.at}
  {
    var more := rows + [row];
    assert more[|rows|] == row;
    forall p | p in Ats(rows) ensures p in Ats(more) {
      var k :| 0 <= k < |rows| && rows[k].at == p;
      assert more[k].at == p;
    }
    forall p | p in Ats(more) ensures p in Ats(rows) + {row.at} {
      var k :| 0 <= k < |more| && more[k].at == p;
      assert k < |rows| ==> rows[k].at == p;
    }
  }

  // ----- coverage

  ghost function GridSet(grid: seq<Point>): set<Point> { set k | 0 <= k < |grid| :: grid[k] }

  lemma {:induction false} AtsSize(rows: seq<Row>)
    requires forall j, k :: 0 <= j < k < |rows| ==> rows[j].at != rows[k].at
    ensures |Ats(rows)| == |rows|
  {
    if rows != [] {
      var n := |rows| - 1;
      AtsSize(rows[..n]);
      AtsAppend(rows[..n], rows[n]);
      assert rows[..n] + [rows[n]] == rows;
    }
  }

  lemma {:induction false} GridSetSize(grid: seq<Point>)
    requires NoRepeats(grid)
    ensures |GridSet(grid)| == |grid|
  {
    if grid != [] {
      var n := |grid| - 1;
      GridSetSize(grid[..n]);
      assert GridSet(grid) == GridSet(grid[..n]) + {grid[n]} by {
        forall p | p in GridSet(grid) ensures p in GridSet(grid[..n]) + {grid[n]} {
          var k :| 0 <= k < |grid| && grid[k] == p;
          assert k < n ==> grid[..n][k] == p;
        }
        forall p | p in GridSet(grid[..n]) ensures p in GridSet(grid) {
          var k :| 0 <= k < n && grid[..n][k] == p;
          assert grid[k] == p;
        }
      }
    }
  }

  lemma SubsetSize<T>(a: set<T>, b: set<T>)
    requires a <= b
    ensures |a| <= |b| && (|a| == |b| <==> a == b)
  {
    assert b == a + (b - a);
    assert |b| == |a| + |b - a|;
  }

  /** A map covers the grid exactly when it has as many rows as the grid has points. */
  lemma CountCovers(l: Lane, rows: seq<Row>)
    requires Holds(l, rows) && NoRepeats(l.grid)
    ensures |rows| <= |l.grid|
    ensures |rows| == |l.grid| <==> forall i :: 0 <= i < |l.grid| ==> l.grid[i] in Ats(rows)
  {
    AtsSize(rows);
    GridSetSize(l.grid);
    forall p | p in Ats(rows) ensures p in GridSet(l.grid) {
      var k :| 0 <= k < |rows| && rows[k].at == p;
      var i :| 0 <= i < |l.grid| && rows[k] == RowAt(l, i);
      assert l.grid[i] == p;
    }
    SubsetSize(Ats(rows), GridSet(l.grid));
    if forall i :: 0 <= i < |l.grid| ==> l.grid[i] in Ats(rows) {
      assert GridSet(l.grid) <= Ats(rows);
    }
    forall i | 0 <= i < |l.grid| ensures l.grid[i] in GridSet(l.grid) {}
  }

  /** A covering map holds every row of the sequential run. */
  lemma CoveringIsSequential(l: Lane, rows: seq<Row>)
    requires Holds(l, rows) && NoRepeats(l.grid) && |rows| == |l.grid|
    ensures forall i :: 0 <= i < |l.grid| ==> RowAt(l, i) in rows
  {
    CountCovers(l, rows);
    forall i | 0 <= i < |l.grid| ensures RowAt(l, i) in rows {
      assert l.grid[i] in Ats(rows);
      var k :| 0 <= k < |rows| && rows[k].at == l.grid[i];
      var j :| 0 <= j < |l.grid| && rows[k] == RowAt(l, j);
      SamePlace(l.grid, i, j);
      assert rows[k] in rows;
    }
  }

  lemma SamePlace(grid: seq<Point>, i: nat, j: nat)
    requires NoRepeats(grid) && i < |grid| && j < |grid| && grid[i] == grid[j]
    ensures i == j
  {
  }

  // ----- the table

  /** What a table is computed from. */
  datatype Plan = Plan(w: World, diameters: seq<real>, grid: seq<Point>) {
    function Of(m: nat): Lane
      requires m < |diameters|
    {
      Lane(w, diameters[m], grid)
    }
  }

  ghost predicate MapsOk(s: Plan, maps: seq<MapState>) {
    |maps| == |s.diameters| && forall m {:trigger MapOk(s.Of(m), maps[m])} ::
      0 <= m < |maps| ==> MapOk(s.Of(m), maps[m])
  }

  function Visited(maps: seq<MapState>): nat {
    if maps == [] then 0 else Visited(maps[..|maps| - 1]) + |maps[|maps| - 1].results|
  }

  function Tallies(maps: seq<MapState>): Tally {
    if maps == [] then Tally(0, 0, 0) else Plus(Tallies(maps[..|maps| - 1]), maps[|maps| - 1].counts)
  }

  lemma {:induction false} RecordTotals(maps: seq<MapState>, m: nat, row: Row, total: nat)
    requires m < |maps|
    ensures Visited(maps[m := Recorded(maps[m], row, total)]) == Visited(maps) + 1
    ensures Tallies(maps[m := Recorded(maps[m], row, total)]) == Count(Tallies(maps), row.outcome)
  {
    var n := |maps| - 1;
    var maps' := maps[m := Recorded(maps[m], row, total)];
    if m < n {
      RecordTotals(maps[..n], m, row, total);
      assert maps'[..n] == maps[..n][m := Recorded(maps[m], row, total)];
    } else {
      assert maps'[..n] == maps[..n];
    }
  }

  ghost predicate Fit(maps: seq<MapState>, total: nat) { forall m :: 0 <= m < |maps| ==> |maps[m].results| <= total }

  ghost predicate Full(maps: seq<MapState>, total: nat) { forall m :: 0 <= m < |maps| ==> |maps[m].results| == total }

  lemma {:induction false} VisitedBound(maps: seq<MapState>, total: nat)
    requires Fit(maps, total)
    ensures Visited(maps) <= |maps| * total
    ensures Visited(maps) == |maps| * total <==> Full(maps, total)
  {
    if maps != [] {
      var n := |maps| - 1;
      VisitedBound(maps[..n], total);
      OneMore(n, total);
      assert Full(maps, total) <==> Full(maps[..n], total) && |maps[n].results| == total by {
        assert maps == maps[..n] + [maps[n]];
      }
    }
  }

  lemma OneMore(n: nat, g: nat)
    ensures (n + 1) * g == n * g + g
  {
  }

  /** All rows are in exactly when every map covers the grid. */
  lemma VisitedAll(s: Plan, maps: seq<MapState>)
    requires MapsOk(s, maps) && NoRepeats(s.grid)
    ensures Visited(maps) <= |s.diameters| * |s.grid|
    ensures Visited(maps) == |s.diameters| * |s.grid| <==> Full(maps, |s.grid|)
  {
    forall m | 0 <= m < |maps| ensures |maps[m].results| <= |s.grid| {
      assert MapOk(s.Of(m), maps[m]);
      CountCovers(s.Of(m), maps[m].results);
    }
    VisitedBound(maps, |s.grid|);
  }

  // ----- the ledger

  datatype Key = Key(m: nat, i: nat)

  datatype Job = Job(m: nat, items: seq<Item>)

  /** The unsaved points of a batch. */
  ghost function Keys(job: Job): set<Key> {
    set k | 0 <= k < |job.items| && job.items[k].cached.None? :: Key(job.m, job.items[k].i)
  }

  ghost function Owed(pending: seq<Job>): set<Key> {
    set a: int, key | 0 <= a < |pending| && key in Keys(pending[a]) :: key
  }

  ghost predicate JobOk(s: Plan, job: Job) {
    job.m < |s.diameters| && IsBatch(s.Of(job.m), job.items) && Keys(job) != {}
  }

  ghost predicate JobsOk(s: Plan, pending: seq<Job>) {
    && (forall a :: 0 <= a < |pending| ==> JobOk(s, pending[a]))
    && (forall a, b :: 0 <= a < b < |pending| ==> Keys(pending[a]) !! Keys(pending[b]))
  }

  /** The generator has passed this point. */
  predicate Behind(k: Key, gm: nat, gi: nat) { k.m < gm || (k.m == gm && k.i < gi) }

  ghost predicate Unsaved(s: Plan, maps: seq<MapState>, k: Key) {
    k.m < |maps| && k.i < |s.grid| && s.grid[k.i] !in maps[k.m].saved
  }

  /** Every point the generator has passed is saved or owed. */
  ghost predicate Settled(s: Plan, maps: seq<MapState>, owed: set<Key>, gm: nat, gi: nat) {
    forall k: Key {:trigger Behind(k, gm, gi)} ::
      k.m < |maps| && k.i < |s.grid| && Behind(k, gm, gi) && Unsaved(s, maps, k) ==> k in owed
  }

  /** Owed points are passed and unsaved; until a stop is seen nothing is lost. */
  ghost predicate Ledger(s: Plan, maps: seq<MapState>, owed: set<Key>, gm: nat, gi: nat, seen: bool) {
    && (forall k :: k in owed ==> Behind(k, gm, gi) && Unsaved(s, maps, k))
    && (!seen ==> Settled(s, maps, owed, gm, gi))
  }

  lemma PassSaved(s: Plan, maps: seq<MapState>, owed: set<Key>, gm: nat, gi: nat, seen: bool)
    requires Ledger(s, maps, owed, gm, gi, seen) && !Unsaved(s, maps, Key(gm, gi))
    ensures Ledger(s, maps, owed, gm, gi + 1, seen)
  {
    forall k: Key | k.m < |maps| && k.i < |s.grid| && Behind(k, gm, gi + 1) && Unsaved(s, maps, k)
      ensures Behind(k, gm, gi)
    {
      assert k != Key(gm, gi);
    }
  }

  lemma PassOwed(s: Plan, maps: seq<MapState>, owed: set<Key>, gm: nat, gi: nat, seen: bool)
    requires Ledger(s, maps, owed, gm, gi, seen) && Unsaved(s, maps, Key(gm, gi))
    ensures Ledger(s, maps, owed + {Key(gm, gi)}, gm, gi + 1, seen) && Key(gm, gi) !in owed
  {
    assert Key(gm, gi) in owed ==> Behind(Key(gm, gi), gm, gi);
    forall k: Key | k.m < |maps| && k.i < |s.grid| && Behind(k, gm, gi + 1) && Unsaved(s, maps, k)
      ensures Behind(k, gm, gi) || k == Key(gm, gi)
    {
    }
  }

  lemma RecordUnsaved(s: Plan, maps: seq<MapState>, key: Key, row: Row, k: Key)
    requires Unsaved(s, maps, key) && NoRepeats(s.grid) && row.at == s.grid[key.i]
    ensures Unsaved(s, maps[key.m := Recorded(maps[key.m], row, |s.grid|)], k) <==> Unsaved(s, maps, k) && k != key
  {
  }

  lemma RecordSettles(s: Plan, maps: seq<MapState>, owed: set<Key>, gm: nat, gi: nat, seen: bool, key: Key, row: Row)
    requires Ledger(s, maps, owed, gm, gi, seen) && Unsaved(s, maps, key) && NoRepeats(s.grid)
    requires row.at == s.grid[key.i]
    ensures Ledger(s, maps[key.m := Recorded(maps[key.m], row, |s.grid|)], owed - {key}, gm, gi, seen)
  {
    var maps' := maps[key.m := Recorded(maps[key.m], row, |s.grid|)];
    forall k ensures Unsaved(s, maps', k) <==> Unsaved(s, maps, k) && k != key {
      RecordUnsaved(s, maps, key, row, k);
    }
  }

  lemma EndOfMap(s: Plan, maps: seq<MapState>, owed: set<Key>, gm: nat, seen: bool)
    requires Ledger(s, maps, owed, gm, |s.grid|, seen)
    ensures Ledger(s, maps, owed, gm + 1, 0, seen)
  {
    forall k: Key | k.m < |maps| && k.i < |s.grid| && Behind(k, gm + 1, 0) ensures Behind(k, gm, |s.grid|) {}
  }

  lemma SkipFullMap(s: Plan, maps: seq<MapState>, owed: set<Key>, gm: nat, seen: bool)
    requires Ledger(s, maps, owed, gm, 0, seen) && MapsOk(s, maps) && NoRepeats(s.grid)
    requires gm < |maps| && maps[gm].status == Complete
    ensures Ledger(s, maps, owed, gm + 1, 0, seen)
  {
    assert MapOk(s.Of(gm), maps[gm]);
    CountCovers(s.Of(gm), maps[gm].results);
    assert forall i :: 0 <= i < |s.grid| ==> s.grid[i] in maps[gm].saved;
    forall k: Key | k.m < |maps| && k.i < |s.grid| && Behind(k, gm + 1, 0) && !Behind(k, gm, 0)
      ensures !Unsaved(s, maps, k)
    {
      assert s.grid[k.i] in maps[gm].saved;
    }
  }

  /** With everything passed and nothing owed, all maps are full. */
  lemma SettledIsFull(s: Plan, maps: seq<MapState>)
    requires MapsOk(s, maps) && NoRepeats(s.grid) && Ledger(s, maps, {}, |maps|, 0, false)
    ensures Visited(maps) == |s.diameters| * |s.grid|
  {
    forall m | 0 <= m < |maps| ensures |maps[m].results| == |s.grid| {
      assert MapOk(s.Of(m), maps[m]);
      forall i | 0 <= i < |s.grid| ensures s.grid[i] in Ats(maps[m].results) {
        assert Behind(Key(m, i), |maps|, 0);
      }
      CountCovers(s.Of(m), maps[m].results);
    }
    VisitedAll(s, maps);
  }

  /** Something owed means something missing. */
  lemma OwedIsMissing(s: Plan, maps: seq<MapState>, key: Key)
    requires MapsOk(s, maps) && NoRepeats(s.grid) && Unsaved(s, maps, key)
    ensures Visited(maps) < |s.diameters| * |s.grid|
  {
    assert MapOk(s.Of(key.m), maps[key.m]);
    CountCovers(s.Of(key.m), maps[key.m].results);
    VisitedAll(s, maps);
  }

  // ----- the outstanding batches

  /** The batches left when one is taken. */
  function Without(pending: seq<Job>, slot: nat): (rest: seq<Job>)
    requires slot < |pending|
    ensures |rest| == |pending| - 1
    ensures forall a :: 0 <= a < |rest| ==> rest[a] == pending[if a < slot then a else a + 1]
  {
    pending[..slot] + pending[slot + 1..]
  }

  lemma Disjoint(s: Plan, pending: seq<Job>, a: nat, b: nat)
    requires JobsOk(s, pending) && a < |pending| && b < |pending| && a != b
    ensures Keys(pending[a]) !! Keys(pending[b])
  {
    if b < a {
      assert Keys(pending[b]) !! Keys(pending[a]);
    }
  }

  lemma PopJobs(s: Plan, pending: seq<Job>, slot: nat)
    requires JobsOk(s, pending) && slot < |pending|
    ensures JobsOk(s, Without(pending, slot))
  {
    var rest := Without(pending, slot);
    forall a, b | 0 <= a < b < |rest| ensures Keys(rest[a]) !! Keys(rest[b]) {
      Disjoint(s, pending, if a < slot then a else a + 1, if b < slot then b else b + 1);
    }
  }

  lemma OwedHas(pending: seq<Job>, a: nat, key: Key)
    requires a < |pending| && key in Keys(pending[a])
    ensures key in Owed(pending)
  {
  }

  lemma OwedFrom(pending: seq<Job>, key: Key) returns (a: nat)
    requires key in Owed(pending)
    ensures a < |pending| && key in Keys(pending[a])
  {
    var b :| 0 <= b < |pending| && key in Keys(pending[b]);
    a := b;
  }

  lemma OwedPush(pending: seq<Job>, job: Job)
    ensures Owed(pending + [job]) == Owed(pending) + Keys(job)
  {
    var more := pending + [job];
    forall key | key in Owed(more) ensures key in Owed(pending) + Keys(job) {
      var a := OwedFrom(more, key);
      if a < |pending| { OwedHas(pending, a, key); }
    }
    forall key | key in Owed(pending) ensures key in Owed(more) {
      var a := OwedFrom(pending, key);
      OwedHas(more, a, key);
    }
    forall key | key in Keys(job) ensures key in Owed(more) { OwedHas(more, |pending|, key); }
  }

  lemma PopOwed(s: Plan, pending: seq<Job>, slot: nat)
    requires JobsOk(s, pending) && slot < |pending|
    ensures Owed(pending) == Owed(Without(pending, slot)) + Keys(pending[slot])
    ensures Owed(Without(pending, slot)) !! Keys(pending[slot])
  {
    var rest := Without(pending, slot);
    forall key | key in Owed(pending) ensures key in Owed(rest) + Keys(pending[slot]) {
      var a := OwedFrom(pending, key);
      if a < slot { OwedHas(rest, a, key); } else if a > slot { OwedHas(rest, a - 1, key); }
    }
    forall key | key in Owed(rest) ensures key in Owed(pending) && key !in Keys(pending[slot]) {
      var a := OwedFrom(rest, key);
      var a' := if a < slot then a else a + 1;
      OwedHas(pending, a', key);
      Disjoint(s, pending, a', slot);
    }
    forall key | key in Keys(pending[slot]) ensures key in Owed(pending) { OwedHas(pending, slot, key); }
  }

  /** The grid places whose rows a batch cut at `cut` delivers, in order. */
  function Delivered(items: seq<Item>, cut: nat): seq<nat>
    requires cut <= |items|
  {
    if cut == 0 then []
    else if items[cut - 1].cached.Some? then Delivered(items, cut - 1)
    else Delivered(items, cut - 1) + [items[cut - 1].i]
  }

  lemma {:induction false} DeliveredRows(l: Lane, items: seq<Item>, cut: nat)
    requires IsBatch(l, items) && cut <= |items|
    ensures |FreshRows(l, items, cut)| == |Delivered(items, cut)|
    ensures forall r :: 0 <= r < |Delivered(items, cut)| ==>
              Delivered(items, cut)[r] < |l.grid| && FreshRows(l, items, cut)[r] == RowAt(l, Delivered(items, cut)[r])
  {
    if cut > 0 {
      DeliveredRows(l, items, cut - 1);
    }
  }

  /** The delivered places are the batch's unsaved ones, each once. */
  lemma {:induction false} DeliveredKeys(l: Lane, items: seq<Item>, cut: nat)
    requires IsBatch(l, items) && cut <= |items|
    ensures forall i ::
      i in Delivered(items, cut) <==> exists k :: 0 <= k < cut && items[k].cached.None? && items[k].i == i
    ensures forall q, r :: 0 <= q < r < |Delivered(items, cut)| ==> Delivered(items, cut)[q] < Delivered(items, cut)[r]
  {
    if cut > 0 {
      DeliveredKeys(l, items, cut - 1);
      var before := Delivered(items, cut - 1);
      forall i | i in before ensures i < items[cut - 1].i {
        var k :| 0 <= k < cut - 1 && items[k].cached.None? && items[k].i == i;
        assert items[k].i < items[cut - 1].i;
      }
      forall q | 0 <= q < |before| ensures before[q] < items[cut - 1].i { assert before[q] in before; }
    }
  }
}
