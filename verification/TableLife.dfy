/** run_table over the whole life of a table: fresh and resumed sessions, crashes between saves, any number of workers
    (workbench/research/support/hugmap.py). */
module TableLife {
  import opened Options
  import opened Grid
  import opened Roots
  import opened Table
  import opened TableLedger
  import opened TableDocument
  import opened TableRun

  /** A table computes from its metadata: the solver of its configuration on the grid of its configuration. */
  function PlanOf(solver: Config -> World, meta: Meta): Plan
    requires Checked(meta.config)
  {
    Plan(solver(meta.config), meta.diameters, PointsOf(meta.config, ThetaValues(meta.config, Circle)))
  }

  /** Friction thresholds are never negative. */
  ghost predicate Sensible(solver: Config -> World) {
    forall c, d, p, warm :: solver(c).solve(d, p, warm).best.Some? ==> solver(c).solve(d, p, warm).best.value.mu >= 0.0
  }

  ghost predicate MetaOk(meta: Meta, expected: Profile) {
    && MetaFits(meta, true, expected) && meta.diameters != [] && Increasing(meta.diameters)
    && forall i :: 0 <= i < |meta.diameters| ==> meta.diameters[i] > 0.0
  }

  /** Every document of a table's life: part of the sequential table, told truly. */
  ghost predicate GoodDoc(solver: Config -> World, expected: Profile, doc: Doc) {
    MetaOk(doc.meta, expected) && DocOk(PlanOf(solver, doc.meta), doc)
  }

  // ----- accepted again

  lemma GridRowFits(meta: Meta, p: Point)
    requires Checked(meta.config) && p in PointsOf(meta.config, ThetaValues(meta.config, Circle))
    ensures OnAxis(p.x, meta.config.dx) && OnAxis(p.y, meta.config.dy)
    ensures p.theta == 0.0 && p.y >= 0.0 && p.x <= 0.0 && Inside(p.x, p.y)
  {
    var c := meta.config;
    GridIsLattice(c, ThetaValues(c, Circle), p);
    var ix: int, iy: int :| ix <= 0 <= iy && p.x == Mark(ix, c.dx) && p.y == Mark(iy, c.dy);
    Stretch(0, iy, c.dy);
    Stretch(0, ix, c.dx);
    assert Mark(0, c.dx) == 0.0 && Mark(0, c.dy) == 0.0;
  }

  lemma MapAccepted(solver: Config -> World, meta: Meta, m: nat, d: MapDoc)
    requires Sensible(solver) && Checked(meta.config) && m < |meta.diameters| && MapDocOk(PlanOf(solver, meta).Of(m), d)
    ensures MapFits(meta, true, d)
  {
    var l := PlanOf(solver, meta).Of(m);
    forall k | 0 <= k < |d.results| ensures RowFits(meta, d.results[k]) {
      assert IsRowOf(l, d.results[k]);
      var i :| 0 <= i < |l.grid| && d.results[k] == RowAt(l, i);
      assert l.grid[i] in l.grid;
      GridRowFits(meta, l.grid[i]);
    }
  }

  /** Every document ever saved is accepted by validate_table(for_resume=True). */
  lemma GoodIsAccepted(solver: Config -> World, expected: Profile, doc: Doc)
    requires Sensible(solver) && GoodDoc(solver, expected, doc)
    ensures Accepts(doc, true, expected)
  {
    var s := PlanOf(solver, doc.meta);
    forall m | 0 <= m < |doc.maps|
      ensures MapFits(doc.meta, true, doc.maps[m]) && doc.maps[m].diameter == doc.meta.diameters[m]
    {
      assert MapDocOk(s.Of(m), doc.maps[m]);
      MapAccepted(solver, doc.meta, m, doc.maps[m]);
    }
  }

  // ----- what completeness means

  /** A saved entry is complete exactly when its rows cover the grid. */
  lemma CompleteIsCovering(s: Plan, doc: Doc, m: nat)
    requires DocOk(s, doc) && NoRepeats(s.grid) && m < |doc.maps|
    ensures doc.maps[m].status == Complete <==> forall i :: 0 <= i < |s.grid| ==> s.grid[i] in Ats(doc.maps[m].results)
  {
    assert MapDocOk(s.Of(m), doc.maps[m]);
    CountCovers(s.Of(m), doc.maps[m].results);
  }

  ghost function RowSet(rows: seq<Row>): set<Row> { set r | r in rows }

  ghost function SequentialRows(l: Lane): set<Row> { set i | 0 <= i < |l.grid| :: RowAt(l, i) }

  lemma EntryIsSequential(s: Plan, doc: Doc, m: nat)
    requires DocOk(s, doc) && NoRepeats(s.grid) && m < |doc.maps| && doc.maps[m].status == Complete
    ensures RowSet(doc.maps[m].results) == SequentialRows(s.Of(m)) && NoPoseTwice(doc.maps[m].results)
  {
    var l, rows := s.Of(m), doc.maps[m].results;
    assert MapDocOk(l, doc.maps[m]);
    CoveringIsSequential(l, rows);
    forall r | r in RowSet(rows) ensures r in SequentialRows(l) {
      var k :| 0 <= k < |rows| && rows[k] == r;
      assert IsRowOf(l, rows[k]);
    }
  }

  lemma {:induction false} DocVisitedBound(maps: seq<MapDoc>, total: nat)
    requires forall m :: 0 <= m < |maps| ==> |maps[m].results| <= total
    ensures DocVisited(maps) <= |maps| * total
    ensures DocVisited(maps) == |maps| * total ==> forall m :: 0 <= m < |maps| ==> |maps[m].results| == total
  {
    if maps != [] {
      var n := |maps| - 1;
      DocVisitedBound(maps[..n], total);
      OneMore(n, total);
      assert maps == maps[..n] + [maps[n]];
    }
  }

  /** A table whose summary says complete holds, for every diameter, exactly the rows of one sequential uninterrupted
      run, each once. */
  lemma CompleteIsSequential(s: Plan, doc: Doc)
    requires DocOk(s, doc) && NoRepeats(s.grid) && doc.summary.status == Complete
    ensures forall m :: 0 <= m < |doc.maps| ==>
              RowSet(doc.maps[m].results) == SequentialRows(s.Of(m)) && NoPoseTwice(doc.maps[m].results)
  {
    forall m | 0 <= m < |doc.maps| ensures |doc.maps[m].results| <= |s.grid| {
      assert MapDocOk(s.Of(m), doc.maps[m]);
      CountCovers(s.Of(m), doc.maps[m].results);
    }
    DocVisitedBound(doc.maps, |s.grid|);
    forall m | 0 <= m < |doc.maps|
      ensures RowSet(doc.maps[m].results) == SequentialRows(s.Of(m)) && NoPoseTwice(doc.maps[m].results)
    {
      assert MapDocOk(s.Of(m), doc.maps[m]);
      EntryIsSequential(s, doc, m);
    }
  }

  // ----- sessions

  method FreshMaps(diameters: seq<real>, perMap: nat) returns (maps: seq<MapDoc>)
    ensures |maps| == |diameters|
    ensures forall m :: 0 <= m < |maps| ==> maps[m] == MapDoc(diameters[m], Pending, [], 0, perMap, Tally(0, 0, 0))
  {
    maps := [];
    for m := 0 to |diameters|
      invariant |maps| == m
      invariant forall k :: 0 <= k < m ==> maps[k] == MapDoc(diameters[k], Pending, [], 0, perMap, Tally(0, 0, 0))
    {
      maps := maps + [MapDoc(diameters[m], Pending, [], 0, perMap, Tally(0, 0, 0))];
    }
  }

  lemma GridNotEmpty(c: Config)
    requires Checked(c)
    ensures PointsOf(c, ThetaValues(c, Circle)) != []
  {
    var p := Point(0.0, 0.0, 0.0);
    assert Mark(0, c.dx) == 0.0 && Mark(0, c.dy) == 0.0;
    assert ThetaValues(c, Circle)[0] == 0.0;
    GridIsLattice(c, ThetaValues(c, Circle), p);
  }

  lemma FreshIsOk(s: Plan, maps: seq<MapDoc>)
    requires |maps| == |s.diameters| && s.grid != []
    requires forall m :: 0 <= m < |maps| ==> maps[m] == MapDoc(s.diameters[m], Pending, [], 0, |s.grid|, Tally(0, 0, 0))
    ensures MapDocsOk(s, maps)
  {
  }

  /** What a session starts from. */
  datatype Start = Start(meta: Meta, maps: seq<MapDoc>)

  /** The head of run_table: the file's document when resuming, a new plan otherwise; None is an error. */
  method Open(solver: Config -> World, config: Config, expected: Profile, root: real -> real,
              bounds: (real, real, real), disk: Option<Doc>, workers: nat)
    returns (r: Option<Start>)
    requires IsRoot(root) && Sensible(solver)
    requires disk.Some? ==> GoodDoc(solver, expected, disk.value)
    ensures r.Some? ==> workers >= 1 && MetaOk(r.value.meta, expected)
    ensures r.Some? ==> MapDocsOk(PlanOf(solver, r.value.meta), r.value.maps)
    ensures r.Some? && disk.Some? ==> r.value.meta == disk.value.meta.(workers := workers)
    ensures r.Some? && disk.Some? ==> r.value.maps == disk.value.maps
    ensures r.Some? && disk.None? ==> r.value.meta.config == config && DocVisited(r.value.maps) == 0
    ensures disk.Some? ==> (r.Some? <==> workers >= 1)
  {
    if workers < 1 {
      return None;
    }
    if disk.Some? {
      GoodIsAccepted(solver, expected, disk.value);
      var valid := ValidateTable(disk.value, true, expected, root);
      r := Some(Start(disk.value.meta.(workers := workers), disk.value.maps));
    } else {
      r := OpenFresh(solver, config, expected, root, bounds, workers);
    }
  }

  method OpenFresh(solver: Config -> World, config: Config, expected: Profile, root: real -> real,
                   bounds: (real, real, real), workers: nat)
    returns (r: Option<Start>)
    requires IsRoot(root) && workers >= 1
    ensures r.Some? ==> MetaOk(r.value.meta, expected) && MapDocsOk(PlanOf(solver, r.value.meta), r.value.maps)
    ensures r.Some? ==> r.value.meta.config == config && DocVisited(r.value.maps) == 0
  {
    if !Checked(config) {
      return None;
    }
    var diameters := DiameterValues(bounds.0, bounds.1, bounds.2);
    if diameters.None? {
      return None;
    }
    var meta := Meta(SCHEMA, 2, "circle", REVISION, expected, config, diameters.value, workers);
    var size := GridSize(config, root, Circle);
    var maps := FreshMaps(diameters.value, size);
    GridNotEmpty(config);
    FreshIsOk(PlanOf(solver, meta), maps);
    NoneVisited(maps);
    r := Some(Start(meta, maps));
  }

  lemma {:induction false} NoneVisited(maps: seq<MapDoc>)
    requires forall m :: 0 <= m < |maps| ==> maps[m].results == []
    ensures DocVisited(maps) == 0
  {
    if maps != [] {
      NoneVisited(maps[..|maps| - 1]);
    }
  }

  /** One session from its start: every document it saves is good, and left alone it completes the table. */
  method RunSession(solver: Config -> World, expected: Profile, start: Start, workers: nat, env: Env)
    returns (log: seq<Doc>, killed: bool)
    requires workers >= 1 && MetaOk(start.meta, expected) && MapDocsOk(PlanOf(solver, start.meta), start.maps)
    ensures log != [] && forall k :: 0 <= k < |log| ==> log[k].meta == start.meta && GoodDoc(solver, expected, log[k])
    ensures !killed ==> log[|log| - 1].summary.status != Running
    ensures !killed && Undisturbed(env) ==> log[|log| - 1].summary.status == Complete
    ensures Productive(env) && |env.events| >= Missing(solver, start) ==> !killed
  {
    var grid := GridPoints(start.meta.config, Circle);
    PointsOnce(start.meta.config, Circle);
    var plan := Plan(solver(start.meta.config), start.meta.diameters, grid);
    var maps, counts, visited := LoadMaps(plan, start.maps);
    var run := new TableRun(plan, start.meta, workers, env, maps, counts, visited);
    killed := run.Run();
    log := run.log;
    forall k | 0 <= k < |log| ensures log[k].meta == start.meta && GoodDoc(solver, expected, log[k]) {
      assert DocOk(plan, log[k]);
    }
  }

  /** How many rows a session still has to find. */
  ghost function Missing(solver: Config -> World, start: Start): int
    requires Checked(start.meta.config)
  {
    |start.meta.diameters| * |PlanOf(solver, start.meta).grid| - DocVisited(start.maps)
  }

  /** A session as it happened: fresh or resuming, its workers and surroundings, and how many of its saves reached the
      disk before it ended or the machine crashed. */
  datatype Session = Session(resume: bool, workers: nat, env: Env, saves: nat)

  /** A table's whole life: whatever the sessions, the file holds nothing, or a good document of the same table. */
  method Life(solver: Config -> World, config: Config, expected: Profile, root: real -> real,
              bounds: (real, real, real), sessions: seq<Session>)
    returns (disk: Option<Doc>)
    requires IsRoot(root) && Sensible(solver)
    ensures disk.Some? ==> GoodDoc(solver, expected, disk.value) && disk.value.meta.config == config
    ensures disk.Some? ==> Accepts(disk.value, true, expected)
    ensures disk.Some? && disk.value.summary.status == Complete ==>
              forall m :: 0 <= m < |disk.value.maps| ==>
                RowSet(disk.value.maps[m].results) == SequentialRows(PlanOf(solver, disk.value.meta).Of(m))
  {
    disk := None;
    for k := 0 to |sessions|
      invariant disk.Some? ==> GoodDoc(solver, expected, disk.value) && disk.value.meta.config == config
    {
      var session := sessions[k];
      if session.resume != disk.Some? {
        continue; // an existing table is not overwritten, a missing one not resumed
      }
      var start := Open(solver, config, expected, root, bounds, disk, session.workers);
      if start.Some? {
        var log, killed := RunSession(solver, expected, start.value, session.workers, session.env);
        var reached := if session.saves <= |log| then session.saves else |log|;
        if reached > 0 {
          disk := Some(log[reached - 1]);
        }
      }
    }
    if disk.Some? {
      GoodIsAccepted(solver, expected, disk.value);
      PointsOnce(disk.value.meta.config, Circle);
      if disk.value.summary.status == Complete {
        CompleteIsSequential(PlanOf(solver, disk.value.meta), disk.value);
      }
    }
  }

  /** Two lives of a table with the same configuration and diameters that both end complete hold the same rows. */
  lemma SchedulesAgree(solver: Config -> World, expected: Profile, a: Doc, b: Doc)
    requires GoodDoc(solver, expected, a) && GoodDoc(solver, expected, b)
    requires a.meta.config == b.meta.config && a.meta.diameters == b.meta.diameters
    requires a.summary.status == Complete && b.summary.status == Complete
    ensures |a.maps| == |b.maps|
    ensures forall m :: 0 <= m < |a.maps| ==> RowSet(a.maps[m].results) == RowSet(b.maps[m].results)
  {
    PointsOnce(a.meta.config, Circle);
    CompleteIsSequential(PlanOf(solver, a.meta), a);
    CompleteIsSequential(PlanOf(solver, b.meta), b);
  }
}
