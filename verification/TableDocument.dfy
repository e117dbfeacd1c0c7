/** The table document and what loading one demands (workbench/research/support/hugmap.py). */
module TableDocument {
  import opened Options
  import opened Grid
  import opened Roots
  import opened Table
  import opened TableLedger

  /** The solver's fixed surroundings that a table records; compared whole when resuming. */
  datatype Constraints = Constraints(leftForward: bool, limits: string)

  datatype Profile = Profile(geometry: string, constraints: Constraints, coordinates: string, symmetry: string)

  datatype Meta = Meta(schema: string, version: nat, shape: string, revision: string, profile: Profile, config: Config,
                       diameters: seq<real>, workers: nat)

  datatype MapDoc = MapDoc(diameter: real, status: Status, results: seq<Row>, visited: nat, total: nat, counts: Tally)

  datatype Summary = Summary(status: Status, visited: nat, total: nat, counts: Tally, completedMaps: nat,
                             totalMaps: nat,
                             resumedVisited: nat, computedThisRun: nat, workers: nat, error: string)

  datatype Doc = Doc(meta: Meta, maps: seq<MapDoc>, summary: Summary)

  const SCHEMA := "hugmap-table"
  const REVISION := "batch-gn-v1"

  // ----- diameters

  ghost predicate Increasing(s: seq<real>) { forall i, j :: 0 <= i < j < |s| ==> s[i] < s[j] }

  /** diameter_values: an error unless the bounds are positive, ordered and a whole number of steps apart. */
  method DiameterValues(minimum: real, maximum: real, step: real) returns (r: Option<seq<real>>)
    ensures r.Some? <==> minimum > 0.0 && step > 0.0 && minimum <= maximum &&
                         exists n: nat :: n <= 10000 && minimum + Mark(n, step) == maximum
    ensures r.Some? ==> r.value != [] && Increasing(r.value)
    ensures r.Some? ==> r.value[0] == minimum && r.value[|r.value| - 1] == maximum
    ensures r.Some? ==> forall i :: 0 <= i < |r.value| ==> r.value[i] == minimum + Mark(i, step) && r.value[i] > 0.0
  {
    if minimum <= 0.0 || maximum <= 0.0 || step <= 0.0 || maximum < minimum {
      return None;
    }
    var intervals := (maximum - minimum) / step;
    IndexOnAxis(maximum - minimum, step);
    FloorQuotient(maximum - minimum, step);
    if Mark(intervals.Floor, step) != maximum - minimum {
      return None;
    }
    forall n: nat | minimum + Mark(n, step) == maximum ensures n == intervals.Floor {
      Stretch(n, intervals.Floor, step);
    }
    if intervals.Floor > 10000 {
      return None;
    }
    var values: seq<real> := [];
    for i := 0 to intervals.Floor + 1
      invariant |values| == i && forall k :: 0 <= k < i ==> values[k] == minimum + Mark(k, step) && values[k] > 0.0
    {
      Stretch(-1, i, step);
      Stretch(0, i, step);
      assert Mark(0, step) == 0.0;
      values := values + [minimum + Mark(i, step)];
    }
    forall i, j | 0 <= i < j < |values| ensures values[i] < values[j] { Stretch(i, j, step); }
    assert Mark(0, step) == 0.0;
    r := Some(values);
  }

  ghost predicate OnAxis(v: real, step: real) { exists i: int :: v == Mark(i, step) }

  lemma IndexOnAxis(v: real, step: real)
    requires step > 0.0
    ensures OnAxis(v, step) <==> Mark((v / step).Floor, step) == v
  {
    if OnAxis(v, step) {
      var i: int :| v == Mark(i, step);
      Quotient(i as real, step);
      assert v / step == i as real;
      assert (i as real).Floor == i;
    }
  }

  lemma Quotient(a: real, step: real)
    requires step > 0.0
    ensures (a * step) / step == a
  {
    var q := (a * step) / step;
    assert q * step == a * step;
    Scaled(q, a, step);
    Scaled(a, q, step);
  }

  // ----- what loading accepts

  ghost predicate RowFits(meta: Meta, r: Row) {
    && OnAxis(r.at.x, meta.config.dx) && OnAxis(r.at.y, meta.config.dy)
    && (r.outcome.Found? ==> r.outcome.best.mu >= 0.0)
    && r.at.theta == 0.0 && r.at.y >= 0.0 && (meta.profile.constraints.leftForward ==> r.at.x <= 0.0)
    && Inside(r.at.x, r.at.y)
  }

  ghost predicate NoPoseTwice(rows: seq<Row>) { forall j, k :: 0 <= j < k < |rows| ==> rows[j].at != rows[k].at }

  ghost predicate MapFits(meta: Meta, forResume: bool, m: MapDoc)
    requires Checked(meta.config)
  {
    && (forall k :: 0 <= k < |m.results| ==> RowFits(meta, m.results[k])) && NoPoseTwice(m.results)
    && (forResume && m.status == Complete ==> |m.results| == |PointsOf(meta.config, ThetaValues(meta.config, Circle))|)
  }

  ghost predicate PlanFits(meta: Meta, maps: seq<MapDoc>) {
    && meta.diameters != [] && |meta.diameters| == |maps| && Increasing(meta.diameters)
    && (forall i :: 0 <= i < |maps| ==> meta.diameters[i] > 0.0 && maps[i].diameter == meta.diameters[i])
  }

  ghost predicate MetaFits(meta: Meta, forResume: bool, expected: Profile) {
    && meta.schema == SCHEMA && meta.version == 2 && meta.shape == "circle" && Checked(meta.config)
    && (forResume ==> meta.profile == expected && meta.revision == REVISION)
  }

  ghost predicate Accepts(doc: Doc, forResume: bool, expected: Profile) {
    && MetaFits(doc.meta, forResume, expected) && PlanFits(doc.meta, doc.maps)
    && (forall i :: 0 <= i < |doc.maps| ==> MapFits(doc.meta, forResume, doc.maps[i]))
  }

  /** A row on the grid, unturned, above the centre, left of it if the robot is held so, within 500 mm of it, with a
      threshold that is not negative. */
  ghost predicate IsGoodRow(c: Config, leftForward: bool, r: Row) {
    && (exists i: int :: IsMultiple(r.at.x, i, c.dx)) && (exists i: int :: IsMultiple(r.at.y, i, c.dy))
    && r.at.theta == 0.0 && r.at.y >= 0.0 && (leftForward ==> r.at.x <= 0.0)
    && r.at.x * r.at.x + r.at.y * r.at.y <= 250000.0
    && match r.outcome case Found(best, _) => best.mu >= 0.0 case NotFound(_) => true case Excluded(_) => true
  }

  lemma RowFitsIff(meta: Meta, r: Row)
    ensures RowFits(meta, r) <==> IsGoodRow(meta.config, meta.profile.constraints.leftForward, r)
  {
    MultipleIff(r.at.x, meta.config.dx);
    MultipleIff(r.at.y, meta.config.dy);
  }

  lemma MultipleIff(v: real, step: real)
    ensures OnAxis(v, step) <==> exists i: int :: IsMultiple(v, i, step)
  {
    if OnAxis(v, step) {
      var i: int :| v == Mark(i, step);
      assert IsMultiple(v, i, step);
    }
    if i: int :| IsMultiple(v, i, step) {
      assert v == Mark(i, step);
    }
  }

  /** A map whose rows are good and at different points, complete only with all of them when it is to be resumed. */
  ghost predicate IsGoodMap(meta: Meta, forResume: bool, m: MapDoc)
    requires Checked(meta.config)
  {
    && (forall k :: 0 <= k < |m.results| ==> IsGoodRow(meta.config, meta.profile.constraints.leftForward, m.results[k]))
    && (forall j, k :: 0 <= j < k < |m.results| ==> m.results[j].at != m.results[k].at)
    && (forResume && m.status == Complete ==> |m.results| == |PointsOf(meta.config, [0.0])|)
  }

  lemma MapFitsIff(meta: Meta, forResume: bool, m: MapDoc)
    requires Checked(meta.config)
    ensures MapFits(meta, forResume, m) <==> IsGoodMap(meta, forResume, m)
  {
    forall k | 0 <= k < |m.results|
      ensures RowFits(meta, m.results[k]) <==>
              IsGoodRow(meta.config, meta.profile.constraints.leftForward, m.results[k])
    {
      RowFitsIff(meta, m.results[k]);
    }
  }

  /** What is accepted, written out: the table's own format, a usable configuration, when resuming the same surroundings
      and solver, the plan of its maps, and good maps. */
  lemma AcceptsIff(doc: Doc, forResume: bool, expected: Profile)
    ensures Accepts(doc, forResume, expected) <==>
      var meta, c, plan := doc.meta, doc.meta.config, doc.meta.diameters;
      && meta.schema == "hugmap-table" && meta.version == 2 && meta.shape == "circle"
      && c.dx >= 0.01 && c.dy >= 0.01 && 0.0 < c.dtheta <= 360.0 && c.muAllow > 0.0
      && (forResume ==> meta.profile == expected && meta.revision == "batch-gn-v1")
      && plan != [] && |plan| == |doc.maps| && (forall i, j :: 0 <= i < j < |plan| ==> plan[i] < plan[j])
      && (forall i :: 0 <= i < |plan| ==> plan[i] > 0.0 && doc.maps[i].diameter == plan[i])
      && (forall i :: 0 <= i < |doc.maps| ==> Checked(c) && IsGoodMap(meta, forResume, doc.maps[i]))
  {
    if Checked(doc.meta.config) {
      forall i | 0 <= i < |doc.maps|
        ensures MapFits(doc.meta, forResume, doc.maps[i]) <==> IsGoodMap(doc.meta, forResume, doc.maps[i])
      {
        MapFitsIff(doc.meta, forResume, doc.maps[i]);
      }
    }
  }

  /** The diameter plan must be its own sorted set of positive numbers and name the maps. */
  method CheckPlan(meta: Meta, maps: seq<MapDoc>) returns (ok: bool)
    ensures ok <==> PlanFits(meta, maps)
  {
    var plan := meta.diameters;
    if plan == [] || |plan| != |maps| {
      return false;
    }
    for i := 0 to |plan|
      invariant forall k :: 0 <= k < i ==> plan[k] > 0.0 && maps[k].diameter == plan[k]
      invariant Increasing(plan[..i])
    {
      if plan[i] <= 0.0 || maps[i].diameter != plan[i] {
        return false;
      }
      if i > 0 && plan[i - 1] >= plan[i] {
        return false;
      }
      assert plan[..i + 1] == plan[..i] + [plan[i]];
    }
    assert plan[..|plan|] == plan;
    return true;
  }

  /** SavedMapData and the circle checks of one map: every row on the grid, no pose twice. */
  method CheckRows(meta: Meta, rows: seq<Row>) returns (ok: bool)
    requires Checked(meta.config)
    ensures ok <==> (forall k :: 0 <= k < |rows| ==> RowFits(meta, rows[k])) && NoPoseTwice(rows)
  {
    var dx, dy := meta.config.dx, meta.config.dy;
    var layer: set<(real, int, int)> := {};
    for i := 0 to |rows|
      invariant forall k :: 0 <= k < i ==> RowFits(meta, rows[k])
      invariant NoPoseTwice(rows[..i])
      invariant layer == set k | 0 <= k < i :: Cell(meta, rows[k].at)
    {
      var p := rows[i].at;
      var cell := Cell(meta, p);
      IndexOnAxis(p.x, dx);
      IndexOnAxis(p.y, dy);
      if Mark(cell.1, dx) != p.x || Mark(cell.2, dy) != p.y {
        return false;
      }
      if cell in layer {
        ghost var k :| 0 <= k < i && Cell(meta, rows[k].at) == cell;
        IndexOnAxis(rows[k].at.x, dx);
        IndexOnAxis(rows[k].at.y, dy);
        SamePoint(rows, k, i);
        return false;
      }
      if rows[i].outcome.Found? && rows[i].outcome.best.mu < 0.0 {
        return false;
      }
      if p.theta != 0.0 || p.y < 0.0 || (meta.profile.constraints.leftForward && p.x > 0.0) || !Inside(p.x, p.y) {
        return false;
      }
      layer := layer + {cell};
    }
    assert rows[..|rows|] == rows;
    return true;
  }

  /** The slot a row takes in its layer. */
  function Cell(meta: Meta, p: Point): (real, int, int)
    requires Checked(meta.config)
  {
    (p.theta, (p.x / meta.config.dx).Floor, (p.y / meta.config.dy).Floor)
  }

  lemma SamePoint(rows: seq<Row>, k: nat, i: nat)
    requires k < i < |rows| && rows[k].at == rows[i].at
    ensures !NoPoseTwice(rows)
  {
  }

  /** validate_table: exactly the documents it accepts, and their configuration. */
  method ValidateTable(doc: Doc, forResume: bool, expected: Profile, root: real -> real) returns (r: Option<Config>)
    requires IsRoot(root)
    ensures r.Some? <==> Accepts(doc, forResume, expected)
    ensures r.Some? ==> r.value == doc.meta.config
  {
    var meta := doc.meta;
    if meta.schema != SCHEMA || meta.version != 2 || meta.shape != "circle" || !Checked(meta.config) {
      return None;
    }
    var plan := CheckPlan(meta, doc.maps);
    if !plan {
      return None;
    }
    if forResume && (meta.profile != expected || meta.revision != REVISION) {
      return None;
    }
    var size := GridSize(meta.config, root, Circle);
    for i := 0 to |doc.maps|
      invariant forall k :: 0 <= k < i ==> MapFits(meta, forResume, doc.maps[k])
    {
      var entry := doc.maps[i];
      var rows := CheckRows(meta, entry.results);
      if !rows || (forResume && entry.status == Complete && |entry.results| != size) {
        assert !MapFits(meta, forResume, doc.maps[i]);
        return None;
      }
    }
    r := Some(meta.config);
  }
}
