/** The resumable parallel table builder run_table (workbench/research/support/hugmap.py): a job generator, at most
    twice as many outstanding batches as workers, results in any order, and a checkpoint log. */
module TableRun {
  import opened Options
  import opened Grid
  import opened Table
  import opened TableLedger
  import opened TableDocument

  /** One finished future: which outstanding batch, where a stopped worker cut it, and whether it raised. */
  datatype Completion = Completion(slot: nat, cut: nat, raises: bool)

  /** What one wait() brings: finished futures in any number and order, or the user's interrupt. */
  datatype Event = Wake(done: seq<Completion>) | Interrupt

  /** The surroundings of a run: the poll of the stop flag that first sees it set, which emits find ten seconds gone
      since the last save, and the waits. When the waits run out the process is killed. */
  datatype Env = Env(stopAt: Option<nat>, due: nat -> bool, events: seq<Event>)

  /** No exception and no interrupt. */
  ghost predicate Calm(env: Env) {
    forall k :: 0 <= k < |env.events| ==> Smooth(env.events[k])
  }

  /** Besides, no stop. */
  ghost predicate Undisturbed(env: Env) { env.stopAt.None? && Calm(env) }

  /** Besides, every wait brings at least one result. */
  ghost predicate Productive(env: Env) {
    Undisturbed(env) && forall k :: 0 <= k < |env.events| ==> env.events[k].Wake? && env.events[k].done != []
  }

  lemma CalmEvent(env: Env, k: nat)
    requires k < |env.events|
    ensures Calm(env) ==> Smooth(env.events[k])
    ensures Productive(env) ==> env.events[k].Wake? && env.events[k].done != [] && env.stopAt.None?
  {
  }

  ghost predicate Smooth(e: Event) { e.Wake? && forall j :: 0 <= j < |e.done| ==> !e.done[j].raises }

  const INCOMPLETE := "Incomplete table after worker completion"
  const WORKER_RAISED := "a worker raised"

  lemma ErrorsDiffer()
    ensures "" != INCOMPLETE && WORKER_RAISED != INCOMPLETE
  {
    assert WORKER_RAISED[0] != INCOMPLETE[0];
  }

  // ----- documents

  function Published(maps: seq<MapState>, total: nat): seq<MapDoc> {
    seq(|maps|, i requires 0 <= i < |maps| =>
      MapDoc(maps[i].diameter, maps[i].status, maps[i].results, |maps[i].results|, total, maps[i].counts))
  }

  function DocVisited(maps: seq<MapDoc>): nat {
    if maps == [] then 0 else DocVisited(maps[..|maps| - 1]) + |maps[|maps| - 1].results|
  }

  function DocTally(maps: seq<MapDoc>): Tally {
    if maps == [] then Tally(0, 0, 0) else Plus(DocTally(maps[..|maps| - 1]), TallyOf(maps[|maps| - 1].results))
  }

  function CompletedMaps(maps: seq<MapDoc>): nat {
    if maps == [] then 0 else CompletedMaps(maps[..|maps| - 1]) + if maps[|maps| - 1].status == Complete then 1 else 0
  }

  /** A saved map: rows of the sequential run, each point once, its summary telling the truth. */
  ghost predicate MapDocOk(l: Lane, d: MapDoc) {
    && d.diameter == l.d && Holds(l, d.results)
    && d.visited == |d.results| && d.total == |l.grid| && d.counts == TallyOf(d.results)
    && (d.status == Complete <==> |d.results| == |l.grid|)
  }

  ghost predicate SummaryOk(s: Plan, doc: Doc) {
    var sum := doc.summary;
    && sum.visited == DocVisited(doc.maps) && sum.counts == DocTally(doc.maps) && sum.total == |s.diameters| * |s.grid|
    && sum.completedMaps == CompletedMaps(doc.maps) && sum.totalMaps == |s.diameters|
    && (sum.status == Complete ==> sum.visited == sum.total)
  }

  ghost predicate MapDocsOk(s: Plan, maps: seq<MapDoc>) {
    |maps| == |s.diameters| && forall m {:trigger MapDocOk(s.Of(m), maps[m])} ::
      0 <= m < |maps| ==> MapDocOk(s.Of(m), maps[m])
  }

  /** What holds of every document a run saves. */
  ghost predicate DocOk(s: Plan, doc: Doc) {
    doc.meta.diameters == s.diameters && MapDocsOk(s, doc.maps) && SummaryOk(s, doc)
  }

  lemma {:induction false} PublishedTotals(s: Plan, maps: seq<MapState>, total: nat)
    requires forall m :: 0 <= m < |maps| ==> maps[m].counts == TallyOf(maps[m].results)
    ensures DocVisited(Published(maps, total)) == Visited(maps)
    ensures DocTally(Published(maps, total)) == Tallies(maps)
  {
    if maps != [] {
      var n := |maps| - 1;
      PublishedTotals(s, maps[..n], total);
      assert Published(maps, total)[..n] == Published(maps[..n], total);
    }
  }

  /** The document with a fresh summary. */
  function DocOf(meta: Meta, maps: seq<MapState>, perMap: nat, status: Status, visited: nat, total: nat, counts: Tally,
                 resumedVisited: nat, computed: nat, workers: nat, error: string): Doc {
    var docs := Published(maps, perMap);
    Doc(meta, docs,
        Summary(status, visited, total, counts, CompletedMaps(docs), |maps|, resumedVisited, computed, workers, error))
  }

  lemma DocOfMaps(s: Plan, meta: Meta, maps: seq<MapState>, status: Status, visited: nat, total: nat, counts: Tally,
                  resumedVisited: nat, computed: nat, workers: nat, error: string, doc: Doc)
    requires MapsOk(s, maps) && meta.diameters == s.diameters
    requires visited == Visited(maps) && total == |s.diameters| * |s.grid| && counts == Tallies(maps)
    requires status == Complete ==> visited == total
    requires doc == DocOf(meta, maps, |s.grid|, status, visited, total, counts, resumedVisited, computed, workers,
                          error)
    ensures DocOk(s, doc) && doc.meta == meta
  {
    var docs := Published(maps, |s.grid|);
    forall m | 0 <= m < |maps| ensures maps[m].counts == TallyOf(maps[m].results) { assert MapOk(s.Of(m), maps[m]); }
    PublishedTotals(s, maps, |s.grid|);
    forall m | 0 <= m < |maps| ensures MapDocOk(s.Of(m), docs[m]) {
      assert MapOk(s.Of(m), maps[m]);
    }
  }

  /** The rows, their totals and everything saved so far are right. */
  ghost predicate TableOk(s: Plan, meta: Meta, maps: seq<MapState>, visited: nat, counts: Tally, log: seq<Doc>) {
    && NoRepeats(s.grid) && meta.diameters == s.diameters
    && MapsOk(s, maps) && visited == Visited(maps) && counts == Tallies(maps)
    && LogOk(s, meta, log)
  }

  /** Every saved document is right and of the same table. */
  ghost predicate LogOk(s: Plan, meta: Meta, log: seq<Doc>) {
    forall k {:trigger DocOk(s, log[k])} :: 0 <= k < |log| ==> DocOk(s, log[k]) && log[k].meta == meta
  }

  lemma SaveKeepsTable(s: Plan, meta: Meta, maps: seq<MapState>, visited: nat, total: nat, counts: Tally, log: seq<Doc>,
                       status: Status, resumedVisited: nat, computed: nat, workers: nat, error: string, doc: Doc)
    requires TableOk(s, meta, maps, visited, counts, log) && total == |s.diameters| * |s.grid|
    requires status == Complete ==> visited == total
    requires doc == DocOf(meta, maps, |s.grid|, status, visited, total, counts, resumedVisited, computed, workers,
                          error)
    ensures DocOk(s, doc) && TableOk(s, meta, maps, visited, counts, log + [doc])
  {
    DocOfMaps(s, meta, maps, status, visited, total, counts, resumedVisited, computed, workers, error, doc);
    LogGrows(s, meta, log, doc);
  }

  lemma LogGrows(s: Plan, meta: Meta, log: seq<Doc>, doc: Doc)
    requires LogOk(s, meta, log) && DocOk(s, doc) && doc.meta == meta
    ensures LogOk(s, meta, log + [doc])
  {
    var more := log + [doc];
    forall k {:trigger DocOk(s, more[k])} | 0 <= k < |more| ensures DocOk(s, more[k]) && more[k].meta == meta {
      if k < |log| {
        assert DocOk(s, log[k]);
        assert more[k] == log[k];
      }
    }
  }

  lemma RecordKeepsTable(s: Plan, meta: Meta, maps: seq<MapState>, visited: nat, counts: Tally, log: seq<Doc>, m: nat,
                         i: nat, row: Row)
    requires TableOk(s, meta, maps, visited, counts, log)
    requires m < |maps| && i < |s.grid| && row == RowAt(s.Of(m), i) && row.at !in maps[m].saved
    ensures TableOk(s, meta, maps[m := Recorded(maps[m], row, |s.grid|)], visited + 1, Count(counts, row.outcome), log)
  {
    RecordTotals(maps, m, row, |s.grid|);
    RecordKeepsMaps(s, maps, m, i, row);
  }

  /** The outstanding batches, the generator's place and the ledger fit together. */
  ghost predicate Going(s: Plan, maps: seq<MapState>, pending: seq<Job>, gm: nat, gi: nat, seen: bool) {
    && JobsOk(s, pending) && |maps| == |s.diameters| && gm <= |maps| && gi <= |s.grid| && (gm == |maps| ==> gi == 0)
    && (gm < |maps| ==> Slots(s.Of(gm), gi) % 4 == 0)
    && Ledger(s, maps, Owed(pending), gm, gi, seen)
  }

  lemma StartGoing(s: Plan, maps: seq<MapState>)
    requires |maps| == |s.diameters|
    ensures Going(s, maps, [], 0, 0, false)
  {
    assert Owed([]) == {};
    forall k: Key ensures !Behind(k, 0, 0) {}
  }

  // ----- reading a document back

  /** The coordinate dictionary and counter of one map's rows. */
  method LoadRows(rows: seq<Row>) returns (saved: map<Point, Row>, tally: Tally)
    requires NoPoseTwice(rows)
    ensures Indexes(saved, rows) && tally == TallyOf(rows)
  {
    saved, tally := map[], Tally(0, 0, 0);
    for i := 0 to |rows|
      invariant Indexes(saved, rows[..i]) && tally == TallyOf(rows[..i])
    {
      assert rows[..i + 1] == rows[..i] + [rows[i]];
      assert rows[..i + 1][..i] == rows[..i];
      assert rows[i].at !in Ats(rows[..i]);
      AppendIndexes(saved, rows[..i], rows[i]);
      saved := saved[rows[i].at := rows[i]];
      tally := Count(tally, rows[i].outcome);
    }
    assert rows[..|rows|] == rows;
  }

  method LoadMap(l: Lane, d: MapDoc) returns (state: MapState)
    requires MapDocOk(l, d)
    ensures MapOk(l, state) && state.results == d.results
  {
    var saved, tally := LoadRows(d.results);
    state := MapState(d.diameter, Phase(|d.results|, |l.grid|), d.results, saved, tally);
  }

  /** The maps of the first diameters. */
  ghost predicate FrontOk(s: Plan, maps: seq<MapState>) {
    |maps| <= |s.diameters| && forall k {:trigger MapOk(s.Of(k), maps[k])} ::
      0 <= k < |maps| ==> MapOk(s.Of(k), maps[k])
  }

  lemma AddMap(s: Plan, maps: seq<MapState>, state: MapState)
    requires |maps| < |s.diameters| && FrontOk(s, maps) && MapOk(s.Of(|maps|), state)
    ensures FrontOk(s, maps + [state])
    ensures Visited(maps + [state]) == Visited(maps) + |state.results|
    ensures Tallies(maps + [state]) == Plus(Tallies(maps), state.counts)
  {
    assert (maps + [state])[..|maps|] == maps;
    forall k | 0 <= k < |maps| ensures MapOk(s.Of(k), (maps + [state])[k]) { assert MapOk(s.Of(k), maps[k]); }
  }

  method LoadMaps(s: Plan, docs: seq<MapDoc>) returns (maps: seq<MapState>, counts: Tally, visited: nat)
    requires MapDocsOk(s, docs)
    ensures MapsOk(s, maps) && counts == Tallies(maps) && visited == Visited(maps)
    ensures visited == DocVisited(docs)
  {
    maps, counts, visited := [], Tally(0, 0, 0), 0;
    for m := 0 to |docs|
      invariant |maps| == m && FrontOk(s, maps)
      invariant counts == Tallies(maps) && visited == Visited(maps) == DocVisited(docs[..m])
    {
      assert MapDocOk(s.Of(m), docs[m]);
      var state := LoadMap(s.Of(m), docs[m]);
      assert docs[..m + 1][..m] == docs[..m];
      AddMap(s, maps, state);
      maps := maps + [state];
      counts := Plus(counts, state.counts);
      visited := visited + |state.results|;
    }
    assert docs[..|docs|] == docs;
  }

  // ----- the generator's steps on the ledger

  lemma KeysPush(m: nat, items: seq<Item>, item: Item)
    ensures Keys(Job(m, items + [item])) == Keys(Job(m, items)) + if item.cached.None? then {Key(m, item.i)} else {}
  {
    var more := items + [item];
    forall k | 0 <= k < |items| ensures more[k] == items[k] {}
    assert more[|items|] == item;
    forall key | key in Keys(Job(m, items)) ensures key in Keys(Job(m, more)) {
      var k :| 0 <= k < |items| && items[k].cached.None? && key == Key(m, items[k].i);
      assert more[k].cached.None?;
    }
  }

  lemma CachedRow(l: Lane, s: MapState, i: nat)
    requires MapOk(l, s) && NoRepeats(l.grid) && i < |l.grid| && l.grid[i] in s.saved
    ensures s.saved[l.grid[i]] == RowAt(l, i)
  {
    assert l.grid[i] in Ats(s.results);
    var k :| 0 <= k < |s.results| && s.results[k].at == l.grid[i];
    var j :| 0 <= j < |l.grid| && s.results[k] == RowAt(l, j);
    SamePlace(l.grid, i, j);
  }

  /** While the generator looks at point gi of map gm with `batch` under construction. */
  ghost predicate Scanning(s: Plan, maps: seq<MapState>, pending: seq<Job>, gm: nat, gi: nat, batch: seq<Item>,
                           seen: bool) {
    && MapsOk(s, maps) && NoRepeats(s.grid)
    && gm < |maps| && gi <= |s.grid| && Cutting(s.Of(gm), batch, gi) && Keys(Job(gm, batch)) !! Owed(pending)
    && Ledger(s, maps, Owed(pending) + Keys(Job(gm, batch)), gm, gi, seen)
  }

  /** A batch ready to be handed over, with the generator at gi of map gm. */
  ghost predicate Handing(s: Plan, maps: seq<MapState>, pending: seq<Job>, gm: nat, gi: nat, job: Job, seen: bool) {
    && job.m < |s.diameters| && IsBatch(s.Of(job.m), job.items)
    && Keys(job) !! Owed(pending) && Ledger(s, maps, Owed(pending) + Keys(job), gm, gi, seen)
  }

  lemma SpliceMap(s: Plan, maps: seq<MapState>, m: nat, state: MapState)
    requires MapsOk(s, maps) && m < |maps| && MapOk(s.Of(m), state)
    ensures MapsOk(s, maps[m := state])
  {
  }

  lemma RecordKeepsMaps(s: Plan, maps: seq<MapState>, m: nat, i: nat, row: Row)
    requires MapsOk(s, maps) && m < |maps| && i < |s.grid| && row == RowAt(s.Of(m), i) && row.at !in maps[m].saved
    ensures MapsOk(s, maps[m := Recorded(maps[m], row, |s.grid|)])
  {
    RecordKeepsMap(s.Of(m), maps[m], i);
    SpliceMap(s, maps, m, Recorded(maps[m], row, |s.grid|));
  }

  lemma ScanOld(s: Plan, maps: seq<MapState>, pending: seq<Job>, gm: nat, gi: nat, batch: seq<Item>, seen: bool)
    requires Scanning(s, maps, pending, gm, gi, batch, seen) && gi < |s.grid| && s.Of(gm).Out(gi)
    requires s.grid[gi] in maps[gm].saved
    ensures Scanning(s, maps, pending, gm, gi + 1, batch, seen)
  {
    SkipExcluded(s.Of(gm), batch, gi);
    PassSaved(s, maps, Owed(pending) + Keys(Job(gm, batch)), gm, gi, seen);
  }

  lemma ScanNew(s: Plan, maps: seq<MapState>, pending: seq<Job>, gm: nat, gi: nat, batch: seq<Item>, seen: bool)
    requires Scanning(s, maps, pending, gm, gi, batch, seen) && gi < |s.grid| && s.Of(gm).Out(gi)
    requires s.grid[gi] !in maps[gm].saved
    ensures Scanning(s, maps[gm := Recorded(maps[gm], RowAt(s.Of(gm), gi), |s.grid|)], pending, gm, gi + 1, batch, seen)
  {
    var owed, key, row := Owed(pending) + Keys(Job(gm, batch)), Key(gm, gi), RowAt(s.Of(gm), gi);
    var maps' := maps[gm := Recorded(maps[gm], row, |s.grid|)];
    RecordKeepsMaps(s, maps, gm, gi, row);
    assert key !in owed by { assert !Behind(key, gm, gi); }
    RecordSettles(s, maps, owed, gm, gi, seen, key, row);
    assert owed - {key} == owed;
    assert !Unsaved(s, maps', key);
    SkipExcluded(s.Of(gm), batch, gi);
    PassSaved(s, maps', owed, gm, gi, seen);
  }

  lemma ScanItem(s: Plan, maps: seq<MapState>, pending: seq<Job>, gm: nat, gi: nat, batch: seq<Item>, seen: bool,
                 cached: Option<Row>)
    requires Scanning(s, maps, pending, gm, gi, batch, seen) && gi < |s.grid| && !s.Of(gm).Out(gi)
    requires cached == if s.grid[gi] in maps[gm].saved then Some(maps[gm].saved[s.grid[gi]]) else None
    ensures Handing(s, maps, pending, gm, gi + 1, Job(gm, batch + [Item(gi, cached)]), seen)
    ensures if |batch| == 3 then Slots(s.Of(gm), gi + 1) % 4 == 0
            else Scanning(s, maps, pending, gm, gi + 1, batch + [Item(gi, cached)], seen)
  {
    var owed := Owed(pending) + Keys(Job(gm, batch));
    KeysPush(gm, batch, Item(gi, cached));
    if cached.Some? {
      CachedRow(s.Of(gm), maps[gm], gi);
      PassSaved(s, maps, owed, gm, gi, seen);
    } else {
      PassOwed(s, maps, owed, gm, gi, seen);
      assert owed + {Key(gm, gi)} == Owed(pending) + Keys(Job(gm, batch + [Item(gi, cached)]));
    }
    AddItem(s.Of(gm), batch, gi, cached);
  }

  lemma StartScan(s: Plan, maps: seq<MapState>, pending: seq<Job>, gm: nat, gi: nat, seen: bool)
    requires Going(s, maps, pending, gm, gi, seen) && MapsOk(s, maps) && NoRepeats(s.grid) && gm < |maps|
    ensures Scanning(s, maps, pending, gm, gi, [], seen)
  {
    AllCached(gm, []);
    StartCutting(s.Of(gm), gi);
    assert Owed(pending) + {} == Owed(pending);
  }

  lemma LedgerOn(s: Plan, maps: seq<MapState>, owed: set<Key>, gm: nat, gi: nat, before: bool, seen: bool)
    requires Ledger(s, maps, owed, gm, gi, before) && (before ==> seen)
    ensures Ledger(s, maps, owed, gm, gi, seen)
  {
  }

  lemma ScanOn(s: Plan, maps: seq<MapState>, pending: seq<Job>, gm: nat, gi: nat, batch: seq<Item>, before: bool,
               seen: bool)
    requires Scanning(s, maps, pending, gm, gi, batch, before) && (before ==> seen)
    ensures Scanning(s, maps, pending, gm, gi, batch, seen)
  {
  }

  lemma NothingOwed(s: Plan, maps: seq<MapState>, pending: seq<Job>, gm: nat, gi: nat, job: Job, seen: bool)
    requires Handing(s, maps, pending, gm, gi, job, seen) && Keys(job) == {} && MapsOk(s, maps) && NoRepeats(s.grid)
    requires gm < |maps| && gi <= |s.grid| && Slots(s.Of(gm), gi) % 4 == 0
    ensures Scanning(s, maps, pending, gm, gi, [], seen)
  {
    AllCached(gm, []);
    StartCutting(s.Of(gm), gi);
    assert Owed(pending) + {} == Owed(pending);
  }

  lemma Abandoned(s: Plan, maps: seq<MapState>, owed: set<Key>, fewer: set<Key>, gm: nat, gi: nat)
    requires Ledger(s, maps, owed, gm, gi, true) && fewer <= owed
    ensures Ledger(s, maps, fewer, gm, gi, true)
  {
  }

  /** A batch with nothing to solve owes nothing. */
  lemma AllCached(m: nat, items: seq<Item>)
    requires forall k :: 0 <= k < |items| ==> items[k].cached.Some?
    ensures Keys(Job(m, items)) == {}
  {
  }

  lemma SomeFresh(m: nat, items: seq<Item>, k: nat)
    requires k < |items| && items[k].cached.None?
    ensures Keys(Job(m, items)) != {}
  {
    assert Key(m, items[k].i) in Keys(Job(m, items));
  }

  /** any(item[2] is None for item in batch). */
  method AnyFresh(m: nat, items: seq<Item>) returns (any: bool)
    ensures any <==> Keys(Job(m, items)) != {}
  {
    for k := 0 to |items|
      invariant forall j :: 0 <= j < k ==> items[j].cached.Some?
    {
      if items[k].cached.None? {
        SomeFresh(m, items, k);
        return true;
      }
    }
    AllCached(m, items);
    return false;
  }

  // ----- delivering a finished batch

  ghost function RestKeys(m: nat, places: seq<nat>, r: nat): set<Key> { set j | r <= j < |places| :: Key(m, places[j]) }

  lemma AllDelivered(l: Lane, job: Job, cut: nat)
    requires IsBatch(l, job.items) && cut <= |job.items|
    ensures RestKeys(job.m, Delivered(job.items, cut), 0) <= Keys(job)
    ensures cut == |job.items| ==> RestKeys(job.m, Delivered(job.items, cut), 0) == Keys(job)
  {
    DeliveredKeys(l, job.items, cut);
    var places := Delivered(job.items, cut);
    forall key | key in RestKeys(job.m, places, 0) ensures key in Keys(job) {
      var j :| 0 <= j < |places| && key == Key(job.m, places[j]);
      assert places[j] in places;
    }
    if cut == |job.items| {
      forall key | key in Keys(job) ensures key in RestKeys(job.m, places, 0) {
        var k :| 0 <= k < |job.items| && job.items[k].cached.None? && key == Key(job.m, job.items[k].i);
        assert job.items[k].i in places;
      }
    }
  }

  lemma NextDelivered(m: nat, places: seq<nat>, r: nat, others: set<Key>)
    requires r < |places| && (forall q :: r < q < |places| ==> places[r] < places[q]) && Key(m, places[r]) !in others
    ensures others + RestKeys(m, places, r) - {Key(m, places[r])} == others + RestKeys(m, places, r + 1)
    ensures Key(m, places[r]) in RestKeys(m, places, r)
  {
  }

  lemma NotOwed(job: Job, places: seq<nat>, r: nat, others: set<Key>)
    requires r < |places| && RestKeys(job.m, places, 0) <= Keys(job) && Keys(job) !! others
    ensures Key(job.m, places[r]) !in others
  {
    assert Key(job.m, places[r]) in RestKeys(job.m, places, 0);
  }

  /** Taking one finished batch out: what it delivers, and no more, is still owed beside the others. */
  lemma PopDelivered(s: Plan, maps: seq<MapState>, pending: seq<Job>, slot: nat, cut: nat, gm: nat, gi: nat, seen: bool)
    requires JobsOk(s, pending) && slot < |pending| && cut <= |pending[slot].items|
    requires (cut == |pending[slot].items| || seen)
    requires Ledger(s, maps, Owed(pending), gm, gi, seen)
    ensures JobOk(s, pending[slot])
    ensures var job, rest := pending[slot], Without(pending, slot);
      Keys(job) !! Owed(rest) && Ledger(s, maps, Owed(rest) + RestKeys(job.m, Delivered(job.items, cut), 0), gm, gi,
                                        seen) &&
      |FreshRows(s.Of(job.m), job.items, cut)| == |Delivered(job.items, cut)| &&
      (cut == |job.items| ==> |Delivered(job.items, cut)| > 0)
  {
    var job, rest := pending[slot], Without(pending, slot);
    assert JobOk(s, pending[slot]);
    PopOwed(s, pending, slot);
    DeliveredRows(s.Of(job.m), job.items, cut);
    AllDelivered(s.Of(job.m), job, cut);
    FewerOwed(s, maps, Owed(pending), Owed(rest) + RestKeys(job.m, Delivered(job.items, cut), 0), gm, gi, seen);
  }

  /** While the rows of a batch come in: what is still owed is outstanding or among the rows from r on. */
  ghost predicate Receiving(s: Plan, maps: seq<MapState>, pending: seq<Job>, gm: nat, gi: nat, seen: bool, m: nat,
                            places: seq<nat>, r: nat) {
    && JobsOk(s, pending) && m < |s.diameters| == |maps| && gm <= |maps| && gi <= |s.grid| && (gm == |maps| ==> gi == 0)
    && (gm < |maps| ==> Slots(s.Of(gm), gi) % 4 == 0)
    && Ledger(s, maps, Owed(pending) + RestKeys(m, places, r), gm, gi, seen)
  }

  /** The row of the place that comes next, which is not outstanding and comes once. */
  ghost predicate IsNext(s: Plan, pending: seq<Job>, m: nat, places: seq<nat>, r: nat, row: Row) {
    && r < |places| && m < |s.diameters| && places[r] < |s.grid| && row == RowAt(s.Of(m), places[r])
    && Key(m, places[r]) in RestKeys(m, places, r)
    && Owed(pending) + RestKeys(m, places, r) - {Key(m, places[r])} == Owed(pending) + RestKeys(m, places, r + 1)
  }

  lemma RowIsNext(s: Plan, pending: seq<Job>, job: Job, cut: nat, places: seq<nat>, r: nat, rows: seq<Row>)
    requires job.m < |s.diameters| && IsBatch(s.Of(job.m), job.items) && cut <= |job.items|
    requires rows == FreshRows(s.Of(job.m), job.items, cut) && places == Delivered(job.items, cut) && r < |rows|
    requires Keys(job) !! Owed(pending)
    ensures IsNext(s, pending, job.m, places, r, rows[r])
  {
    DeliveredRows(s.Of(job.m), job.items, cut);
    DeliveredKeys(s.Of(job.m), job.items, cut);
    AllDelivered(s.Of(job.m), job, cut);
    NotOwed(job, places, r, Owed(pending));
    NextDelivered(job.m, places, r, Owed(pending));
  }

  lemma ReceiveRow(s: Plan, maps: seq<MapState>, pending: seq<Job>, gm: nat, gi: nat, seen: bool, m: nat,
                   places: seq<nat>, r: nat, row: Row)
    requires NoRepeats(s.grid) && Receiving(s, maps, pending, gm, gi, seen, m, places, r)
    requires IsNext(s, pending, m, places, r, row)
    ensures row.at !in maps[m].saved
    ensures Receiving(s, maps[m := Recorded(maps[m], row, |s.grid|)], pending, gm, gi, seen, m, places, r + 1)
  {
    var key, owed := Key(m, places[r]), Owed(pending) + RestKeys(m, places, r);
    assert key in owed;
    RecordSettles(s, maps, owed, gm, gi, seen, key, row);
  }

  lemma AllReceived(s: Plan, maps: seq<MapState>, pending: seq<Job>, gm: nat, gi: nat, seen: bool, m: nat,
                    places: seq<nat>)
    requires Receiving(s, maps, pending, gm, gi, seen, m, places, |places|)
    ensures Going(s, maps, pending, gm, gi, seen)
  {
    assert Owed(pending) + RestKeys(m, places, |places|) == Owed(pending);
  }

  lemma PushJob(s: Plan, maps: seq<MapState>, pending: seq<Job>, job: Job, gm: nat, gi: nat, seen: bool)
    requires JobOk(s, job) && JobsOk(s, pending) && Keys(job) !! Owed(pending)
    requires Ledger(s, maps, Owed(pending) + Keys(job), gm, gi, seen)
    ensures JobsOk(s, pending + [job]) && Ledger(s, maps, Owed(pending + [job]), gm, gi, seen)
  {
    OwedPush(pending, job);
    forall a | 0 <= a < |pending| ensures Keys(pending[a]) !! Keys(job) {
      forall key | key in Keys(pending[a]) ensures key in Owed(pending) {}
    }
  }

  lemma FewerOwed(s: Plan, maps: seq<MapState>, owed: set<Key>, fewer: set<Key>, gm: nat, gi: nat, seen: bool)
    requires Ledger(s, maps, owed, gm, gi, seen) && fewer <= owed && (seen || fewer == owed)
    ensures Ledger(s, maps, fewer, gm, gi, seen)
  {
  }

  /** Once a stop is seen the generator may end anywhere. */
  lemma Abandon(s: Plan, maps: seq<MapState>, owed: set<Key>, fewer: set<Key>, gm: nat, gi: nat)
    requires Ledger(s, maps, owed, gm, gi, true) && fewer <= owed
    ensures Ledger(s, maps, fewer, |maps|, 0, true)
  {
    forall k | k in fewer ensures Behind(k, |maps|, 0) && Unsaved(s, maps, k) { assert k in owed; }
  }

  /** The final status of one entry. */
  lemma CloseKeepsTable(s: Plan, meta: Meta, maps: seq<MapState>, visited: nat, counts: Tally, log: seq<Doc>, m: nat,
                        status: Status)
    requires TableOk(s, meta, maps, visited, counts, log) && m < |maps| && maps[m].status == Running
    requires status != Complete
    ensures TableOk(s, meta, maps[m := maps[m].(status := status)], visited, counts, log)
  {
    assert MapOk(s.Of(m), maps[m]);
    SpliceMap(s, maps, m, maps[m].(status := status));
    SameTotals(maps, m, status);
  }

  lemma {:induction false} SameTotals(maps: seq<MapState>, m: nat, status: Status)
    requires m < |maps|
    ensures Visited(maps[m := maps[m].(status := status)]) == Visited(maps)
    ensures Tallies(maps[m := maps[m].(status := status)]) == Tallies(maps)
  {
    var n := |maps| - 1;
    var maps' := maps[m := maps[m].(status := status)];
    if m < n {
      SameTotals(maps[..n], m, status);
      assert maps'[..n] == maps[..n][m := maps[m].(status := status)];
    } else {
      assert maps'[..n] == maps[..n];
    }
  }

  /** A map at the end of a run: one still running takes the run's status, or fails when the run is complete. */
  function Closed(at: MapState, status: Status): (r: MapState)
    ensures r.results == at.results && r.saved == at.saved && r.counts == at.counts
    ensures status != Running ==> r.status != Running
  {
    if at.status != Running then at else at.(status := if status != Complete then status else Failed)
  }

  /** The saved row of a point, if there is one. */
  function SavedAt(state: MapState, at: Point): Option<Row> {
    if at in state.saved then Some(state.saved[at]) else None
  }

  /** The maps after some rows of one map are recorded in order. */
  function RecordAll(maps: seq<MapState>, m: nat, rows: seq<Row>, total: nat): (r: seq<MapState>)
    requires m < |maps|
    ensures |r| == |maps|
  {
    if rows == [] then maps
    else
      var n := |rows| - 1;
      var before := RecordAll(maps, m, rows[..n], total);
      before[m := Recorded(before[m], rows[n], total)]
  }

  lemma RecordNext(maps: seq<MapState>, m: nat, rows: seq<Row>, r: nat, total: nat)
    requires m < |maps| && r < |rows|
    ensures var sofar := RecordAll(maps, m, rows[..r], total);
      RecordAll(maps, m, rows[..r + 1], total) == sofar[m := Recorded(sofar[m], rows[r], total)]
  {
    assert rows[..r + 1][..r] == rows[..r];
  }

  lemma Whole<T>(s: seq<T>)
    ensures s[..|s|] == s
  {
  }

  /** Exactly the rows are added, in order, to the one map. */
  lemma {:induction false} RecordAllAppends(maps: seq<MapState>, m: nat, rows: seq<Row>, total: nat)
    requires m < |maps|
    ensures RecordAll(maps, m, rows, total)[m].results == maps[m].results + rows
    ensures forall k :: 0 <= k < |maps| && k != m ==> RecordAll(maps, m, rows, total)[k] == maps[k]
  {
    if rows != [] {
      RecordAllAppends(maps, m, rows[..|rows| - 1], total);
      assert rows == rows[..|rows| - 1] + [rows[|rows| - 1]];
    }
  }

  /** How many points of a batch a worker gets to: a stopping one may cut it short. */
  function CutOf(c: Completion, items: nat, stopping: bool): (cut: nat)
    ensures cut <= items && (!stopping ==> cut == items)
  {
    if stopping && c.cut <= items then c.cut else items
  }

  /** A run that ends unstopped with nothing outstanding has every row. */
  lemma NothingLeft(s: Plan, maps: seq<MapState>, gm: nat, gi: nat)
    requires MapsOk(s, maps) && NoRepeats(s.grid) && Going(s, maps, [], gm, gi, false) && gm == |maps|
    ensures Visited(maps) == |s.diameters| * |s.grid|
  {
    assert Owed([]) == {};
    SettledIsFull(s, maps);
  }

  /** While a batch is outstanding a row is missing. */
  lemma SomethingLeft(s: Plan, maps: seq<MapState>, pending: seq<Job>, gm: nat, gi: nat, seen: bool)
    requires MapsOk(s, maps) && NoRepeats(s.grid) && Going(s, maps, pending, gm, gi, seen) && pending != []
    ensures Visited(maps) < |s.diameters| * |s.grid|
  {
    assert JobOk(s, pending[0]);
    var key :| key in Keys(pending[0]);
    assert key in Owed(pending);
    OwedIsMissing(s, maps, key);
  }

  class TableRun {
    const plan: Plan
    const meta: Meta
    const workers: nat
    const env: Env
    const perMap: nat
    const total: nat
    const resumedVisited: nat
    const solvedBefore: nat
    var maps: seq<MapState>
    var counts: Tally
    var visited: nat
    var computed: nat
    var status: Status
    var error: string
    var log: seq<Doc>
    var polls: nat
    var ticks: nat
    var genMap: nat
    var genAt: nat
    var pending: seq<Job>
    var workerStop: bool

    ghost predicate Steady()
      reads this`maps, this`counts, this`visited, this`computed, this`log
    {
      && computed + solvedBefore == counts.found + counts.notFound
      && perMap == |plan.grid| && total == |plan.diameters| * |plan.grid|
      && TableOk(plan, meta, maps, visited, counts, log)
    }

    /** Some poll has seen the stop flag. */
    ghost predicate Seen()
      reads this`polls
    {
      env.stopAt.Some? && polls > env.stopAt.value
    }

    ghost predicate Valid()
      reads this
    {
      Steady() && (workerStop ==> Seen()) && Going(plan, maps, pending, genMap, genAt, Seen())
    }

    constructor (plan: Plan, meta: Meta, workers: nat, env: Env, maps: seq<MapState>, counts: Tally, visited: nat)
      requires NoRepeats(plan.grid) && meta.diameters == plan.diameters
      requires MapsOk(plan, maps) && visited == Visited(maps) && counts == Tallies(maps)
      ensures Valid() && pending == [] && log == [] && status == Running && genMap == 0 && !Seen() && error == ""
      ensures this.plan == plan && this.meta == meta && this.workers == workers && this.env == env
      ensures this.visited == visited
    {
      this.plan, this.meta, this.workers, this.env := plan, meta, workers, env;
      this.perMap, this.total, this.resumedVisited := |plan.grid|, |plan.diameters| * |plan.grid|, visited;
      this.maps, this.counts, this.visited, this.computed := maps, counts, visited, 0;
      this.solvedBefore := counts.found + counts.notFound;
      this.status, this.error, this.log, this.polls, this.ticks := Running, "", [], 0, 0;
      this.genMap, this.genAt, this.pending, this.workerStop := 0, 0, [], false;
      new;
      StartGoing(plan, maps);
    }

    /** stop.is_set(). */
    method Poll() returns (seen: bool)
      modifies `polls
      ensures polls == old(polls) + 1 && seen == Seen() && (old(Seen()) ==> seen)
    {
      seen := env.stopAt.Some? && env.stopAt.value <= polls;
      polls := polls + 1;
    }

    function Snapshot(): Doc
      reads this
    {
      DocOf(meta, maps, perMap, status, visited, total, counts, resumedVisited, computed, workers, error)
    }

    /** checkpoint.save: what reaches the disk, in order. */
    method Save()
      requires Steady() && (status == Complete ==> visited == total)
      modifies `log
      ensures Steady() && log == old(log) + [Snapshot()]
    {
      SaveKeepsTable(plan, meta, maps, visited, total, counts, log, status, resumedVisited, computed, workers, error,
                     Snapshot());
      log := log + [Snapshot()];
    }

    method Record(m: nat, row: Row, ghost i: nat)
      requires Steady() && m < |maps| && i < |plan.grid| && row == RowAt(plan.Of(m), i) && row.at !in maps[m].saved
      modifies `maps, `counts, `visited, `computed
      ensures Steady()
      ensures maps == old(maps)[m := Recorded(old(maps[m]), row, |plan.grid|)] && visited == old(visited) + 1
    {
      RecordKeepsTable(plan, meta, maps, visited, counts, log, m, i, row);
      var state := Recorded(maps[m], row, perMap);
      computed := computed + if row.outcome.Excluded? then 0 else 1;
      maps, counts, visited := maps[m := state], Count(counts, row.outcome), visited + 1;
    }

    /** Checkpoint when ten seconds have gone or a map has just been completed. */
    method SaveWhenDue(m: nat)
      requires Steady() && m < |maps| && status != Complete
      modifies `ticks, `log
      ensures Steady()
      ensures log == if env.due(old(ticks)) || maps[m].status == Complete then old(log) + [Snapshot()] else old(log)
    {
      var due := env.due(ticks);
      ticks := ticks + 1;
      if due || maps[m].status == Complete {
        Save();
      }
    }

    /** emit: record one row of the sequential run unless its point already has one, and checkpoint when due. */
    method Emit(m: nat, row: Row, ghost i: nat) returns (ok: bool)
      requires Steady() && m < |maps| && i < |plan.grid| && row == RowAt(plan.Of(m), i) && status != Complete
      modifies `maps, `counts, `visited, `computed, `ticks, `log
      ensures Steady() && ok == (row.at !in old(maps[m].saved)) && old(log) <= log
      ensures ok ==> maps == old(maps)[m := Recorded(old(maps[m]), row, |plan.grid|)] && visited == old(visited) + 1
      ensures !ok ==> maps == old(maps) && visited == old(visited)
    {
      ok := row.at !in maps[m].saved;
      if ok {
        Record(m, row, i);
        SaveWhenDue(m);
      }
    }

    // ----- the job generator

    /** A job on its way from the generator to the pool. */
    ghost predicate Handed(job: Job)
      reads this
    {
      && JobOk(plan, job) && JobsOk(plan, pending) && Keys(job) !! Owed(pending)
      && |maps| == |plan.diameters| && genMap <= |maps| && genAt <= |plan.grid| && (genMap == |maps| ==> genAt == 0)
      && (genMap < |maps| ==> Slots(plan.Of(genMap), genAt) % 4 == 0)
      && Ledger(plan, maps, Owed(pending) + Keys(job), genMap, genAt, Seen())
    }

    /** The current point's saved row and whether it is excluded. */
    method LookUp() returns (item: Item, reason: Option<string>)
      requires genMap < |maps| == |plan.diameters| && genAt < |plan.grid|
      ensures item == Item(genAt, SavedAt(maps[genMap], plan.grid[genAt]))
      ensures reason == plan.w.excluded(plan.diameters[genMap], plan.grid[genAt])
    {
      var saved, p := maps[genMap].saved, plan.grid[genAt];
      item := Item(genAt, if p in saved then Some(saved[p]) else None);
      reason := plan.w.excluded(plan.diameters[genMap], p);
    }

    /** The end of a map: its last, shorter batch goes out unless the stop flag is seen. */
    method LastBatch(batch: seq<Item>) returns (job: Option<Job>, ended: bool)
      requires Steady() && JobsOk(plan, pending) && genAt == |plan.grid|
      requires Scanning(plan, maps, pending, genMap, genAt, batch, Seen())
      modifies `polls, `genMap, `genAt
      ensures Steady() && !ended && genMap == old(genMap) + 1 && genAt == 0
      ensures old(Seen()) ==> Seen()
      ensures job.Some? ==> Handed(job.value)
      ensures job.None? ==> Going(plan, maps, pending, genMap, genAt, Seen())
    {
      var last := Job(genMap, batch);
      EndOfMap(plan, maps, Owed(pending) + Keys(last), genMap, Seen());
      genMap, genAt, ended := genMap + 1, 0, false;
      var any := AnyFresh(last.m, batch);
      ghost var before := Seen();
      if any {
        var seen := Poll();
        LedgerOn(plan, maps, Owed(pending) + Keys(last), genMap, genAt, before, seen);
        if seen {
          Abandoned(plan, maps, Owed(pending) + Keys(last), Owed(pending), genMap, genAt);
          job := None;
        } else {
          job := Some(last);
        }
      } else {
        NoneOwed(Owed(pending), last);
        job := None;
      }
    }

    lemma NoneOwed(owed: set<Key>, job: Job)
      requires Keys(job) == {}
      ensures owed + Keys(job) == owed
    {
    }

    /** An excluded point: its row is emitted unless it is already there. */
    method PassExcluded(batch: seq<Item>, cached: Option<Row>, reason: string)
      requires Steady() && status != Complete && genAt < |plan.grid|
      requires Scanning(plan, maps, pending, genMap, genAt, batch, Seen())
      requires cached.Some? <==> plan.grid[genAt] in maps[genMap].saved
      requires plan.w.excluded(plan.diameters[genMap], plan.grid[genAt]) == Some(reason)
      modifies `maps, `counts, `visited, `computed, `ticks, `log, `genAt
      ensures Steady() && genAt == old(genAt) + 1 && |maps| == old(|maps|) && old(log) <= log && visited >= old(visited)
      ensures Scanning(plan, maps, pending, genMap, genAt, batch, Seen())
    {
      if cached.None? {
        ScanNew(plan, maps, pending, genMap, genAt, batch, Seen());
        var ok := Emit(genMap, Row(plan.grid[genAt], Excluded(reason)), genAt);
      } else {
        ScanOld(plan, maps, pending, genMap, genAt, batch, Seen());
      }
      genAt := genAt + 1;
    }

    /** A point to solve joins the batch; the fourth hands the batch over if anything in it is unsaved. */
    method TakePoint(batch: seq<Item>, item: Item) returns (more: seq<Item>, job: Option<Job>)
      requires Steady() && JobsOk(plan, pending) && genAt < |plan.grid|
      requires Scanning(plan, maps, pending, genMap, genAt, batch, Seen()) && !plan.Of(genMap).Out(genAt)
      requires item == Item(genAt, SavedAt(maps[genMap], plan.grid[genAt]))
      modifies `genAt
      ensures Steady() && genAt == old(genAt) + 1
      ensures job.None? ==> Scanning(plan, maps, pending, genMap, genAt, more, Seen())
      ensures job.Some? ==> Handed(job.value)
    {
      ScanItem(plan, maps, pending, genMap, genAt, batch, Seen(), item.cached);
      more, job := batch + [item], None;
      genAt := genAt + 1;
      if |more| == 4 {
        var any := AnyFresh(genMap, more);
        if any {
          job := Some(Job(genMap, more));
        } else {
          NothingOwed(plan, maps, pending, genMap, genAt, Job(genMap, more), Seen());
          more := [];
        }
      }
    }

    /** One point of the generator's loop, after the poll. */
    method ScanPoint(batch: seq<Item>) returns (more: seq<Item>, job: Option<Job>)
      requires Steady() && JobsOk(plan, pending) && status != Complete && genAt < |plan.grid|
      requires Scanning(plan, maps, pending, genMap, genAt, batch, Seen())
      modifies `maps, `counts, `visited, `computed, `ticks, `log, `genAt
      ensures Steady() && genAt == old(genAt) + 1 && |maps| == old(|maps|) && old(log) <= log && visited >= old(visited)
      ensures job.None? ==> Scanning(plan, maps, pending, genMap, genAt, more, Seen())
      ensures job.Some? ==> Handed(job.value)
    {
      var item, reason := LookUp();
      if reason.Some? {
        PassExcluded(batch, item.cached, reason.value);
        more, job := batch, None;
      } else {
        more, job := TakePoint(batch, item);
      }
    }

    /** The generator's poll: on a stop it returns for good, dropping the batch under construction. */
    method PollScan(batch: seq<Item>) returns (seen: bool)
      requires Steady() && JobsOk(plan, pending) && Scanning(plan, maps, pending, genMap, genAt, batch, Seen())
      modifies `polls, `genMap, `genAt
      ensures Steady() && seen == Seen() && (old(Seen()) ==> seen)
      ensures !seen ==> genMap == old(genMap) && genAt == old(genAt)
      ensures !seen ==> Scanning(plan, maps, pending, genMap, genAt, batch, seen)
      ensures seen ==> Going(plan, maps, pending, genMap, genAt, seen) && genMap == |maps|
    {
      ghost var before := Seen();
      seen := Poll();
      ScanOn(plan, maps, pending, genMap, genAt, batch, before, seen);
      if seen {
        Abandon(plan, maps, Owed(pending) + Keys(Job(genMap, batch)), Owed(pending), genMap, genAt);
        genMap, genAt := |maps|, 0;
      }
    }

    /** The generator over the rest of map genMap: excluded points are emitted at once, four others make a batch,
        and a batch with nothing unsaved is skipped. */
    method ScanMap() returns (job: Option<Job>, ended: bool)
      requires Valid() && genMap < |maps| && status != Complete
      modifies `maps, `counts, `visited, `computed, `ticks, `log, `polls, `genMap, `genAt
      ensures Steady() && |maps| == old(|maps|) && old(log) <= log && visited >= old(visited)
      ensures old(Seen()) ==> Seen()
      ensures job.Some? ==> Handed(job.value) && !ended
      ensures job.None? ==> Going(plan, maps, pending, genMap, genAt, Seen())
      ensures ended ==> genMap == |maps| && Seen()
      ensures job.None? && !ended ==> genMap == old(genMap) + 1 && genAt == 0
    {
      var batch: seq<Item> := [];
      StartScan(plan, maps, pending, genMap, genAt, Seen());
      while genAt < |plan.grid|
        invariant Steady() && old(genAt) <= genAt <= |plan.grid| && genMap == old(genMap) && |maps| == old(|maps|)
        invariant Scanning(plan, maps, pending, genMap, genAt, batch, Seen())
        invariant old(log) <= log && visited >= old(visited) && (old(Seen()) ==> Seen())
        decreases |plan.grid| - genAt
      {
        var seen := PollScan(batch);
        if seen {
          return None, true;
        }
        batch, job := ScanPoint(batch);
        if job.Some? {
          return job, false;
        }
      }
      job, ended := LastBatch(batch);
    }

    /** next(iterator): None only when the generator is finished. */
    method NextJob() returns (job: Option<Job>)
      requires Valid() && status != Complete
      modifies `maps, `counts, `visited, `computed, `ticks, `log, `polls, `genMap, `genAt
      ensures Steady() && |maps| == old(|maps|) && old(log) <= log && visited >= old(visited)
      ensures old(Seen()) ==> Seen()
      ensures job.Some? ==> Handed(job.value)
      ensures job.None? ==> Going(plan, maps, pending, genMap, genAt, Seen()) && genMap == |maps|
    {
      while genMap < |maps|
        invariant Valid() && |maps| == old(|maps|) && old(log) <= log && visited >= old(visited)
        invariant old(Seen()) ==> Seen()
        decreases |maps| - genMap
      {
        if genAt == 0 && maps[genMap].status == Complete {
          SkipFullMap(plan, maps, Owed(pending), genMap, Seen());
          genMap := genMap + 1;
        } else {
          var ended;
          job, ended := ScanMap();
          if job.Some? || ended {
            return;
          }
        }
      }
      job := None;
    }

    /** Submitting batches until twice as many are outstanding as there are workers. */
    method Fill(exhausted: bool) returns (exhausted': bool)
      requires Valid() && status != Complete && workers >= 1 && |pending| <= 2 * workers
      requires exhausted ==> genMap == |maps| || Seen()
      modifies `maps, `counts, `visited, `computed, `ticks, `log, `polls, `genMap, `genAt, `pending
      ensures Valid() && |maps| == old(|maps|) && old(log) <= log && visited >= old(visited)
      ensures (old(Seen()) ==> Seen()) && |old(pending)| <= |pending| <= 2 * workers
      ensures exhausted' ==> genMap == |maps| || Seen()
      ensures !exhausted' ==> pending != []
    {
      exhausted' := exhausted;
      while !exhausted' && |pending| < 2 * workers
        invariant Valid() && |maps| == old(|maps|) && old(log) <= log && visited >= old(visited)
        invariant (old(Seen()) ==> Seen()) && |old(pending)| <= |pending| <= 2 * workers
        invariant exhausted' ==> genMap == |maps| || Seen()
        decreases if exhausted' then 0 else 1, 2 * workers - |pending|
      {
        var job := NextJob();
        if job.None? {
          exhausted' := true;
        } else {
          PushJob(plan, maps, pending, job.value, genMap, genAt, Seen());
          pending := pending + [job.value];
        }
      }
    }

    // ----- results

    /** While the rows of a batch come in. */
    ghost predicate Delivering(m: nat, places: seq<nat>, r: nat)
      reads this
    {
      && Steady() && status != Complete && (workerStop ==> Seen())
      && Receiving(plan, maps, pending, genMap, genAt, Seen(), m, places, r)
    }

    /** One row of a finished batch. */
    method DeliverRow(m: nat, ghost places: seq<nat>, ghost r: nat, row: Row)
      requires Delivering(m, places, r) && IsNext(plan, pending, m, places, r, row)
      modifies `maps, `counts, `visited, `computed, `ticks, `log
      ensures Delivering(m, places, r + 1) && old(log) <= log && visited == old(visited) + 1
      ensures maps == old(maps)[m := Recorded(old(maps[m]), row, perMap)]
    {
      ReceiveRow(plan, maps, pending, genMap, genAt, Seen(), m, places, r, row);
      var ok := Emit(m, row, places[r]);
    }

    /** The loop over one future's rows. */
    method Deliver(job: Job, ghost cut: nat, rows: seq<Row>)
      requires job.m < |plan.diameters| && IsBatch(plan.Of(job.m), job.items) && cut <= |job.items|
      requires rows == FreshRows(plan.Of(job.m), job.items, cut) && Keys(job) !! Owed(pending)
      requires Delivering(job.m, Delivered(job.items, cut), 0)
      modifies `maps, `counts, `visited, `computed, `ticks, `log
      ensures Valid() && |maps| == |old(maps)| && old(log) <= log && visited == old(visited) + |rows|
      ensures maps == RecordAll(old(maps), job.m, rows, perMap)
    {
      ghost var places, before := Delivered(job.items, cut), maps;
      DeliveredRows(plan.Of(job.m), job.items, cut);
      for r := 0 to |rows|
        invariant Delivering(job.m, places, r) && old(log) <= log && visited == old(visited) + r
        invariant maps == RecordAll(before, job.m, rows[..r], perMap)
      {
        RowIsNext(plan, pending, job, cut, places, r, rows);
        DeliverRow(job.m, places, r, rows[r]);
        RecordNext(before, job.m, rows, r, perMap);
      }
      Whole(rows);
      AllReceived(plan, maps, pending, genMap, genAt, Seen(), job.m, places);
    }

    /** One finished future leaves the outstanding ones; its rows, if it did not raise, are emitted in order. */
    method Collect(c: Completion) returns (ok: bool)
      requires Valid() && status != Complete && pending != []
      modifies `maps, `counts, `visited, `computed, `ticks, `log, `pending
      ensures Steady() && |maps| == |old(maps)| && old(log) <= log && |pending| == |old(pending)| - 1
      ensures ok == !c.raises && (ok ==> Valid())
      ensures visited >= old(visited) && (ok && !workerStop ==> visited > old(visited))
      ensures pending == Without(old(pending), c.slot % |old(pending)|)
      ensures !ok ==> maps == old(maps)
      ensures ok ==> IsCollected(old(maps), old(pending)[c.slot % |old(pending)|], c)
    {
      var slot := c.slot % |pending|;
      ok := !c.raises;
      if ok {
        Receive(slot, CutOf(c, |pending[slot].items|, workerStop));
      } else {
        pending := Without(pending, slot);
      }
    }

    /** The outstanding batch in this slot comes in, up to the cut. */
    method Receive(slot: nat, cut: nat)
      requires Valid() && status != Complete && slot < |pending| && cut <= |pending[slot].items|
      requires cut == |pending[slot].items| || workerStop
      modifies `maps, `counts, `visited, `computed, `ticks, `log, `pending
      ensures Valid() && |maps| == |old(maps)| && old(log) <= log && pending == Without(old(pending), slot)
      ensures visited >= old(visited) && (cut == |old(pending)[slot].items| ==> visited > old(visited))
      ensures var job := old(pending)[slot];
        && JobOk(plan, job) && job.m < |old(maps)|
        && maps == RecordAll(old(maps), job.m, FreshRows(plan.Of(job.m), job.items, cut), perMap)
    {
      var job := pending[slot];
      TakeOut(slot, cut);
      var rows;
      ghost var outcomes;
      rows, outcomes := SolveBatch(plan.Of(job.m), job.items, cut);
      Deliver(job, cut, rows);
    }

    /** The rows recorded are exactly the batch's missing ones up to where its worker got. */
    ghost predicate IsCollected(before: seq<MapState>, job: Job, c: Completion)
      reads this
    {
      && JobOk(plan, job) && job.m < |before|
      && maps == RecordAll(before, job.m, FreshRows(plan.Of(job.m), job.items, CutOf(c, |job.items|, workerStop)),
                           perMap)
    }

    /** The batch in this slot is outstanding no more; its rows up to the cut come in. */
    method TakeOut(slot: nat, ghost cut: nat)
      requires Valid() && status != Complete && slot < |pending| && cut <= |pending[slot].items|
      requires cut == |pending[slot].items| || workerStop
      modifies `pending
      ensures pending == Without(old(pending), slot)
      ensures var job := old(pending)[slot];
        && JobOk(plan, job) && Keys(job) !! Owed(pending) && Delivering(job.m, Delivered(job.items, cut), 0)
        && (cut == |job.items| ==> |FreshRows(plan.Of(job.m), job.items, cut)| > 0)
    {
      PopJobs(plan, pending, slot);
      PopDelivered(plan, maps, pending, slot, cut, genMap, genAt, Seen());
      pending := Without(pending, slot);
    }

    /** The loop over the futures one wait found finished. */
    method Harvest(done: seq<Completion>) returns (ok: bool)
      requires Valid() && status != Complete
      modifies `maps, `counts, `visited, `computed, `ticks, `log, `pending
      ensures Steady() && |maps| == old(|maps|) && old(log) <= log && |pending| <= |old(pending)|
      ensures visited >= old(visited)
      ensures ok ==> Valid()
      ensures !ok ==> exists j :: 0 <= j < |done| && done[j].raises
      ensures ok && !workerStop && done != [] && old(pending) != [] ==> visited > old(visited)
    {
      for j := 0 to |done|
        invariant Valid() && |maps| == old(|maps|) && old(log) <= log && |pending| <= |old(pending)|
        invariant visited >= old(visited)
        invariant j > 0 && !workerStop && old(pending) != [] ==> visited > old(visited)
        invariant j == 0 ==> pending == old(pending)
      {
        if pending == [] {
          return true;
        }
        ok := Collect(done[j]);
        if !ok {
          return;
        }
      }
      ok := true;
    }

    /** The poll at the head of the main loop. */
    method CheckStop(exhausted: bool) returns (exhausted': bool)
      requires Valid() && status != Complete
      modifies `polls, `status, `workerStop
      ensures Valid() && status != Complete && (old(Seen()) ==> Seen()) && (exhausted ==> exhausted')
      ensures (exhausted' ==> exhausted || Seen())
    {
      ghost var before := Seen();
      var seen := Poll();
      LedgerOn(plan, maps, Owed(pending), genMap, genAt, before, seen);
      exhausted' := exhausted || seen;
      if seen {
        status, workerStop := Cancelled, true;
      }
    }

    /** One wait() and what follows from it; false when the loop is left by an exception. */
    method Await(event: Event) returns (ok: bool)
      requires Valid() && status != Complete && pending != []
      modifies `maps, `counts, `visited, `computed, `ticks, `log, `pending, `status, `error, `workerStop
      ensures Steady() && status != Complete && old(log) <= log && |pending| <= |old(pending)|
      ensures visited >= old(visited)
      ensures ok ==> Valid()
      ensures !ok ==> !Smooth(event) && status != Running
      ensures error == old(error) || error == WORKER_RAISED
      ensures ok && !Seen() && event.Wake? && event.done != [] ==> visited > old(visited)
    {
      if event.Interrupt? {
        status, workerStop := Cancelled, true;
        return false;
      }
      ok := Harvest(event.done);
      if !ok {
        status, error, workerStop := Failed, WORKER_RAISED, true;
      }
    }

    /** One turn of the main loop: poll, submit, wait. `dead` when the process dies while waiting. */
    method Turn(exhausted: bool, used: nat) returns (exhausted': bool, used': nat, ok: bool, dead: bool)
      requires Valid() && status != Complete && workers >= 1 && |pending| <= 2 * workers && used <= |env.events|
      requires exhausted ==> genMap == |maps| || Seen()
      requires pending != [] || !exhausted
      modifies this
      ensures Steady() && status != Complete && old(log) <= log && |pending| <= 2 * workers
      ensures used <= used' <= |env.events|
      ensures ok ==> Valid() && (exhausted' ==> genMap == |maps| || Seen())
      ensures !ok ==> status != Running && !Calm(env)
      ensures error == old(error) || error == WORKER_RAISED
      ensures dead ==> visited < total && used == |env.events|
      ensures ok && !dead ==> used' > used || (exhausted' && !exhausted)
      ensures visited >= old(visited)
      ensures (Productive(env) && used' > used ==> used' == used + 1 && visited > old(visited))
    {
      exhausted' := CheckStop(exhausted);
      exhausted' := Fill(exhausted');
      used', ok, dead := used, true, false;
      if pending != [] {
        used', ok, dead := WaitOnce(used);
      }
    }

    /** The wait of one turn. */
    method WaitOnce(used: nat) returns (used': nat, ok: bool, dead: bool)
      requires Valid() && status != Complete && pending != [] && used <= |env.events|
      modifies `maps, `counts, `visited, `computed, `ticks, `log, `pending, `status, `error, `workerStop
      ensures Steady() && status != Complete && old(log) <= log && |pending| <= |old(pending)|
      ensures visited >= old(visited)
      ensures used' == (if used == |env.events| then used else used + 1) && dead == (used == |env.events|)
      ensures ok ==> Valid()
      ensures !ok ==> status != Running && !Calm(env)
      ensures error == old(error) || error == WORKER_RAISED
      ensures dead ==> ok && visited < total
      ensures Productive(env) && !dead ==> visited > old(visited)
    {
      used', ok, dead := used, true, false;
      if used == |env.events| {
        SomethingLeft(plan, maps, pending, genMap, genAt, Seen());
        dead := true;
        return;
      }
      CalmEvent(env, used);
      ok := Await(env.events[used]);
      used' := used + 1;
    }

    /** The main loop. `ok` when it ends by itself or by the stop flag, not by an exception or the user's interrupt;
        `killed` when the process dies while waiting. */
    method Loop() returns (ok: bool, killed: bool)
      requires Valid() && status == Running && pending == [] && genMap == 0 && !Seen() && workers >= 1
      modifies this
      ensures Steady() && status != Complete && old(log) <= log
      ensures |pending| <= 2 * workers
      ensures ok && !killed && !Seen() ==> visited == total
      ensures !ok ==> status != Running && !Calm(env)
      ensures error == old(error) || error == WORKER_RAISED
      ensures Productive(env) && killed ==> |env.events| < total - old(visited)
    {
      var exhausted, used := false, 0;
      ok, killed := true, false;
      ghost var productive := Productive(env);
      while pending != [] || !exhausted
        invariant Valid() && status != Complete && old(log) <= log && used <= |env.events|
        invariant |pending| <= 2 * workers && ok && !killed && (error == old(error) || error == WORKER_RAISED)
        invariant exhausted ==> genMap == |maps| || Seen()
        invariant visited >= old(visited) + if productive then used else 0
        decreases |env.events| - used, if exhausted then 0 else 1
      {
        exhausted, used, ok, killed := Turn(exhausted, used);
        if !ok || killed {
          return;
        }
      }
      if !Seen() {
        NothingLeft(plan, maps, genMap, genAt);
      }
    }

    /** The entries' final statuses and the last save. */
    method Finish()
      requires Steady()
      modifies `maps, `status, `error, `log
      ensures Steady() && old(log) <= log && |log| == |old(log)| + 1 && visited == old(visited)
      ensures status == if old(status) == Complete && visited != total then Failed else old(status)
      ensures error == if old(status) == Complete && visited != total then INCOMPLETE else old(error)
      ensures log[|log| - 1].summary.status == status
      ensures |maps| == |old(maps)| && forall m :: 0 <= m < |maps| ==> maps[m] == Closed(old(maps)[m], old(status))
    {
      for m := 0 to |maps|
        invariant Steady() && |maps| == |old(maps)| && log == old(log) && status == old(status) && error == old(error)
        invariant forall k :: 0 <= k < m ==> maps[k] == Closed(old(maps)[k], old(status))
        invariant forall k :: m <= k < |maps| ==> maps[k] == old(maps)[k]
      {
        if maps[m].status == Running {
          var closed := Closed(maps[m], status);
          CloseKeepsTable(plan, meta, maps, visited, counts, log, m, closed.status);
          maps := maps[m := closed];
        }
      }
      if status == Complete && visited != total {
        status, error := Failed, INCOMPLETE;
      }
      Save();
    }

    /** run_table after loading: the first save, the loop, the last save. Without exceptions and interrupts it ends
        complete with every row, or cancelled when a poll saw the stop flag; it never ends with the incomplete-table
        error; enough results bring it to its end. */
    method Run() returns (killed: bool)
      requires Valid() && status == Running && pending == [] && log == [] && genMap == 0 && !Seen() && workers >= 1
      requires error == ""
      modifies this
      ensures Steady() && log != []
      ensures !killed ==> status != Running && log[|log| - 1].summary.status == status
      ensures !killed && status == Complete ==> visited == total
      ensures !killed && Calm(env) ==> status == if Seen() then Cancelled else Complete
      ensures error != INCOMPLETE
      ensures !killed ==> forall m :: 0 <= m < |maps| ==> maps[m].status != Running
      ensures Productive(env) && |env.events| >= total - old(visited) ==> !killed
    {
      ErrorsDiffer();
      Save();
      var ok;
      ok, killed := Loop();
      if !killed {
        if ok {
          var seen := Poll();
          status := if seen then Cancelled else Complete;
        }
        Finish();
      }
    }
  }
}
