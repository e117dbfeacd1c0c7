/** Gathering needles along a radial band: which rail pieces are parked, how rotated duplicates are merged and what the
    counters say (workbench/research/support/newhug.py, gather_needles). */
module GatherNeedles {
  import opened InputErrors
  import opened Options
  import opened Planar
  import opened Roots
  import opened RingClip
  import C = ConsensusBand

  datatype Needle = Needle(segment: Segment, radial: C.Interval)

  type Key = string

  /** A parked piece: where it comes from, its middle, the middle's radius and how many rotated copies it stands for. */
  datatype Parked = Parked(source: nat, branch: nat, piece: Piece, fraction: real, radius: real, copies: nat)

  /** The rows by key in order of insertion, and the counters. */
  datatype Books = Books(order: seq<Key>, rows: map<Key, Parked>, intersecting: nat, intersections: nat,
                         duplicates: nat)

  /** What a run depends on: the needles below the friction cutoff, the target's centre and the key of a rotated
      piece. */
  datatype Job = Job(eligible: seq<Needle>, centre: Vec, low: real, high: real, keyOf: (Needle, real) -> Key,
                     root: real -> real)

  /** The answer: the band used, the consensus of the eligible needles, the rows and the two remaining counters. */
  datatype Gathered = Gathered(band: Option<(real, real)>, consensus: C.Report, books: Books, outside: nat,
                               excluded: nat)

  // ----- bookkeeping

  ghost predicate Listed(order: seq<Key>, rows: map<Key, Parked>) {
    && (forall i, j :: 0 <= i < j < |order| ==> order[i] != order[j])
    && (forall i :: 0 <= i < |order| ==> order[i] in rows) && (forall k :: k in rows ==> k in order)
  }

  /** The sources all listed rows stand for. */
  function Copies(order: seq<Key>, rows: map<Key, Parked>): nat
    requires forall i :: 0 <= i < |order| ==> order[i] in rows
  {
    if order == [] then 0 else Copies(order[..|order| - 1], rows) + rows[order[|order| - 1]].copies
  }

  /** Every intersection is a row or a duplicate of one, and the rows' copies add up to all of them. */
  ghost predicate Balanced(b: Books) {
    Listed(b.order, b.rows) && b.intersections == |b.order| + b.duplicates && b.intersections == Copies(b.order, b.rows)
  }

  lemma {:induction false} SameCopies(order: seq<Key>, rows: map<Key, Parked>, key: Key, row: Parked)
    requires (forall i :: 0 <= i < |order| ==> order[i] in rows) && key !in order
    ensures Copies(order, rows[key := row]) == Copies(order, rows)
  {
    if order != [] {
      SameCopies(order[..|order| - 1], rows, key, row);
    }
  }

  lemma {:induction false} OneMoreCopy(order: seq<Key>, rows: map<Key, Parked>, key: Key)
    requires (forall i, j :: 0 <= i < j < |order| ==> order[i] != order[j])
    requires (forall i :: 0 <= i < |order| ==> order[i] in rows)
    requires key in order
    ensures Copies(order, rows[key := rows[key].(copies := rows[key].copies + 1)]) == Copies(order, rows) + 1
  {
    var n := |order| - 1;
    var more := rows[key].(copies := rows[key].copies + 1);
    if order[n] == key {
      SameCopies(order[..n], rows, key, more);
    } else {
      OneMoreCopy(order[..n], rows, key);
    }
  }

  // ----- one piece

  /** The needles as far as parking sees them: which of their points lie in the band, at what radius, under what key. */
  datatype Rail = Rail(count: nat, inside: (nat, real) -> bool, radius: (nat, real) -> real, keyOf: (nat, real) -> Key,
                       low: real, high: real)

  ghost predicate Lawful(rail: Rail) {
    forall i: nat, t: real {:trigger rail.inside(i, t)} ::
      i < rail.count && rail.inside(i, t) ==> rail.low <= rail.radius(i, t) <= rail.high
  }

  function RailOf(j: Job): Rail {
    Rail(|j.eligible|,
         (i: nat, t: real) => i < |j.eligible| && InBand(j.eligible[i].segment, j.centre, j.low, j.high, j.root, t),
         (i: nat, t: real) => if i < |j.eligible| then Distance(j.eligible[i].segment, j.centre, t, j.root) else 0.0,
         (i: nat, t: real) => if i < |j.eligible| then j.keyOf(j.eligible[i], t) else "", j.low, j.high)
  }

  lemma RailIsLawful(j: Job)
    ensures Lawful(RailOf(j))
  {
  }

  ghost predicate PieceInside(rail: Rail, source: nat, piece: Piece) {
    0.0 <= piece.first < piece.last <= 1.0 && forall t {:trigger rail.inside(source, t)} ::
      piece.first <= t <= piece.last ==> rail.inside(source, t)
  }

  /** A row holds a piece of its needle that lies in the band from end to end, parked at its middle's radius. */
  ghost predicate RowOk(rail: Rail, key: Key, row: Parked) {
    && row.source < rail.count && row.copies > 0 && row.fraction == Mid(row.piece.first, row.piece.last)
    && PieceInside(rail, row.source, row.piece) && key == rail.keyOf(row.source, row.fraction)
    && row.radius == rail.radius(row.source, row.fraction) && rail.low <= row.radius <= rail.high
  }

  ghost predicate RowsOk(rail: Rail, rows: map<Key, Parked>) {
    forall k {:trigger RowOk(rail, k, rows[k])} :: k in rows ==> RowOk(rail, k, rows[k])
  }

  /** Pieces of one needle inside the band. */
  ghost predicate InsideBand(rail: Rail, source: nat, pieces: seq<Piece>) {
    forall k :: 0 <= k < |pieces| ==> PieceInside(rail, source, pieces[k])
  }

  lemma ClipIsInside(j: Job, source: nat, pieces: seq<Piece>)
    requires source < |j.eligible| && Ordered(pieces)
    requires IsClip(BandOf(j.eligible[source].segment, j.centre, j.low, j.high, j.root), pieces)
    ensures InsideBand(RailOf(j), source, pieces)
  {
    var band := BandOf(j.eligible[source].segment, j.centre, j.low, j.high, j.root);
    forall k | 0 <= k < |pieces| ensures PieceInside(RailOf(j), source, pieces[k]) {
      forall t | pieces[k].first <= t <= pieces[k].last ensures RailOf(j).inside(source, t) {
        assert Covered(pieces, t);
        assert band(t);
      }
    }
  }

  /** One more copy of an existing row. */
  function WithCopy(b: Books, key: Key): Books
    requires key in b.rows
  {
    b.(rows := b.rows[key := b.rows[key].(copies := b.rows[key].copies + 1)], intersections := b.intersections + 1,
       duplicates := b.duplicates + 1)
  }

  function WithRow(b: Books, key: Key, row: Parked): Books {
    b.(order := b.order + [key], rows := b.rows[key := row], intersections := b.intersections + 1)
  }

  lemma ParkCopy(rail: Rail, b: Books, key: Key)
    requires Balanced(b) && RowsOk(rail, b.rows) && key in b.rows
    ensures Balanced(WithCopy(b, key)) && RowsOk(rail, WithCopy(b, key).rows)
  {
    OneMoreCopy(b.order, b.rows, key);
    assert RowOk(rail, key, b.rows[key]);
    var rows := WithCopy(b, key).rows;
    forall k {:trigger RowOk(rail, k, rows[k])} | k in rows ensures RowOk(rail, k, rows[k]) {
      assert RowOk(rail, k, b.rows[k]);
    }
  }

  lemma ParkNew(rail: Rail, b: Books, key: Key, row: Parked)
    requires Balanced(b) && RowsOk(rail, b.rows) && key !in b.rows && RowOk(rail, key, row) && row.copies == 1
    ensures Balanced(WithRow(b, key, row)) && RowsOk(rail, WithRow(b, key, row).rows)
  {
    NewKey(b.order, b.rows, key, row);
    var rows := b.rows[key := row];
    forall k {:trigger RowOk(rail, k, rows[k])} | k in rows ensures RowOk(rail, k, rows[k]) {
      if k != key {
        assert RowOk(rail, k, b.rows[k]);
      }
    }
  }

  lemma NewKey(order: seq<Key>, rows: map<Key, Parked>, key: Key, row: Parked)
    requires Listed(order, rows) && key !in rows
    ensures Listed(order + [key], rows[key := row])
    ensures Copies(order + [key], rows[key := row]) == Copies(order, rows) + row.copies
  {
    forall i | 0 <= i < |order| ensures order[i] != key {}
    SameCopies(order, rows, key, row);
    NewListed(order, rows, key, row);
    LastCopies(order, rows[key := row], key);
  }

  lemma LastCopies(order: seq<Key>, rows: map<Key, Parked>, key: Key)
    requires (forall i :: 0 <= i < |order| ==> order[i] in rows) && key in rows
    ensures Copies(order + [key], rows) == Copies(order, rows) + rows[key].copies
  {
    assert (order + [key])[..|order|] == order;
  }

  lemma NewListed(order: seq<Key>, rows: map<Key, Parked>, key: Key, row: Parked)
    requires Listed(order, rows) && key !in rows
    ensures Listed(order + [key], rows[key := row])
  {
    var more := order + [key];
    assert more[|order|] == key;
    forall k | k in rows[key := row] ensures k in more {
      if k != key {
        assert k in order;
      }
    }
  }

  /** The books after one piece: one more copy of the row with its key, or a new row. */
  function Entered(rail: Rail, source: nat, branch: nat, piece: Piece, b: Books): Books {
    var fraction := Mid(piece.first, piece.last);
    var key := rail.keyOf(source, fraction);
    if key in b.rows then WithCopy(b, key)
    else WithRow(b, key, Parked(source, branch, piece, fraction, rail.radius(source, fraction), 1))
  }

  /** Entering a piece that lies in the band keeps the balance and the rows right, and its key is a row. */
  lemma EnteredKeeps(rail: Rail, source: nat, branch: nat, piece: Piece, b: Books)
    requires Lawful(rail) && source < rail.count && Balanced(b) && RowsOk(rail, b.rows)
    requires PieceInside(rail, source, piece)
    ensures var b' := Entered(rail, source, branch, piece, b);
      && Balanced(b') && RowsOk(rail, b'.rows) && b.rows.Keys <= b'.rows.Keys
      && rail.keyOf(source, Mid(piece.first, piece.last)) in b'.rows
  {
    var fraction := Mid(piece.first, piece.last);
    var key := rail.keyOf(source, fraction);
    if key in b.rows {
      ParkCopy(rail, b, key);
    } else {
      assert rail.inside(source, fraction);
      ParkNew(rail, b, key, Parked(source, branch, piece, fraction, rail.radius(source, fraction), 1));
    }
  }

  /** The body of the inner loop. */
  method Park(rail: Rail, source: nat, branch: nat, piece: Piece, b: Books) returns (b': Books)
    ensures b' == Entered(rail, source, branch, piece, b)
  {
    var fraction := Mid(piece.first, piece.last);
    var radius, key := rail.radius(source, fraction), rail.keyOf(source, fraction);
    if key in b.rows {
      b' := WithCopy(b, key);
    } else {
      b' := WithRow(b, key, Parked(source, branch, piece, fraction, radius, 1));
    }
  }

  /** The books after all pieces of one needle. */
  function EnteredAll(rail: Rail, source: nat, pieces: seq<Piece>, b: Books): Books {
    if pieces == [] then b
    else
      var n := |pieces| - 1;
      Entered(rail, source, n, pieces[n], EnteredAll(rail, source, pieces[..n], b))
  }

  /** The keys of all pieces of one needle are rows. */
  ghost predicate Kept(rail: Rail, source: nat, pieces: seq<Piece>, keys: set<Key>) {
    forall k :: 0 <= k < |pieces| ==> rail.keyOf(source, Mid(pieces[k].first, pieces[k].last)) in keys
  }

  lemma {:induction false} EnteredAllCounts(rail: Rail, source: nat, pieces: seq<Piece>, b: Books)
    ensures var b' := EnteredAll(rail, source, pieces, b);
      b'.intersecting == b.intersecting && b'.intersections == b.intersections + |pieces| && b.rows.Keys <= b'.rows.Keys
  {
    if pieces != [] {
      EnteredAllCounts(rail, source, pieces[..|pieces| - 1], b);
    }
  }

  lemma {:induction false} EnteredAllKeeps(rail: Rail, source: nat, pieces: seq<Piece>, b: Books)
    requires Lawful(rail) && source < rail.count && Balanced(b) && RowsOk(rail, b.rows)
    requires InsideBand(rail, source, pieces)
    ensures Balanced(EnteredAll(rail, source, pieces, b)) && RowsOk(rail, EnteredAll(rail, source, pieces, b).rows)
  {
    if pieces != [] {
      var n := |pieces| - 1;
      assert InsideBand(rail, source, pieces[..n]);
      EnteredAllKeeps(rail, source, pieces[..n], b);
      EnteredKeeps(rail, source, n, pieces[n], EnteredAll(rail, source, pieces[..n], b));
    }
  }

  lemma {:induction false} EnteredAllHold(rail: Rail, source: nat, pieces: seq<Piece>, b: Books)
    ensures Kept(rail, source, pieces, EnteredAll(rail, source, pieces, b).rows.Keys)
  {
    if pieces != [] {
      var n := |pieces| - 1;
      EnteredAllHold(rail, source, pieces[..n], b);
      assert pieces == pieces[..n] + [pieces[n]];
      KeptMore(rail, source, pieces[..n], pieces[n], EnteredAll(rail, source, pieces[..n], b).rows.Keys,
               EnteredAll(rail, source, pieces, b).rows.Keys);
    }
  }

  lemma KeptMore(rail: Rail, source: nat, pieces: seq<Piece>, piece: Piece, keys: set<Key>, more: set<Key>)
    requires Kept(rail, source, pieces, keys) && keys <= more
    requires rail.keyOf(source, Mid(piece.first, piece.last)) in more
    ensures Kept(rail, source, pieces + [piece], more)
  {
  }

  /** The books with one more needle met, if it has pieces. */
  function Met(pieces: seq<Piece>, b: Books): Books {
    b.(intersecting := b.intersecting + if pieces == [] then 0 else 1)
  }

  /** The inner loop over the pieces of one needle. */
  method ParkAll(rail: Rail, source: nat, pieces: seq<Piece>, b: Books) returns (b': Books)
    ensures b' == EnteredAll(rail, source, pieces, Met(pieces, b))
  {
    b' := Met(pieces, b);
    for k := 0 to |pieces|
      invariant b' == EnteredAll(rail, source, pieces[..k], Met(pieces, b))
    {
      assert pieces[..k + 1][..k] == pieces[..k];
      b' := Park(rail, source, k, pieces[k], b');
    }
    assert pieces[..|pieces|] == pieces;
  }

  // ----- all needles

  const NO_BOOKS := Books([], map[], 0, 0, 0)

  /** The books after the first needles, given their clips. */
  function BooksOf(rail: Rail, clips: seq<seq<Piece>>): Books {
    if clips == [] then NO_BOOKS
    else
      var n := |clips| - 1;
      EnteredAll(rail, n, clips[n], Met(clips[n], BooksOf(rail, clips[..n])))
  }

  function Total(clips: seq<seq<Piece>>): nat {
    if clips == [] then 0 else Total(clips[..|clips| - 1]) + |clips[|clips| - 1]|
  }

  function Meeting(clips: seq<seq<Piece>>): nat {
    if clips == [] then 0 else Meeting(clips[..|clips| - 1]) + if clips[|clips| - 1] == [] then 0 else 1
  }

  /** The pieces of one eligible needle inside the band, in order. */
  ghost predicate Clipped(j: Job, i: nat, pieces: seq<Piece>)
    requires i < |j.eligible|
  {
    Ordered(pieces) && IsClip(BandOf(j.eligible[i].segment, j.centre, j.low, j.high, j.root), pieces)
  }

  ghost predicate AllClipped(j: Job, clips: seq<seq<Piece>>) {
    |clips| <= |j.eligible| && forall i {:trigger Clipped(j, i, clips[i])} ::
      0 <= i < |clips| ==> Clipped(j, i, clips[i])
  }

  /** The books of clips: in balance, every row right, every piece's key a row, the counters those of the clips. */
  ghost predicate Right(rail: Rail, clips: seq<seq<Piece>>, b: Books) {
    && Balanced(b) && RowsOk(rail,
                             b.rows) && b.intersections == Total(clips) && b.intersecting == Meeting(clips) <= |clips|
    && AllKept(rail, clips, b.rows.Keys)
  }

  ghost predicate AllKept(rail: Rail, clips: seq<seq<Piece>>, keys: set<Key>) {
    forall i {:trigger Kept(rail, i, clips[i], keys)} :: 0 <= i < |clips| ==> Kept(rail, i, clips[i], keys)
  }

  lemma StillKept(rail: Rail, clips: seq<seq<Piece>>, keys: set<Key>, more: set<Key>)
    requires AllKept(rail, clips, keys) && keys <= more
    ensures AllKept(rail, clips, more)
  {
    forall i {:trigger Kept(rail, i, clips[i], more)} | 0 <= i < |clips| ensures Kept(rail, i, clips[i], more) {
      assert Kept(rail, i, clips[i], keys);
    }
  }

  lemma {:induction false} BooksAreRight(j: Job, clips: seq<seq<Piece>>)
    requires AllClipped(j, clips)
    ensures Right(RailOf(j), clips, BooksOf(RailOf(j), clips))
  {
    if clips != [] {
      var n, rail := |clips| - 1, RailOf(j);
      forall i | 0 <= i < n ensures Clipped(j, i, clips[..n][i]) { assert Clipped(j, i, clips[i]); }
      BooksAreRight(j, clips[..n]);
      RailIsLawful(j);
      assert Clipped(j, n, clips[n]);
      ClipIsInside(j, n, clips[n]);
      OneMoreRight(rail, clips[..n], clips[n], BooksOf(rail, clips[..n]));
      assert clips[..n] + [clips[n]] == clips;
    }
  }

  lemma OneMoreRight(rail: Rail, clips: seq<seq<Piece>>, pieces: seq<Piece>, b: Books)
    requires Lawful(rail) && |clips| < rail.count && Right(rail, clips, b) && InsideBand(rail, |clips|, pieces)
    ensures Right(rail, clips + [pieces], EnteredAll(rail, |clips|, pieces, Met(pieces, b)))
  {
    EnteredAllKeeps(rail, |clips|, pieces, Met(pieces, b));
    EnteredAllCounts(rail, |clips|, pieces, Met(pieces, b));
    EnteredAllHold(rail, |clips|, pieces, Met(pieces, b));
    RightExtends(rail, clips, pieces, b, EnteredAll(rail, |clips|, pieces, Met(pieces, b)));
  }

  lemma RightExtends(rail: Rail, clips: seq<seq<Piece>>, pieces: seq<Piece>, b: Books, b': Books)
    requires Right(rail, clips, b) && Balanced(b') && RowsOk(rail, b'.rows)
    requires b'.intersections == b.intersections + |pieces| && b'.intersecting == Met(pieces, b).intersecting
    requires b.rows.Keys <= b'.rows.Keys && Kept(rail, |clips|, pieces, b'.rows.Keys)
    ensures Right(rail, clips + [pieces], b')
  {
    var all := clips + [pieces];
    assert all[..|clips|] == clips;
    StillKept(rail, clips, b.rows.Keys, b'.rows.Keys);
  }

  /** Some needle has no length. */
  ghost predicate AnyPoint(needles: seq<Needle>) {
    exists i :: 0 <= i < |needles| && needles[i].segment.a == needles[i].segment.b
  }

  /** The loop over the eligible needles with a band; an error exactly when some needle has no length. */
  method Sweep(j: Job) returns (r: Result<Books>, ghost clips: seq<seq<Piece>>)
    requires IsRoot(j.root) && 0.0 <= j.low < j.high
    ensures r.InputError? <==> AnyPoint(j.eligible)
    ensures r.Ok? ==> |clips| == |j.eligible| && AllClipped(j, clips) && r.value == BooksOf(RailOf(j), clips)
  {
    clips := [];
    var b := NO_BOOKS;
    var rail := RailOf(j);
    for i := 0 to |j.eligible|
      invariant |clips| == i && AllClipped(j, clips) && b == BooksOf(rail, clips)
      invariant forall k :: 0 <= k < i ==> j.eligible[k].segment.a != j.eligible[k].segment.b
    {
      var pieces := ClipSegmentToBand(j.eligible[i].segment, j.centre, j.low, j.high, j.root);
      if pieces.InputError? {
        return InputError, clips;
      }
      b := ParkAll(rail, i, pieces.value, b);
      OneMoreClip(j, clips, pieces.value);
      clips := clips + [pieces.value];
    }
    r := Ok(b);
  }

  lemma OneMoreClip(j: Job, clips: seq<seq<Piece>>, pieces: seq<Piece>)
    requires AllClipped(j, clips) && |clips| < |j.eligible| && Clipped(j, |clips|, pieces)
    ensures AllClipped(j, clips + [pieces])
    ensures BooksOf(RailOf(j), clips + [pieces])
         == EnteredAll(RailOf(j), |clips|, pieces, Met(pieces, BooksOf(RailOf(j), clips)))
  {
    var all := clips + [pieces];
    assert all[..|clips|] == clips;
    forall i | 0 <= i < |all| ensures Clipped(j, i, all[i]) {
      if i < |clips| {
        assert Clipped(j, i, clips[i]);
      }
    }
  }

  /** The needles below the cutoff, in order. */
  function Below(needles: seq<Needle>, cutoff: Needle -> bool): (kept: seq<Needle>)
    ensures |kept| <= |needles| && forall n :: n in kept <==> n in needles && cutoff(n)
  {
    if needles == [] then []
    else
      var last := needles[|needles| - 1];
      var rest := Below(needles[..|needles| - 1], cutoff);
      assert forall n :: n in needles <==> n in needles[..|needles| - 1] || n == last;
      if cutoff(last) then rest + [last] else rest
  }

  /** The kept needles are those at the increasing places where the cutoff holds. */
  ghost predicate Filtered(needles: seq<Needle>, cutoff: Needle -> bool, kept: seq<Needle>, places: seq<nat>) {
    && |places| == |kept| && (forall i, j :: 0 <= i < j < |places| ==> places[i] < places[j])
    && (forall i :: 0 <= i < |places| ==> places[i] < |needles| && kept[i] == needles[places[i]])
    && (forall n: nat :: n < |needles| ==> (cutoff(needles[n]) <==> n in places))
  }

  lemma FilteredMore(needles: seq<Needle>, cutoff: Needle -> bool, last: Needle, kept: seq<Needle>, places: seq<nat>)
    requires Filtered(needles, cutoff, kept, places)
    ensures cutoff(last) ==> Filtered(needles + [last], cutoff, kept + [last], places + [|needles|])
    ensures !cutoff(last) ==> Filtered(needles + [last], cutoff, kept, places)
  {
    assert forall n: nat :: n < |needles| ==> (needles + [last])[n] == needles[n];
    assert forall n :: n in places ==> n < |needles|;
  }

  lemma {:induction false} BelowIsFiltered(needles: seq<Needle>, cutoff: Needle -> bool) returns (places: seq<nat>)
    ensures Filtered(needles, cutoff, Below(needles, cutoff), places)
  {
    places := [];
    if needles != [] {
      var n := |needles| - 1;
      places := BelowIsFiltered(needles[..n], cutoff);
      FilteredMore(needles[..n], cutoff, needles[n], Below(needles[..n], cutoff), places);
      assert needles[..n] + [needles[n]] == needles;
      places := if cutoff(needles[n]) then places + [n] else places;
    }
  }

  function Radials(needles: seq<Needle>): seq<C.Interval> {
    seq(|needles|, i requires 0 <= i < |needles| => needles[i].radial)
  }

  /** What gathering returns for a band: the books of the clips of every eligible needle, and each needle meets the
      band, misses it or is cut off by friction. */
  ghost predicate IsGathering(needles: seq<Needle>, j: Job, clips: seq<seq<Piece>>, g: Gathered) {
    && |clips| == |j.eligible| && AllClipped(j, clips)
    && g.books == BooksOf(RailOf(j), clips) && Right(RailOf(j), clips, g.books) && Plain(RailOf(j), clips, g.books)
    && g.outside == |j.eligible| - Meeting(clips) && g.excluded == |needles| - |j.eligible|
  }

  lemma PointIsBelow(needles: seq<Needle>, cutoff: Needle -> bool)
    ensures AnyPoint(Below(needles, cutoff))
       <==> exists n :: n in needles && cutoff(n) && n.segment.a == n.segment.b
  {
    var kept := Below(needles, cutoff);
    if n :| n in needles && cutoff(n) && n.segment.a == n.segment.b {
      assert n in kept;
      var i :| 0 <= i < |kept| && kept[i] == n;
    }
    if AnyPoint(kept) {
      var i :| 0 <= i < |kept| && kept[i].segment.a == kept[i].segment.b;
      assert kept[i] in needles;
    }
  }

  /** Whether a band is usable. */
  predicate Usable(band: (real, real)) { 0.0 <= band.0 < band.1 }

  /** gather_needles: the consensus of the eligible needles, the given band or else the consensus band, and the
      gathering along it. An error exactly for a fraction outside (0, 1], an unusable band, or an eligible needle of no
      length when there is a band. */
  method Gather(needles: seq<Needle>, cutoff: Needle -> bool, centre: Vec, band: Option<(real, real)>, fraction: real,
                keyOf: (Needle, real) -> Key, root: real -> real)
    returns (r: Result<Gathered>, ghost clips: seq<seq<Piece>>, ghost report: C.Report)
    requires IsRoot(root)
    ensures 0.0 < fraction <= 1.0 ==> C.IsConsensus(Radials(Below(needles, cutoff)), fraction, report)
    ensures var chosen := if band.Some? then band else report.band;
      r.InputError? <==>
        || !(0.0 < fraction <= 1.0)
        || (chosen.Some? && !(0.0 <= chosen.value.0 < chosen.value.1))
        || (chosen.Some? && exists n :: n in needles && cutoff(n) && n.segment.a == n.segment.b)
    ensures r.Ok? ==> r.value.consensus == report && r.value.band == if band.Some? then band else report.band
    ensures r.Ok? && r.value.band.Some? ==>
      var (low, high) := r.value.band.value;
      IsGathering(needles, Job(Below(needles, cutoff), centre, low, high, keyOf, root), clips, r.value)
    ensures r.Ok? && r.value.band.None? ==>
      r.value.books == NO_BOOKS && r.value.outside == |Below(needles, cutoff)| &&
      r.value.excluded == |needles| - |Below(needles, cutoff)|
  {
    clips := [];
    var eligible := Below(needles, cutoff);
    var consensus := C.SuggestGatherBand(Radials(eligible), fraction);
    if consensus.InputError? {
      report := C.Report(None, 0, 0, []);
      return InputError, clips, report;
    }
    report := consensus.value;
    var chosen := if band.None? then consensus.value.band else band;
    if chosen.None? {
      return Ok(Gathered(chosen, consensus.value, NO_BOOKS, |eligible|, |needles| - |eligible|)), clips, report;
    }
    if !Usable(chosen.value) {
      return InputError, clips, report;
    }
    var swept;
    PointIsBelow(needles, cutoff);
    swept, clips := Sweep(Job(eligible, centre, chosen.value.0, chosen.value.1, keyOf, root));
    if swept.InputError? {
      return InputError, clips, report;
    }
    var b := swept.value;
    BooksAreRight(Job(eligible, centre, chosen.value.0, chosen.value.1, keyOf, root), clips);
    BooksArePlain(RailOf(Job(eligible, centre, chosen.value.0, chosen.value.1, keyOf, root)), clips);
    r := Ok(Gathered(chosen, consensus.value, b, |eligible| - b.intersecting, |needles| - |eligible|));
  }

  // ----- the books in plain terms

  /** The places (needle, piece) whose middle has the key. */
  ghost function Places(rail: Rail, clips: seq<seq<Piece>>, key: Key): set<(nat, nat)> {
    set i: nat, k: nat | i < |clips| && k < |clips[i]|
      && rail.keyOf(i, (clips[i][k].first + clips[i][k].last) / 2.0) == key :: (i, k)
  }

  ghost function AllPlaces(clips: seq<seq<Piece>>): set<(nat, nat)> {
    set i: nat, k: nat | i < |clips| && k < |clips[i]| :: (i, k)
  }

  predicate Earlier(a: (nat, nat), b: (nat, nat)) { a.0 < b.0 || (a.0 == b.0 && a.1 < b.1) }

  /** The first of the places. */
  ghost predicate Leads(places: set<(nat, nat)>, place: (nat, nat)) {
    place in places && forall p :: p in places ==> !Earlier(p, place)
  }

  /** The row is that of the first place with its key, and counts all of them. */
  ghost predicate IsFirst(rail: Rail, clips: seq<seq<Piece>>, key: Key, row: Parked) {
    && Leads(Places(rail, clips, key), (row.source, row.branch))
    && row.piece == clips[row.source][row.branch] && row.fraction == (row.piece.first + row.piece.last) / 2.0
    && row.radius == rail.radius(row.source, row.fraction) && row.copies == |Places(rail, clips, key)|
  }

  /** A row for every key. */
  ghost predicate RowsFirst(rail: Rail, clips: seq<seq<Piece>>, rows: map<Key, Parked>) {
    && (forall key :: key in rows <==> Places(rail, clips, key) != {})
    && (forall key :: key in rows ==> IsFirst(rail, clips, key, rows[key]))
  }

  /** The order of first appearance. */
  ghost predicate InOrder(order: seq<Key>, rows: map<Key, Parked>) {
    forall i, j :: 0 <= i < j < |order| && order[i] in rows && order[j] in rows ==>
      Earlier((rows[order[i]].source, rows[order[i]].branch), (rows[order[j]].source, rows[order[j]].branch))
  }

  /** A row for every key, in the order of first appearance; the counters are the numbers of places and of repeats. */
  ghost predicate PlainRows(rail: Rail, clips: seq<seq<Piece>>, b: Books) {
    && Listed(b.order, b.rows) && RowsFirst(rail, clips, b.rows) && InOrder(b.order, b.rows)
    && Counted(clips, b)
  }

  ghost predicate Counted(clips: seq<seq<Piece>>, b: Books) {
    b.intersections == |AllPlaces(clips)| && b.duplicates == b.intersections - |b.order|
  }

  ghost predicate Plain(rail: Rail, clips: seq<seq<Piece>>, b: Books) {
    PlainRows(rail, clips, b) && b.intersecting == |set i: nat | i < |clips| && clips[i] != []|
  }

  lemma OnePlaceMore(rail: Rail, clips: seq<seq<Piece>>, pieces: seq<Piece>, piece: Piece, key: Key)
    ensures var before, after := clips + [pieces], clips + [pieces + [piece]];
      && Places(rail, after, key) == Places(rail, before, key) +
           (if rail.keyOf(|clips|, Mid(piece.first, piece.last)) == key then {(|clips|, |pieces|)} else {})
      && AllPlaces(after) == AllPlaces(before) + {(|clips|, |pieces|)}
      && (|clips|, |pieces|) !in AllPlaces(before) && Places(rail, before, key) <= AllPlaces(before)
      && (forall p :: p in AllPlaces(before) ==> Earlier(p, (|clips|, |pieces|)))
  {
    var before, after := clips + [pieces], clips + [pieces + [piece]];
    forall i: nat, k: nat | i < |before| && k < |before[i]| ensures after[i][k] == before[i][k] {}
    assert after[|clips|][|pieces|] == piece;
  }

  /** A row elsewhere is not touched by a new place with another key. */
  lemma FirstElsewhere(rail: Rail, clips: seq<seq<Piece>>, pieces: seq<Piece>, piece: Piece, key: Key, row: Parked)
    requires IsFirst(rail, clips + [pieces], key, row) && rail.keyOf(|clips|, Mid(piece.first, piece.last)) != key
    ensures IsFirst(rail, clips + [pieces + [piece]], key, row)
  {
    OnePlaceMore(rail, clips, pieces, piece, key);
    SamePiece(clips, pieces, piece, row.source, row.branch);
  }

  lemma SamePiece(clips: seq<seq<Piece>>, pieces: seq<Piece>, piece: Piece, i: nat, k: nat)
    requires i < |clips + [pieces]| && k < |(clips + [pieces])[i]|
    ensures (clips + [pieces + [piece]])[i][k] == (clips + [pieces])[i][k]
  {
  }

  lemma OneMore(places: set<(nat, nat)>, more: set<(nat, nat)>, p: (nat, nat))
    requires more == places + {p} && p !in places
    ensures |more| == |places| + 1
    ensures forall place :: Leads(places, place) && Earlier(place, p) ==> Leads(more, place)
  {
  }

  lemma FirstAgain(rail: Rail, clips: seq<seq<Piece>>, pieces: seq<Piece>, piece: Piece, key: Key, row: Parked)
    requires IsFirst(rail, clips + [pieces], key, row) && rail.keyOf(|clips|, Mid(piece.first, piece.last)) == key
    ensures IsFirst(rail, clips + [pieces + [piece]], key, row.(copies := row.copies + 1))
  {
    OnePlaceMore(rail, clips, pieces, piece, key);
    SamePiece(clips, pieces, piece, row.source, row.branch);
    OneMore(Places(rail, clips + [pieces], key), Places(rail, clips + [pieces + [piece]], key), (|clips|, |pieces|));
    assert Earlier((row.source, row.branch), (|clips|, |pieces|));
  }

  lemma FirstOfKey(rail: Rail, clips: seq<seq<Piece>>, pieces: seq<Piece>, piece: Piece, key: Key, row: Parked)
    requires Places(rail, clips + [pieces], key) == {} && rail.keyOf(|clips|, Mid(piece.first, piece.last)) == key
    requires var fraction := Mid(piece.first, piece.last);
      row == Parked(|clips|, |pieces|, piece, fraction, rail.radius(|clips|, fraction), 1)
    ensures IsFirst(rail, clips + [pieces + [piece]], key, row)
  {
    OnePlaceMore(rail, clips, pieces, piece, key);
  }

  lemma EnteredRows(rail: Rail, clips: seq<seq<Piece>>, pieces: seq<Piece>, piece: Piece, b: Books)
    requires RowsFirst(rail, clips + [pieces], b.rows)
    ensures RowsFirst(rail, clips + [pieces + [piece]], Entered(rail, |clips|, |pieces|, piece, b).rows)
  {
    var rows := Entered(rail, |clips|, |pieces|, piece, b).rows;
    var now := rail.keyOf(|clips|, Mid(piece.first, piece.last));
    forall key ensures key in rows <==> Places(rail, clips + [pieces + [piece]], key) != {} {
      OnePlaceMore(rail, clips, pieces, piece, key);
    }
    forall key | key in rows ensures IsFirst(rail, clips + [pieces + [piece]], key, rows[key]) {
      if key != now {
        FirstElsewhere(rail, clips, pieces, piece, key, b.rows[key]);
      } else if key in b.rows {
        FirstAgain(rail, clips, pieces, piece, key, b.rows[key]);
      } else {
        FirstOfKey(rail, clips, pieces, piece, key, rows[key]);
      }
    }
  }

  lemma RowsAreEarlier(rail: Rail, clips: seq<seq<Piece>>, pieces: seq<Piece>, b: Books, key: Key)
    requires RowsFirst(rail, clips + [pieces], b.rows) && key in b.rows
    ensures Earlier((b.rows[key].source, b.rows[key].branch), (|clips|, |pieces|))
  {
    assert IsFirst(rail, clips + [pieces], key, b.rows[key]);
    OnePlaceMore(rail, clips, pieces, Piece(0.0, 0.0), key);
  }

  lemma OrderGrows(order: seq<Key>, rows: map<Key, Parked>, now: Key, row: Parked)
    requires InOrder(order, rows) && now !in rows && (forall i :: 0 <= i < |order| ==> order[i] in rows)
    requires forall key :: key in rows ==> Earlier((rows[key].source, rows[key].branch), (row.source, row.branch))
    ensures InOrder(order + [now], rows[now := row])
  {
  }

  lemma OrderStays(order: seq<Key>, rows: map<Key, Parked>, key: Key, copies: nat)
    requires InOrder(order, rows) && key in rows
    ensures InOrder(order, rows[key := rows[key].(copies := copies)])
  {
  }

  lemma EnteredOrder(rail: Rail, clips: seq<seq<Piece>>, pieces: seq<Piece>, piece: Piece, b: Books)
    requires Listed(b.order, b.rows) && RowsFirst(rail, clips + [pieces], b.rows) && InOrder(b.order, b.rows)
    ensures var b' := Entered(rail, |clips|, |pieces|, piece, b);
      Listed(b'.order, b'.rows) && InOrder(b'.order, b'.rows)
  {
    var fraction := Mid(piece.first, piece.last);
    var now := rail.keyOf(|clips|, fraction);
    if now in b.rows {
      OrderStays(b.order, b.rows, now, b.rows[now].copies + 1);
    } else {
      var row := Parked(|clips|, |pieces|, piece, fraction, rail.radius(|clips|, fraction), 1);
      NewKey(b.order, b.rows, now, row);
      forall key | key in b.rows ensures Earlier((b.rows[key].source, b.rows[key].branch), (row.source, row.branch)) {
        RowsAreEarlier(rail, clips, pieces, b, key);
      }
      OrderGrows(b.order, b.rows, now, row);
    }
  }

  lemma EnteredCounters(rail: Rail, clips: seq<seq<Piece>>, pieces: seq<Piece>, piece: Piece, b: Books)
    requires Counted(clips + [pieces], b)
    ensures Counted(clips + [pieces + [piece]], Entered(rail, |clips|, |pieces|, piece, b))
  {
    OnePlaceMore(rail, clips, pieces, piece, "");
    OneMore(AllPlaces(clips + [pieces]), AllPlaces(clips + [pieces + [piece]]), (|clips|, |pieces|));
  }

  lemma EnteredIsPlain(rail: Rail, clips: seq<seq<Piece>>, pieces: seq<Piece>, piece: Piece, b: Books)
    requires PlainRows(rail, clips + [pieces], b)
    ensures PlainRows(rail, clips + [pieces + [piece]], Entered(rail, |clips|, |pieces|, piece, b))
  {
    EnteredRows(rail, clips, pieces, piece, b);
    EnteredOrder(rail, clips, pieces, piece, b);
    EnteredCounters(rail, clips, pieces, piece, b);
  }

  lemma NoPiecesMore(rail: Rail, clips: seq<seq<Piece>>, b: Books)
    requires PlainRows(rail, clips, b)
    ensures PlainRows(rail, clips + [[]], b)
  {
    forall key ensures Places(rail, clips + [[]], key) == Places(rail, clips, key) { NoPlaceMore(rail, clips, key); }
    NoPlaceMore(rail, clips, "");
    forall key | key in b.rows ensures IsFirst(rail, clips + [[]], key, b.rows[key]) {
      assert IsFirst(rail, clips, key, b.rows[key]);
    }
  }

  lemma NoPlaceMore(rail: Rail, clips: seq<seq<Piece>>, key: Key)
    ensures Places(rail, clips + [[]], key) == Places(rail, clips, key) && AllPlaces(clips + [[]]) == AllPlaces(clips)
  {
  }

  lemma LastIsPlain(rail: Rail, clips: seq<seq<Piece>>, pieces: seq<Piece>, before: Books)
    requires pieces != [] && PlainRows(rail, clips + [pieces[..|pieces| - 1]], before)
    ensures PlainRows(rail, clips + [pieces], Entered(rail, |clips|, |pieces| - 1, pieces[|pieces| - 1], before))
  {
    var n := |pieces| - 1;
    assert pieces[..n] + [pieces[n]] == pieces;
    EnteredIsPlain(rail, clips, pieces[..n], pieces[n], before);
  }

  lemma {:induction false} EnteredAllIsPlain(rail: Rail, clips: seq<seq<Piece>>, pieces: seq<Piece>, b: Books)
    requires PlainRows(rail, clips, b)
    ensures PlainRows(rail, clips + [pieces], EnteredAll(rail, |clips|, pieces, b))
  {
    if pieces == [] {
      NoPiecesMore(rail, clips, b);
    } else {
      var n := |pieces| - 1;
      var before := EnteredAll(rail, |clips|, pieces[..n], b);
      EnteredAllIsPlain(rail, clips, pieces[..n], b);
      LastIsPlain(rail, clips, pieces, before);
    }
  }

  /** The books are those of the places: the rows of the loop, described without it. */
  lemma {:induction false} BooksArePlain(rail: Rail, clips: seq<seq<Piece>>)
    ensures Plain(rail, clips, BooksOf(rail, clips))
  {
    if clips != [] {
      var n := |clips| - 1;
      BooksArePlain(rail, clips[..n]);
      EnteredAllIsPlain(rail, clips[..n], clips[n], Met(clips[n], BooksOf(rail, clips[..n])));
      EnteredAllCounts(rail, n, clips[n], Met(clips[n], BooksOf(rail, clips[..n])));
      assert clips[..n] + [clips[n]] == clips;
      OneNeedleMore(clips);
    }
  }

  lemma OneNeedleMore(clips: seq<seq<Piece>>)
    requires clips != []
    ensures var n := |clips| - 1;
      |set i: nat | i < |clips| && clips[i] != []|
        == |set i: nat | i < |clips[..n]| && clips[..n][i] != []| + if clips[n] == [] then 0 else 1
  {
    var n := |clips| - 1;
    var before := set i: nat | i < |clips[..n]| && clips[..n][i] != [];
    assert (set i: nat | i < |clips| && clips[i] != []) == before + if clips[n] == [] then {} else {n};
  }

  /** What the rail reads off the needles. */
  lemma RailReads(j: Job, i: nat, t: real)
    requires i < |j.eligible|
    ensures var rail, segment := RailOf(j), j.eligible[i].segment;
      && rail.keyOf(i, t) == j.keyOf(j.eligible[i], t)
      && rail.radius(i, t) == Distance(segment, j.centre, t, j.root)
      && (rail.inside(i, t) <==> InBand(segment, j.centre, j.low, j.high, j.root, t))
  {
  }
}
