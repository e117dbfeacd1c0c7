/** TableCheckpoint as a protocol: any number of writers of one table contend for its lock, save through a temporary
    file and may fail or crash between any two file steps (workbench/research/support/hugmap.py). */
module TableCheckpoint {
  import opened Options

  /** A file while it is being written, and after. */
  datatype Content<Doc> = Torn | Whole(doc: Doc)

  /** Where a writer stands: before the lock, holding it before the existence checks, between saves, and within one save
      with its temporary file: being written, flushed, hard-linked to the path, being removed after a failure. */
  datatype Stage<Doc> =
    | Waiting
    | Locked
    | Ready(published: bool)
    | Writing(published: bool, temp: nat, doc: Doc)
    | Flushed(published: bool, temp: nat, doc: Doc)
    | Linked(temp: nat)
    | Failing(published: bool, temp: nat)
    | Gone

  datatype Writer<Doc> = Writer(resume: bool, stage: Stage<Doc>)

  /** The table's path and who wrote it, the temporary files, the lock's holder and the writers. */
  datatype State<Doc> = State(path: Option<Content<Doc>>, author: Option<nat>, temps: map<nat, Content<Doc>>,
                              holder: Option<nat>,
                              writers: seq<Writer<Doc>>)

  /** A step: Enter tries the lock, Check decides between going on and the two file errors, Begin to Unlink are the file
      operations of one save, Raise a failing one, CleanUp what a failed save does last, Leave gives up the lock, Crash
      the death of the process. After a failed save the writer may save again. */
  datatype Action<Doc> = Enter | Check | Begin(doc: Doc,
                                               temp: nat) | Flush | Publish | Unlink | Raise | CleanUp | Leave | Crash

  predicate Holds(stage: Stage) { !stage.Waiting? && !stage.Gone? }

  function Moved<Doc>(s: State<Doc>, p: nat, stage: Stage<Doc>): State<Doc>
    requires p < |s.writers|
  {
    s.(writers := s.writers[p := s.writers[p].(stage := stage)])
  }

  /** Out, with the lock released by the writer or by the operating system. */
  function Released<Doc>(s: State<Doc>, p: nat): State<Doc>
    requires p < |s.writers|
  {
    Moved(s, p, Gone).(holder := if s.holder == Some(p) then None else s.holder)
  }

  /** The step of writer p, if it can be taken. */
  function Next<Doc>(s: State<Doc>, p: nat, a: Action<Doc>): Option<State<Doc>>
    requires p < |s.writers|
  {
    var w := s.writers[p];
    match (w.stage, a)
    case (Waiting, Enter) => Some(if s.holder.None? then Moved(s, p, Locked).(holder := Some(p)) else Moved(s, p, Gone))
    case (Locked, Check) =>
      Some(if s.path.Some? && !w.resume then Released(s, p)
           else if w.resume && s.path.None? then Released(s, p)
           else Moved(s, p, Ready(w.resume)))
    case (Ready(published), Begin(doc, temp)) =>
      if temp in s.temps then None
      else Some(Moved(s, p, Writing(published, temp, doc)).(temps := s.temps[temp := Torn]))
    case (Writing(published, temp, doc), Flush) =>
      Some(Moved(s, p, Flushed(published, temp, doc)).(temps := s.temps[temp := Whole(doc)]))
    case (Flushed(published, temp, doc), Publish) =>
      if temp !in s.temps then None
      else if published then
        Some(Moved(s, p, Ready(true)).(path := Some(s.temps[temp]), author := Some(p), temps := s.temps - {temp}))
      else if s.path.Some? then Some(Moved(s, p, Failing(false, temp)))
      else Some(Moved(s, p, Linked(temp)).(path := Some(s.temps[temp]), author := Some(p)))
    case (Linked(temp), Unlink) => Some(Moved(s, p, Ready(true)).(temps := s.temps - {temp}))
    case (Writing(published, temp, _), Raise) => Some(Moved(s, p, Failing(published, temp)))
    case (Flushed(published, temp, _), Raise) => Some(Moved(s, p, Failing(published, temp)))
    case (Linked(temp), Raise) => Some(Moved(s, p, Failing(false, temp)))
    case (Failing(published, temp), CleanUp) => Some(Moved(s, p, Ready(published)).(temps := s.temps - {temp}))
    case (Failing(published, _), Raise) => Some(Moved(s, p, Ready(published)))
    case (Ready(_), Leave) => Some(Released(s, p))
    case (_, Crash) => Some(Released(s, p))
    case _ => None
  }

  // ----- the invariant

  /** Between the check and giving up the lock, other than just after the hard link. */
  predicate Working(stage: Stage) { stage.Ready? || stage.Writing? || stage.Flushed? || stage.Failing? }

  /** A fresh writer past its check that does not know of a table of its own. */
  predicate Unpublished(w: Writer) { !w.resume && Working(w.stage) && !w.stage.published }

  /** A fresh writer that has published. */
  predicate Owns(w: Writer) { !w.resume && (w.stage.Linked? || (Working(w.stage) && w.stage.published)) }

  ghost predicate TempFits<Doc>(s: State<Doc>, w: Writer<Doc>) {
    && (w.stage.Flushed? ==> w.stage.temp in s.temps && s.temps[w.stage.temp] == Whole(w.stage.doc))
    && (w.resume ==> !w.stage.Linked? && (Working(w.stage) ==> w.stage.published))
  }

  ghost predicate WriterOk<Doc>(s: State<Doc>, p: nat)
    requires p < |s.writers|
  {
    var w := s.writers[p];
    && (Holds(w.stage) <==> s.holder == Some(p)) && TempFits(s, w)
    && (Unpublished(w) ==> s.path.None? || s.author == Some(p))
    && (Owns(w) ==> s.path.Some? && s.author == Some(p))
  }

  /** The path is empty or holds a whole document; one writer at most is past the lock; the others' claims hold. */
  ghost predicate Safe<Doc>(s: State<Doc>) {
    && (s.path.Some? ==> s.path.value.Whole?)
    && (s.holder.Some? ==> s.holder.value < |s.writers|)
    && (forall p :: 0 <= p < |s.writers| ==> WriterOk(s, p))
  }

  /** Before anyone started: a whole table of nobody here, or none. */
  ghost predicate Initial<Doc>(s: State<Doc>) {
    && (s.path.Some? ==> s.path.value.Whole?) && s.author.None? && s.holder.None?
    && forall p :: 0 <= p < |s.writers| ==> s.writers[p].stage.Waiting?
  }

  lemma OnlyHolder<Doc>(s: State<Doc>, p: nat, q: nat)
    requires Safe(s) && p < |s.writers| && q < |s.writers| && p != q && Holds(s.writers[p].stage)
    ensures !Holds(s.writers[q].stage)
  {
    assert WriterOk(s, p) && WriterOk(s, q);
  }

  lemma StepSelf<Doc>(s: State<Doc>, p: nat, a: Action<Doc>)
    requires Safe(s) && p < |s.writers| && Next(s, p, a).Some?
    ensures WriterOk(Next(s, p, a).value, p)
  {
    assert WriterOk(s, p);
  }

  lemma StepOther<Doc>(s: State<Doc>, p: nat, a: Action<Doc>, q: nat)
    requires Safe(s) && p < |s.writers| && q < |s.writers| && p != q && Next(s, p, a).Some?
    ensures WriterOk(Next(s, p, a).value, q)
  {
    assert WriterOk(s, p) && WriterOk(s, q);
  }

  /** Every step keeps the invariant. */
  lemma StepSafe<Doc>(s: State<Doc>, p: nat, a: Action<Doc>)
    requires Safe(s) && p < |s.writers| && Next(s, p, a).Some?
    ensures Safe(Next(s, p, a).value)
  {
    StepSelf(s, p, a);
    forall q | 0 <= q < |s.writers| && q != p ensures WriterOk(Next(s, p, a).value, q) {
      StepOther(s, p, a, q);
    }
    assert WriterOk(s, p);
  }

  /** What one step does to the path: nothing, or the whole document the stepping writer was saving replaces what was
      there; and a fresh run only ever replaces its own table. */
  lemma StepPath<Doc>(s: State<Doc>, p: nat, a: Action<Doc>)
    requires Safe(s) && p < |s.writers| && Next(s, p, a).Some?
    ensures var t := Next(s, p, a).value; var w := s.writers[p];
      || t.path == s.path
      || (&& a.Publish? && w.stage.Flushed? && t.path == Some(Whole(w.stage.doc)) && s.holder == Some(p)
          && (s.path.Some? && !w.resume ==> s.author == Some(p)))
  {
    assert WriterOk(s, p);
  }

  /** A fresh writer's hard link meets no table but its own, linked by a save that then failed to remove its temporary
      file; otherwise it succeeds. */
  lemma LinkSucceeds<Doc>(s: State<Doc>, p: nat)
    requires Safe(s) && p < |s.writers| && s.writers[p].stage.Flushed? && !s.writers[p].stage.published
    ensures Next(s, p, Publish).Some?
    ensures s.author != Some(p) ==> Next(s, p, Publish).value.writers[p].stage.Linked?
    ensures s.author == Some(p) && s.path.Some? ==>
      Next(s, p, Publish).value.writers[p].stage.Failing? && Next(s, p, Publish).value.path == s.path
  {
    assert WriterOk(s, p);
  }

  /** A save that fails after the first one lets the writer save again over its own table. */
  lemma SavesAgain<Doc>(s: State<Doc>, p: nat, doc: Doc, temp: nat)
    requires Safe(s) && p < |s.writers| && s.writers[p].stage.Failing? && s.writers[p].stage.published
    requires temp !in s.temps
    ensures var t := SavedWhole(Do(s, Move(p, CleanUp)), p, doc, temp);
      t.path == Some(Whole(doc)) && t.writers[p].stage == Ready(true)
  {
    var a := Do(s, Move(p, CleanUp));
    assert a.writers[p].stage == Ready(true) && temp !in a.temps;
    SaveReplaces(a, p, doc, temp);
  }

  /** One save without a failure. */
  function SavedWhole<Doc>(s: State<Doc>, p: nat, doc: Doc, temp: nat): (t: State<Doc>)
    ensures |t.writers| == |s.writers|
  {
    Do(Do(Do(s, Move(p, Begin(doc, temp))), Move(p, Flush)), Move(p, Publish))
  }

  lemma SaveReplaces<Doc>(s: State<Doc>, p: nat, doc: Doc, temp: nat)
    requires p < |s.writers| && s.writers[p].stage == Ready(true) && temp !in s.temps
    ensures var t := SavedWhole(s, p, doc, temp); t.path == Some(Whole(doc)) && t.writers[p].stage == Ready(true)
  {
    var b := Do(s, Move(p, Begin(doc, temp)));
    assert b.writers[p].stage == Writing(true, temp, doc) && b.temps == s.temps[temp := Torn];
    var c := Do(b, Move(p, Flush));
    assert c.writers[p].stage == Flushed(true, temp, doc) && c.temps[temp] == Whole(doc);
  }

  // ----- runs

  datatype Move<Doc> = Move(p: nat, action: Action<Doc>)

  /** A move; one that cannot be taken changes nothing. */
  function Do<Doc>(s: State<Doc>, m: Move<Doc>): (t: State<Doc>)
    ensures |t.writers| == |s.writers|
  {
    if m.p < |s.writers| && Next(s, m.p, m.action).Some? then Next(s, m.p, m.action).value else s
  }

  function Run<Doc>(s: State<Doc>, moves: seq<Move<Doc>>): (t: State<Doc>)
    ensures |t.writers| == |s.writers|
    decreases |moves|
  {
    if moves == [] then s else Do(Run(s, moves[..|moves| - 1]), moves[|moves| - 1])
  }

  lemma DoSafe<Doc>(s: State<Doc>, m: Move<Doc>)
    requires Safe(s)
    ensures Safe(Do(s, m))
  {
    if m.p < |s.writers| && Next(s, m.p, m.action).Some? {
      StepSafe(s, m.p, m.action);
    }
  }

  lemma InitialSafe<Doc>(s: State<Doc>)
    requires Initial(s)
    ensures Safe(s)
  {
    forall p | 0 <= p < |s.writers| ensures WriterOk(s, p) {}
  }

  lemma {:induction false} RunSafe<Doc>(s: State<Doc>, moves: seq<Move<Doc>>)
    requires Initial(s)
    ensures Safe(Run(s, moves))
  {
    if moves == [] {
      InitialSafe(s);
    } else {
      RunSafe(s, moves[..|moves| - 1]);
      DoSafe(Run(s, moves[..|moves| - 1]), moves[|moves| - 1]);
    }
  }

  /** Whatever happened before, a step of a fresh run that changes an existing table changes its own. */
  lemma FreshOverwritesOnlyItself<Doc>(s: State<Doc>, moves: seq<Move<Doc>>, p: nat, a: Action<Doc>)
    requires Initial(s) && p < |s.writers| && !Run(s, moves).writers[p].resume
    requires Next(Run(s, moves), p, a).Some? && Run(s, moves).path.Some?
    requires Next(Run(s, moves), p, a).value.path != Run(s, moves).path
    ensures Run(s, moves).author == Some(p)
  {
    RunSafe(s, moves);
    StepPath(Run(s, moves), p, a);
  }

  ghost function Begun<Doc>(moves: seq<Move<Doc>>): iset<Doc> {
    iset k | 0 <= k < |moves| && moves[k].action.Begin? :: moves[k].action.doc
  }

  ghost predicate Pending<Doc>(w: Writer<Doc>, docs: iset<Doc>) {
    (w.stage.Writing? ==> w.stage.doc in docs) && (w.stage.Flushed? ==> w.stage.doc in docs)
  }

  ghost predicate AllPending<Doc>(s: State<Doc>, docs: iset<Doc>) {
    forall p :: 0 <= p < |s.writers| ==> Pending(s.writers[p], docs)
  }

  ghost predicate OldOrNew<Doc>(first: Option<Content<Doc>>, path: Option<Content<Doc>>, docs: iset<Doc>) {
    path == first || (path.Some? && path.value.Whole? && path.value.doc in docs)
  }

  /** Whatever the interleaving and wherever writers crash, the path holds what it held at the start or one of the
      documents given to save, whole; it never becomes empty again. */
  lemma {:induction false} PathIsWhole<Doc>(s: State<Doc>, moves: seq<Move<Doc>>)
    requires Initial(s)
    ensures OldOrNew(s.path, Run(s, moves).path, Begun(moves)) && AllPending(Run(s, moves), Begun(moves))
  {
    if moves != [] {
      var rest := moves[..|moves| - 1];
      PathIsWhole(s, rest);
      RunSafe(s, rest);
      BegunGrows(moves);
      DoPath(s.path, Run(s, rest), moves[|moves| - 1], Begun(rest), Begun(moves));
    }
  }

  lemma DoPath<Doc>(first: Option<Content<Doc>>, s: State<Doc>, m: Move<Doc>, docs: iset<Doc>, more: iset<Doc>)
    requires Safe(s) && OldOrNew(first, s.path, docs) && AllPending(s, docs)
    requires docs <= more && (m.action.Begin? ==> m.action.doc in more)
    ensures OldOrNew(first, Do(s, m).path, more) && AllPending(Do(s, m), more)
  {
    forall p | 0 <= p < |s.writers| ensures Pending(s.writers[p], more) {
      assert Pending(s.writers[p], docs);
    }
    if m.p < |s.writers| && Next(s, m.p, m.action).Some? {
      StepPath(s, m.p, m.action);
      StepPending(s, m.p, m.action, more);
    }
  }

  lemma BegunGrows<Doc>(moves: seq<Move<Doc>>)
    requires moves != []
    ensures Begun(moves[..|moves| - 1]) <= Begun(moves)
    ensures moves[|moves| - 1].action.Begin? ==> moves[|moves| - 1].action.doc in Begun(moves)
  {
    var rest := moves[..|moves| - 1];
    forall d | d in Begun(rest) ensures d in Begun(moves) {
      var k :| 0 <= k < |rest| && rest[k].action.Begin? && rest[k].action.doc == d;
      assert moves[k] == rest[k];
    }
  }

  lemma StepPending<Doc>(s: State<Doc>, p: nat, a: Action<Doc>, docs: iset<Doc>)
    requires p < |s.writers| && Next(s, p, a).Some? && forall q :: 0 <= q < |s.writers| ==> Pending(s.writers[q], docs)
    requires a.Begin? ==> a.doc in docs
    ensures forall q :: 0 <= q < |s.writers| ==> Pending(Next(s, p, a).value.writers[q], docs)
  {
    assert Pending(s.writers[p], docs);
  }

  /** At most one writer is past the lock at any time. */
  lemma OneWriterAtATime<Doc>(s: State<Doc>, moves: seq<Move<Doc>>, p: nat, q: nat)
    requires Initial(s) && p < |s.writers| && q < |s.writers|
    requires Holds(Run(s, moves).writers[p].stage) && Holds(Run(s, moves).writers[q].stage)
    ensures p == q
  {
    RunSafe(s, moves);
    if p != q {
      OnlyHolder(Run(s, moves), p, q);
    }
  }
}
