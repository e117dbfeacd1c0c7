/** Downloads one after another on one cache directory, each by a process of its own. */
module SourceCalls {
  import opened Options
  import opened SourceBoundary
  import opened SourceCache

  /** One process's call: its surroundings and what it asks. */
  datatype Call = Call(server: Server, request: Request, faults: nat -> Fault)

  ghost predicate Undisturbed(call: Call) { forall n {:trigger call.faults(n)} :: call.faults(n) == NoFault }

  /** The process dies at its k-th file-system step, and no step before raises. */
  ghost predicate DiesAt(call: Call, k: nat) {
    call.faults(k) == Dies && forall n {:trigger call.faults(n)} :: 0 <= n < k ==> call.faults(n) == NoFault
  }

  /** A root that is read back from its index unless its name does not survive the marker file. */
  ghost predicate Recovers(rules: Rules, disk: Disk, root: Root) {
    ValidatedRevision(rules, disk.snapshots, disk.index, root)
      == if Plain(rules, root.name) then Some(root.revision) else None
  }

  /** No index yet, or one that names a root to recover. */
  ghost predicate Settled(rules: Rules, disk: Disk) {
    disk.index.Some? ==>
      && disk.index.value.revision.Some? && disk.index.value.rootName.Some?
      && Recovers(rules, disk, Root(disk.index.value.revision.value, disk.index.value.rootName.value))
  }

  /** An index as this program writes it. */
  predicate WellFormed(index: Option<Index>) {
    index.Some? ==>
      && index.value.revision.Some? && index.value.rootName.Some? && index.value.digest.Some?
      && NameOk(index.value.rootName.value) && index.value.rootName.value != MARKER
      && (index.value.revision.value.Sha? ==> index.value.revision.value.digest == index.value.digest.value)
  }

  lemma FulfilledSettles(rules: Rules, w: Wish, refresh: bool, before: Disk)
    requires SpacesOk(rules) && Sound(rules, w, before) && !w.Refuse?
    ensures Settled(rules, Fulfilled(rules, w, refresh, before))
    ensures Recovers(rules, Fulfilled(rules, w, refresh, before), Answer(w).value)
  {
    FulfilledIsTrusted(rules, w, refresh, before);
  }

  lemma ReachableIsWellFormed(rules: Rules, w: Wish, refresh: bool, before: Disk, after: Disk)
    requires Sound(rules, w, before) && Reachable(rules, w, refresh, before, after) && WellFormed(before.index)
    ensures WellFormed(after.index)
  {
  }

  /** A well-formed index among whole snapshots leads nowhere exactly when its snapshot is gone, carries another name,
      or is not valid under the index's. */
  lemma DanglesIff(rules: Rules, disk: Disk)
    requires disk.index.Some? && WellFormed(disk.index)
    requires forall r :: r in disk.snapshots ==> WholeSlot(rules, disk.snapshots[r])
    ensures var r, name := disk.index.value.revision.value, disk.index.value.rootName.value;
      SnapshotRoot(rules, disk.snapshots, disk.index).None? <==>
        r !in disk.snapshots || !disk.snapshots[r].Folder? || !rules.valid(name, disk.snapshots[r].tree) ||
        forall n: string :: disk.snapshots[r].marker == Some(n + "\n") ==> ReadBack(rules, n) != name
  {
    var r, name := disk.index.value.revision.value, disk.index.value.rootName.value;
    if r in disk.snapshots {
      var n: string :| disk.snapshots[r].marker == Some(n + "\n") && rules.valid(n, disk.snapshots[r].tree);
      forall m: string | m + "\n" == n + "\n" ensures m == n {
        assert m == (m + "\n")[..|m|] && n == (n + "\n")[..|n|];
      }
    }
  }

  /** What one call does to the disk, whatever disturbs it. */
  method One(rules: Rules, boundary: Boundary, call: Call, before: Disk) returns (after: Disk, o: Outcome<Root>)
    requires SpacesOk(rules)
    ensures Follows(rules, WishOf(rules, boundary, call.server, call.request, before.index, before.snapshots),
                    call.request.refresh, before, after, o)
    ensures Undisturbed(call) ==> !o.Died? && IsCall(rules, boundary, call.server, call.request, before, after,
                                                     if o.Done? then Some(o.value) else None)
    ensures Undisturbed(call) ==>
      (o.Raised? <==> WishOf(rules, boundary, call.server, call.request, before.index, before.snapshots).Refuse?)
    ensures var w := WishOf(rules, boundary, call.server, call.request, before.index, before.snapshots);
      DiesAt(call, 5) && Displaces(rules, before.snapshots, w, call.request.refresh) ==>
        o.Died? && after == Disk(before.index, before.snapshots - {w.revision})
  {
    var cache := new Cache(rules, boundary, call.faults, before.index, before.snapshots);
    o := cache.DownloadSource(call.server, call.request);
    after := Disk(cache.index, cache.snapshots);
  }

  /** Any number of calls on an empty cache, each with its own faults: the snapshots are all whole and the index well
      formed; the root the last call returned is recovered; if no call was disturbed the index names a root to
      recover. */
  method Calls(rules: Rules, boundary: Boundary, calls: seq<Call>) returns (disk: Disk, last: Option<Outcome<Root>>)
    requires SpacesOk(rules)
    ensures forall r :: r in disk.snapshots ==> WholeSlot(rules, disk.snapshots[r])
    ensures WellFormed(disk.index)
    ensures last.Some? <==> calls != []
    ensures last.Some? && last.value.Done? ==> Recovers(rules, disk, last.value.value)
    ensures (forall k :: 0 <= k < |calls| ==> Undisturbed(calls[k])) ==> Settled(rules, disk)
  {
    disk, last := Disk(None, map[]), None;
    ghost var undisturbed := forall k :: 0 <= k < |calls| ==> Undisturbed(calls[k]);
    for k := 0 to |calls|
      invariant forall r :: r in disk.snapshots ==> WholeSlot(rules, disk.snapshots[r])
      invariant WellFormed(disk.index) && (last.Some? <==> k > 0)
      invariant last.Some? && last.value.Done? ==> Recovers(rules, disk, last.value.value)
      invariant undisturbed ==> Settled(rules, disk)
    {
      var call := calls[k];
      ghost var before := disk;
      ghost var w := WishOf(rules, boundary, call.server, call.request, disk.index, disk.snapshots);
      WishesAreSound(rules, boundary, call.server, call.request, disk.index, disk.snapshots);
      var o;
      disk, o := One(rules, boundary, call, disk);
      last := Some(o);
      ReachableIsSafe(rules, w, call.request.refresh, before, disk);
      ReachableIsWellFormed(rules, w, call.request.refresh, before, disk);
      if o.Done? {
        FulfilledSettles(rules, w, call.request.refresh, before);
      } else if undisturbed {
        assert w.Refuse? && disk == before;
      }
    }
  }

  // ----- a root that is not recovered

  const SPACED := " elesim"

  lemma SpacedIsAccepted(b: Boundary, content: string)
    requires PathAllowed(b, SETUP_FILE)
    ensures Accepts(b, [Member(Join([SPACED] + SETUP_FILE), Regular, content)], SPACED)
  {
    assert CleanPart(SPACED) && SPACED != ".." by { assert |SPACED| == 7; }
    SingleFile(b, SPACED, content);
  }

  /** The answer that brings an archive, and a call for it. */
  function Offer(digest: string, archive: seq<Member>): Reply { Content(None, None, digest, archive, "") }

  function CallFor(reply: Reply, refresh: bool, faults: nat -> Fault): Call {
    Call(Server((_, _) => reply, Refused), Request(false, None, "", refresh), faults)
  }

  lemma WishFor(rules: Rules, boundary: Boundary, archive: seq<Member>, top: string, digest: string, refresh: bool,
                faults: nat -> Fault, disk: Disk)
    requires SpacesOk(rules) && Accepts(boundary, archive, top)
    requires rules.valid(top, TreeOf(Files(boundary, archive)))
    ensures var call := CallFor(Offer(digest, archive), refresh, faults);
      var w := WishOf(rules, boundary, call.server, call.request, disk.index, disk.snapshots);
      && Sound(rules, w, disk) && (w.Refuse? <==> top == MARKER)
      && (top != MARKER ==> w.Install? && w.revision == Sha(digest) && w.name == top)
  {
    var reply := Offer(digest, archive);
    var call := CallFor(reply, refresh, faults);
    OneTop(boundary, archive, top);
    assert WishOf(rules, boundary, call.server, call.request, disk.index, disk.snapshots)
        == InstallWish(rules, boundary, reply, call.request, None);
    WishesAreSound(rules, boundary, call.server, call.request, disk.index, disk.snapshots);
  }

  /** A first download of an accepted archive, with no fault: its root is returned, and recovered exactly when the name
      of its top-level directory is plain; only a directory named like the marker file raises. */
  method FirstDownload(rules: Rules, boundary: Boundary, archive: seq<Member>, ghost top: string, digest: string)
    returns (disk: Disk, o: Outcome<Root>)
    requires SpacesOk(rules) && Accepts(boundary, archive, top)
    requires rules.valid(top, TreeOf(Files(boundary, archive)))
    ensures top == MARKER ==> o.Raised? && disk == Disk(None, map[])
    ensures top != MARKER ==> o == Done(Root(Sha(digest), top))
    ensures top != MARKER ==>
      (ValidatedRevision(rules, disk.snapshots, disk.index, o.value).Some? <==> Plain(rules, top))
  {
    var call := CallFor(Offer(digest, archive), false, _ => NoFault);
    WishFor(rules, boundary, archive, top, digest, false, call.faults, Disk(None, map[]));
    if top != MARKER {
      FulfilledSettles(rules, WishOf(rules, boundary, call.server, call.request, None, map[]), false,
                       Disk(None, map[]));
    }
    assert Undisturbed(call);
    disk, o := One(rules, boundary, call, Disk(None, map[]));
  }

  /** A codeload call for an archive with a comment, on an empty cache, with no fault. */
  function CodeloadCall(digest: string, archive: seq<Member>, comment: string, ref: Option<string>,
                        tail: string): Call {
    Call(Server((_, _) => Content(None, None, digest, archive, comment), Refused), Request(true, ref, tail, false),
         _ => NoFault)
  }

  /** The first download of a codeload archive whose comment names a commit: its root has that commit for a revision,
      unless the request pins another one, and then the call raises and leaves the cache empty. */
  method FirstCommit(rules: Rules, boundary: Boundary, archive: seq<Member>, ghost top: string, digest: string,
                     comment: string, ghost commit: string, ref: Option<string>, tail: string)
    returns (disk: Disk, o: Outcome<Root>)
    requires SpacesOk(rules) && DigitsShow(rules) && NamesCommit(rules, comment, commit)
    requires Accepts(boundary, archive, top) && top != MARKER && rules.valid(top, TreeOf(Files(boundary, archive)))
    ensures var request := Request(true, ref, tail, false);
      if exists c :: Pins(rules, request, c) && c != commit then o.Raised? && disk == Disk(None, map[])
      else o == Done(Root(Git(commit), top))
  {
    var call := CodeloadCall(digest, archive, comment, ref, tail);
    OneTop(boundary, archive, top);
    CommitsAreNamed(rules, true, ref, tail, comment, digest, commit);
    forall c ensures ImmutableCommit(rules, true, ref, tail) == Some(c) <==> Pins(rules, call.request, c) {
      CommitsAreNamed(rules, true, ref, tail, comment, digest, c);
    }
    assert Undisturbed(call);
    ghost var reply := call.server.first(None, None);
    assert WishOf(rules, boundary, call.server, call.request, None, map[])
        == InstallWish(rules, boundary, reply, call.request, ImmutableCommit(rules, true, ref, tail));
    disk, o := One(rules, boundary, call, Disk(None, map[]));
  }

  /** The same archive is downloaded and then refreshed by a process that dies between the two renames: the index is
      unchanged, and the root it led to is gone. */
  method RefreshLosesRoot(rules: Rules, boundary: Boundary, archive: seq<Member>, top: string, digest: string)
    returns (before: Disk, after: Disk)
    requires SpacesOk(rules) && Accepts(boundary, archive, top) && top != MARKER && Plain(rules, top)
    requires rules.valid(top, TreeOf(Files(boundary, archive)))
    ensures SnapshotRoot(rules, before.snapshots, before.index) == Some(Root(Sha(digest), top))
    ensures after.index == before.index && SnapshotRoot(rules, after.snapshots, after.index) == None
  {
    var first, second;
    before, first := FirstDownload(rules, boundary, archive, top, digest);
    var call := CallFor(Offer(digest, archive), true, n => if n == 5 then Dies else NoFault);
    WishFor(rules, boundary, archive, top, digest, true, call.faults, before);
    ResolvedIsPlain(rules, before.snapshots, before.index);
    assert DiesAt(call, 5);
    after, second := One(rules, boundary, call, before);
  }

  /** An archive whose top-level directory is " elesim" is extracted, installed and returned, and its root has no
      validated revision when the index is read back. */
  method SpacedRootIsLost(rules: Rules, boundary: Boundary, content: string, digest: string)
    returns (disk: Disk, o: Outcome<Root>)
    requires SpacesOk(rules) && rules.space(' ') && PathAllowed(boundary, SETUP_FILE)
    requires rules.valid(SPACED, TreeOf(map[[SPACED] + SETUP_FILE := content]))
    ensures o == Done(Root(Sha(digest), SPACED))
    ensures ValidatedRevision(rules, disk.snapshots, disk.index, o.value) == None
  {
    SpacedIsAccepted(boundary, content);
    SingleFile(boundary, SPACED, content);
    disk, o := FirstDownload(rules, boundary, [Member(Join([SPACED] + SETUP_FILE), Regular, content)], SPACED, digest);
    assert !Plain(rules, SPACED) by { assert SPACED[0] == ' '; }
  }
}
