/** The download cache of the installer (installer/bootstrap.py): a lock, an index, a conditional request, staged
    publishing with quarantine and rollback. Any file-system step may raise or be the last before a crash. */
module SourceCache {
  import opened Results
  import opened Options
  import opened SourceBoundary

  /** A canonical revision: a Git commit or the archive's own SHA-256. */
  datatype Revision = Git(commit: string) | Sha(digest: string)

  /** current.json as read back: the fields with a usable value. */
  datatype Index = Index(revision: Option<Revision>, rootName: Option<string>, digest: Option<string>,
                         etag: Option<string>,
                         lastModified: Option<string>)

  type Tree = map<Path, Node>

  /** The marker file, which lies beside the root in its snapshot. */
  const MARKER := ".elesim-source-complete"

  /** What a name in the snapshots directory leads to. */
  datatype Slot = Folder(marker: Option<string>, tree: Tree) | LinkSlot | FileSlot

  /** A source root: the snapshot it lies in and its own name. */
  datatype Root = Root(revision: Revision, name: string)

  /** What validation and text files depend on: the snapshot contract and the characters str.strip removes. */
  datatype Rules = Rules(valid: (string, Tree) -> bool, space: char -> bool)

  ghost predicate SpacesOk(rules: Rules) { rules.space('\n') && rules.space('\r') }

  // ----- the marker file

  /** Reading a text file back: a carriage return, alone or before a newline, becomes a newline. */
  function Newlines(s: string): string {
    if s == [] then []
    else if s[0] == '\r' then ['\n'] + Newlines(if |s| > 1 && s[1] == '\n' then s[2..] else s[1..])
    else [s[0]] + Newlines(s[1..])
  }

  function StripLeft(rules: Rules, s: string): string {
    if s != [] && rules.space(s[0]) then StripLeft(rules, s[1..]) else s
  }

  function StripRight(rules: Rules, s: string): string {
    if s != [] && rules.space(s[|s| - 1]) then StripRight(rules, s[..|s| - 1]) else s
  }

  function Strip(rules: Rules, s: string): string { StripRight(rules, StripLeft(rules, s)) }

  /** The name that a marker written for `name` is read back as. */
  function ReadBack(rules: Rules, name: string): string { Strip(rules, Newlines(name + "\n")) }

  /** No carriage return, and no white space at either end. */
  predicate Plain(rules: Rules, name: string) {
    name != "" && '\r' !in name && !rules.space(name[0]) && !rules.space(name[|name| - 1])
  }

  lemma {:induction false} NewlinesDropReturns(s: string)
    ensures '\r' !in Newlines(s)
  {
    if s != [] {
      if s[0] == '\r' {
        NewlinesDropReturns(if |s| > 1 && s[1] == '\n' then s[2..] else s[1..]);
      } else {
        NewlinesDropReturns(s[1..]);
      }
    }
  }

  lemma {:induction false} NewlinesKeep(s: string)
    requires '\r' !in s
    ensures Newlines(s) == s
  {
    if s != [] {
      assert s[0] in s;
      forall c | c in s[1..] ensures c in s {}
      NewlinesKeep(s[1..]);
    }
  }

  lemma {:induction false} LeftStripped(rules: Rules, s: string)
    ensures var t := StripLeft(rules, s); (t != [] ==> !rules.space(t[0])) && forall c :: c in t ==> c in s
  {
    if s != [] && rules.space(s[0]) {
      LeftStripped(rules, s[1..]);
    }
  }

  lemma {:induction false} RightStripped(rules: Rules, s: string)
    ensures var t := StripRight(rules, s); t <= s && (t != [] ==> !rules.space(t[|t| - 1]))
  {
    if s != [] && rules.space(s[|s| - 1]) {
      RightStripped(rules, s[..|s| - 1]);
    }
  }

  /** A root name survives the marker file exactly when it is plain. */
  lemma SurvivesIffPlain(rules: Rules, name: string)
    requires SpacesOk(rules) && name != ""
    ensures ReadBack(rules, name) == name <==> Plain(rules, name)
  {
    var text := Newlines(name + "\n");
    var left := StripLeft(rules, text);
    LeftStripped(rules, text);
    RightStripped(rules, left);
    if ReadBack(rules, name) == name {
      NewlinesDropReturns(name + "\n");
      assert name <= left;
      assert left[0] == name[0];
      forall c | c in name ensures c in text {
        var i :| 0 <= i < |name| && name[i] == c;
        assert left[i] == c;
      }
    }
    if Plain(rules, name) {
      NewlinesKeep(name + "\n");
      assert StripRight(rules, name) == name;
      assert (name + "\n")[..|name|] == name;
    }
  }

  /** A name that a marker does not give back. */
  lemma LeadingSpaceIsLost(rules: Rules)
    requires SpacesOk(rules) && rules.space(' ')
    ensures ReadBack(rules, " elesim") != " elesim"
  {
    SurvivesIffPlain(rules, " elesim");
  }

  /** What a marker reads as is plain. */
  lemma ReadIsPlain(rules: Rules, marker: string)
    requires SpacesOk(rules) && Strip(rules, Newlines(marker)) != ""
    ensures Plain(rules, Strip(rules, Newlines(marker)))
  {
    var text := Newlines(marker);
    var left := StripLeft(rules, text);
    var name := StripRight(rules, left);
    NewlinesDropReturns(marker);
    LeftStripped(rules, text);
    RightStripped(rules, left);
    assert name[0] == left[0];
    forall c | c in name ensures c in text {
      var i :| 0 <= i < |name| && name[i] == c;
      assert left[i] == c;
    }
  }

  // ----- revisions

  predicate IsHex(c: char) { '0' <= c <= '9' || 'a' <= c <= 'f' || 'A' <= c <= 'F' }

  function LowerHex(c: char): char {
    if c == 'A' then 'a' else if c == 'B' then 'b' else if c == 'C' then 'c'
    else if c == 'D' then 'd' else if c == 'E' then 'e' else if c == 'F' then 'f' else c
  }

  predicate FullCommit(s: string) { |s| == 40 && forall i :: 0 <= i < |s| ==> IsHex(s[i]) }

  function Lower(s: string): string { seq(|s|, i requires 0 <= i < |s| => LowerHex(s[i])) }

  /** The commit a request pins: a full commit given as the reference, or else ending the URL, of a codeload URL. */
  function ImmutableCommit(rules: Rules, codeload: bool, ref: Option<string>, tail: string): Option<string> {
    if !codeload then None
    else
      var candidate := if ref.Some? then Strip(rules, ref.value) else tail;
      if FullCommit(candidate) then Some(Lower(candidate)) else None
  }

  /** A trusted archive names its commit in a comment; any other is known by its digest. */
  function ArchiveRevision(rules: Rules, codeload: bool, comment: string, digest: string): Revision {
    if codeload && FullCommit(Strip(rules, comment)) then Git(Lower(Strip(rules, comment))) else Sha(digest)
  }

  // ----- what names a commit

  /** The commit c, in forty hexadecimal digits of either case. */
  ghost predicate Spells(text: string, c: string) {
    |text| == |c| == 40 && forall i {:trigger c[i]} :: 0 <= i < 40 ==> SameDigit(text[i], c[i])
  }

  /** A digit and the same digit, or a letter of either case and its small form. */
  ghost predicate SameDigit(x: char, d: char) {
    || ('0' <= d <= '9' && x == d)
    || ('a' <= d <= 'f' && (x == d || x as int == d as int - 'a' as int + 'A' as int))
  }

  ghost predicate Blank(rules: Rules, s: string) { forall i :: 0 <= i < |s| ==> rules.space(s[i]) }

  /** The commit with nothing but white space around it. */
  ghost predicate NamesCommit(rules: Rules, s: string, c: string) {
    exists before: string, text: string, after: string ::
      s == before + text + after && Blank(rules, before) && Blank(rules, after) && Spells(text, c)
  }

  /** No hexadecimal digit is white space. */
  ghost predicate DigitsShow(rules: Rules) {
    forall x, d {:trigger SameDigit(x, d)} :: SameDigit(x, d) ==> !rules.space(x)
  }

  lemma DigitLowers(x: char, d: char)
    ensures SameDigit(x, d) <==> IsHex(x) && LowerHex(x) == d
  {
  }

  lemma SpellsIff(text: string, c: string)
    ensures Spells(text, c) <==> FullCommit(text) && Lower(text) == c
  {
    if |text| == |c| == 40 {
      forall i | 0 <= i < 40 ensures SameDigit(text[i], c[i]) <==> IsHex(text[i]) && LowerHex(text[i]) == c[i] {
        DigitLowers(text[i], c[i]);
      }
    }
  }

  lemma {:induction false} LeftSplits(rules: Rules, s: string) returns (before: string)
    ensures s == before + StripLeft(rules, s) && Blank(rules, before)
  {
    before := "";
    if s != [] && rules.space(s[0]) {
      var rest := LeftSplits(rules, s[1..]);
      before := [s[0]] + rest;
    }
  }

  lemma {:induction false} RightSplits(rules: Rules, s: string) returns (after: string)
    ensures s == StripRight(rules, s) + after && Blank(rules, after)
  {
    after := "";
    if s != [] && rules.space(s[|s| - 1]) {
      var rest := RightSplits(rules, s[..|s| - 1]);
      after := rest + [s[|s| - 1]];
    }
  }

  lemma {:induction false} LeftPadded(rules: Rules, before: string, t: string)
    requires Blank(rules, before) && (t != "" ==> !rules.space(t[0]))
    ensures StripLeft(rules, before + t) == t
  {
    if before != "" {
      assert (before + t)[1..] == before[1..] + t;
      LeftPadded(rules, before[1..], t);
    } else {
      assert before + t == t;
    }
  }

  lemma {:induction false} RightPadded(rules: Rules, t: string, after: string)
    requires Blank(rules, after) && (t != "" ==> !rules.space(t[|t| - 1]))
    ensures StripRight(rules, t + after) == t
  {
    if after != "" {
      var n := |after| - 1;
      assert (t + after)[..|t| + n] == t + after[..n];
      RightPadded(rules, t, after[..n]);
    } else {
      assert t + after == t;
    }
  }

  /** What remains of a text without the white space around it is the commit exactly when the text names it. */
  lemma StrippedNames(rules: Rules, s: string, c: string)
    requires DigitsShow(rules)
    ensures NamesCommit(rules, s, c) <==> Spells(Strip(rules, s), c)
  {
    if Spells(Strip(rules, s), c) {
      var before := LeftSplits(rules, s);
      var after := RightSplits(rules, StripLeft(rules, s));
      assert s == before + Strip(rules, s) + after;
    }
    if before: string, text: string, after: string :|
         s == before + text + after && Blank(rules, before) && Blank(rules, after) && Spells(text, c) {
      assert SameDigit(text[0], c[0]) && SameDigit(text[39], c[39]);
      assert s == before + (text + after);
      LeftPadded(rules, before, text + after);
      RightPadded(rules, text, after);
    }
  }

  /** A request pins a commit exactly when it is a codeload request whose reference, or without one the end of whose
      URL, names it; an archive's revision is that of its comment exactly when it is a codeload archive whose comment
      names one, and otherwise its digest. */
  lemma CommitsAreNamed(rules: Rules, codeload: bool, ref: Option<string>, tail: string, comment: string,
                        digest: string, c: string)
    requires DigitsShow(rules)
    ensures ImmutableCommit(rules, codeload, ref, tail) == Some(c) <==>
              codeload && if ref.Some? then NamesCommit(rules, ref.value, c) else Spells(tail, c)
    ensures ArchiveRevision(rules, codeload, comment, digest) == Git(c) <==> codeload && NamesCommit(rules, comment, c)
    ensures var r := ArchiveRevision(rules, codeload, comment, digest); r.Git? || r == Sha(digest)
  {
    if ref.Some? {
      StrippedNames(rules, ref.value, c);
      SpellsIff(Strip(rules, ref.value), c);
    } else {
      SpellsIff(tail, c);
    }
    StrippedNames(rules, comment, c);
    SpellsIff(Strip(rules, comment), c);
  }

  // ----- resolving the index

  predicate NameOk(name: string) {
    name != "." && name != ".." && Parts(name) == [name] && (name == "" || name[0] != '/')
  }

  /** The top-level directory of an accepted archive is a usable root name. */
  lemma TopIsName(b: Boundary, members: seq<Member>, top: string)
    requires Tops(members) == {top}
    ensures NameOk(top) && top != ""
  {
    assert top in Tops(members);
    var i :| 0 <= i < |members| && top in TopOf(members[i]);
    var m := members[i];
    assert top in Parts(m.name) && top != "..";
    PartsAreClean(m.name, top);
    SplitWhole(top, "");
    assert "" + top == top;
    assert top[0] in top;
  }

  /** _snapshot_root: the root an index leads to, fully validated again, or none; a root named like the marker file
      cannot lie beside it. */
  function SnapshotRoot(rules: Rules, snapshots: map<Revision, Slot>, index: Option<Index>): Option<Root> {
    if index.None? then None
    else
      var i := index.value;
      if i.revision.None? || i.rootName.None? || !NameOk(i.rootName.value) || i.digest.None? then None
      else if i.rootName.value == MARKER then None
      else if i.revision.value.Sha? && i.revision.value.digest != i.digest.value then None
      else if i.revision.value !in snapshots || !snapshots[i.revision.value].Folder? then None
      else
        var slot := snapshots[i.revision.value];
        if slot.marker.None? || Strip(rules, Newlines(slot.marker.value)) != i.rootName.value then None
        else if !rules.valid(i.rootName.value, slot.tree) then None
        else Some(Root(i.revision.value, i.rootName.value))
  }

  /** _validated_source_revision: the revision, if the index still leads to this root. */
  function ValidatedRevision(rules: Rules, snapshots: map<Revision, Slot>, index: Option<Index>,
                             root: Root): Option<Revision> {
    if SnapshotRoot(rules, snapshots, index) == Some(root) then index.value.revision else None
  }

  /** A snapshot published whole: a complete marker beside a validated tree. */
  ghost predicate WholeSlot(rules: Rules, slot: Slot) {
    slot.Folder? && exists name: string ::
      slot.marker == Some(name + "\n") && rules.valid(name, slot.tree) && name != MARKER
  }

  /** What an index may be made to say: a revision that is there with a valid tree of its root name. */
  ghost predicate Leads(rules: Rules, snapshots: map<Revision, Slot>, index: Option<Index>) {
    && index.Some? && index.value.revision.Some? && index.value.rootName.Some?
    && index.value.revision.value in snapshots && snapshots[index.value.revision.value].Folder?
    && rules.valid(index.value.rootName.value, snapshots[index.value.revision.value].tree)
  }

  // ----- a run

  datatype Fault = NoFault | Raises | Dies

  datatype Outcome<T> = Done(value: T) | Raised | Died

  /** What the server answers; anything but content or 304 raises. */
  datatype Reply =
    | Refused
    | Unchanged(etag: Option<string>, lastModified: Option<string>)
    | Content(etag: Option<string>, lastModified: Option<string>, digest: string, archive: seq<Member>, comment: string)

  /** The answers to the first request, by its validators, and to an unconditional retry. */
  datatype Server = Server(first: (Option<string>, Option<string>) -> Reply, second: Reply)

  datatype Request = Request(codeload: bool, ref: Option<string>, tail: string, refresh: bool)

  /** The request asks for this commit and no other. */
  ghost predicate Pins(rules: Rules, request: Request, c: string) {
    request.codeload && if request.ref.Some? then NamesCommit(rules, request.ref.value, c) else Spells(request.tail, c)
  }

  /** The revision is the one pinned, if one is. */
  ghost predicate PinIsMet(rules: Rules, request: Request, revision: Revision) {
    && (forall c :: ImmutableCommit(rules, request.codeload, request.ref, request.tail) == Some(c) ==>
          revision == Git(c))
    && (DigitsShow(rules) ==> forall c :: Pins(rules, request, c) ==> revision == Git(c))
  }

  // ----- what a call is to do

  /** What an undisturbed call does: raise, return the cached root, renew its validators, or install an archive. */
  datatype Wish =
    | Refuse
    | Keep(root: Root)
    | Renew(root: Root, entry: Index)
    | Install(revision: Revision, name: string, tree: Tree, entry: Index)

  function Answer(w: Wish): Option<Root> {
    match w
    case Refuse => None
    case Keep(root) => Some(root)
    case Renew(root, _) => Some(root)
    case Install(revision, name, _, _) => Some(Root(revision, name))
  }

  /** The index after an install. */
  function EntryOf(revision: Revision, name: string, reply: Reply): Index
    requires reply.Content?
  {
    Index(Some(revision), Some(name), Some(reply.digest), reply.etag, reply.lastModified)
  }

  ghost function InstallWish(rules: Rules, b: Boundary, reply: Reply, request: Request, commit: Option<string>): Wish {
    if !reply.Content? then Refuse
    else if top :| Accepts(b, reply.archive, top) then
      var tree := TreeOf(Files(b, reply.archive));
      var revision := ArchiveRevision(rules, request.codeload, reply.comment, reply.digest);
      if !rules.valid(top, tree) || (commit.Some? && revision != Git(commit.value)) || top == MARKER then Refuse
      else
        Install(revision, top, tree, EntryOf(revision, top, reply))
    else Refuse
  }

  function Renewed(entry: Index, reply: Reply): Index
    requires reply.Unchanged?
  {
    entry.(etag := if reply.etag.Some? then reply.etag else entry.etag,
           lastModified := if reply.lastModified.Some? then reply.lastModified else entry.lastModified)
  }

  function Validators(request: Request, index: Option<Index>): (Option<string>, Option<string>) {
    if request.refresh || index.None? then (None, None) else (index.value.etag, index.value.lastModified)
  }

  ghost function WishOf(rules: Rules, b: Boundary, server: Server, request: Request, index: Option<Index>,
                        snapshots: map<Revision, Slot>): Wish {
    var commit := ImmutableCommit(rules, request.codeload, request.ref, request.tail);
    var cached := SnapshotRoot(rules, snapshots, index);
    if commit.Some? && cached.Some? && !request.refresh then
      if index.value.revision == Some(Git(commit.value)) then Keep(cached.value) else Refuse
    else
      var sent := Validators(request, index);
      var reply := server.first(sent.0, sent.1);
      if !reply.Unchanged? then InstallWish(rules, b, reply, request, commit)
      else if sent == (None, None) then Refuse
      else if cached.Some? then Renew(cached.value, Renewed(index.value, reply))
      else InstallWish(rules, b, server.second, request, commit)
  }

  /** The cache already holds a validated snapshot of this revision and name, which is left alone unless refreshing. */
  predicate Present(rules: Rules, snapshots: map<Revision, Slot>, w: Wish, refresh: bool)
    requires w.Install?
  {
    !refresh && SnapshotRoot(rules, snapshots, Some(w.entry)) == Some(Root(w.revision, w.name))
  }

  function Installed(rules: Rules, snapshots: map<Revision, Slot>, w: Wish, refresh: bool): map<Revision, Slot>
    requires w.Install?
  {
    if Present(rules, snapshots, w, refresh) then snapshots
    else snapshots[w.revision := Folder(Some(w.name + "\n"), w.tree)]
  }

  /** Another snapshot of the revision has to make room. */
  predicate Displaces(rules: Rules, snapshots: map<Revision, Slot>, w: Wish, refresh: bool) {
    w.Install? && w.revision in snapshots && !Present(rules, snapshots, w, refresh)
  }

  /** Index and snapshots of a cache. */
  datatype Disk = Disk(index: Option<Index>, snapshots: map<Revision, Slot>)

  /** The disk after an undisturbed call. */
  function Fulfilled(rules: Rules, w: Wish, refresh: bool, before: Disk): Disk {
    match w
    case Refuse => before
    case Keep(_) => before
    case Renew(_, entry) => Disk(Some(entry), before.snapshots)
    case Install(_, _, _, entry) => Disk(Some(entry), Installed(rules, before.snapshots, w, refresh))
  }

  // ----- an undisturbed call in plain terms

  /** The archive may be installed under this name. */
  ghost predicate Installable(rules: Rules, b: Boundary, reply: Reply, revision: Revision, commit: Option<string>,
                              top: string) {
    && reply.Content? && Accepts(b, reply.archive, top) && rules.valid(top, TreeOf(Files(b, reply.archive)))
    && top != MARKER && (commit.Some? ==> revision == Git(commit.value))
  }

  /** The revision's snapshot is the archive's tree beside its marker, or the one that was there if it is accepted as it
      is; the index names it; no other snapshot changes. */
  ghost predicate IsInstalled(rules: Rules, b: Boundary, reply: Reply, revision: Revision, top: string, refresh: bool,
                              before: Disk, after: Disk)
    requires reply.Content?
  {
    var entry := Index(Some(revision), Some(top), Some(reply.digest), reply.etag, reply.lastModified);
    var kept := !refresh && SnapshotRoot(rules, before.snapshots, Some(entry)) == Some(Root(revision, top));
    && after.index == Some(entry) && after.snapshots.Keys == before.snapshots.Keys + {revision}
    && (forall r :: r in before.snapshots && r != revision ==> after.snapshots[r] == before.snapshots[r])
    && (if kept then after.snapshots == before.snapshots
        else after.snapshots[revision] == Folder(Some(top + "\n"), TreeOf(Files(b, reply.archive))))
  }

  /** Content that may be installed is installed and answered, and anything else raises and changes nothing. */
  ghost predicate Takes(rules: Rules, b: Boundary, reply: Reply, request: Request, commit: Option<string>, before: Disk,
                        after: Disk, answer: Option<Root>) {
    var revision := if reply.Content? then ArchiveRevision(rules, request.codeload, reply.comment, reply.digest)
                    else Sha("");
    if answer.None? then after == before && forall top :: !Installable(rules, b, reply, revision, commit, top)
    else
      && answer.value.revision == revision && Installable(rules, b, reply, revision, commit, answer.value.name)
      && IsInstalled(rules, b, reply, revision, answer.value.name, request.refresh, before, after)
  }

  /** The index with the validators of the answer, where it has some, and otherwise as it was. */
  predicate IsRenewed(entry: Index, etag: Option<string>, lastModified: Option<string>, renewed: Index) {
    && renewed.revision == entry.revision && renewed.rootName == entry.rootName && renewed.digest == entry.digest
    && renewed.etag == (if etag.None? then entry.etag else etag)
    && renewed.lastModified == (if lastModified.None? then entry.lastModified else lastModified)
  }

  /** What a call makes of the server's first answer. */
  ghost predicate Handles(rules: Rules, b: Boundary, server: Server, reply: Reply, asked: bool, request: Request,
                          commit: Option<string>, before: Disk, after: Disk, answer: Option<Root>) {
    var cached := SnapshotRoot(rules, before.snapshots, before.index);
    match reply
    case Refused => after == before && answer == None
    case Content(_, _, _, _, _) => Takes(rules, b, reply, request, commit, before, after, answer)
    case Unchanged(etag, lastModified) =>
      if !asked then after == before && answer == None
      else if cached.None? then Takes(rules, b, server.second, request, commit, before, after, answer)
      else
        && answer == cached && after.snapshots == before.snapshots && after.index.Some? && before.index.Some?
        && IsRenewed(before.index.value, etag, lastModified, after.index.value)
  }

  /** A pinned commit that is cached is answered without a request, one that contradicts the cache raises; otherwise the
      validators of the index are sent unless refreshing, and the answer is handled. */
  ghost predicate IsCall(rules: Rules, b: Boundary, server: Server, request: Request, before: Disk, after: Disk,
                         answer: Option<Root>) {
    var commit := ImmutableCommit(rules, request.codeload, request.ref, request.tail);
    var cached := SnapshotRoot(rules, before.snapshots, before.index);
    if commit.Some? && cached.Some? && !request.refresh then
      after == before && answer == if cached.value.revision == Git(commit.value) then cached else None
    else if !request.refresh && before.index.Some?
            && (before.index.value.etag.Some? || before.index.value.lastModified.Some?) then
      Handles(rules, b, server, server.first(before.index.value.etag, before.index.value.lastModified), true, request,
              commit, before, after, answer)
    else Handles(rules, b, server, server.first(None, None), false, request, commit, before, after, answer)
  }

  lemma InstallTakes(rules: Rules, b: Boundary, reply: Reply, request: Request, commit: Option<string>, before: Disk)
    ensures var w := InstallWish(rules, b, reply, request, commit);
      Takes(rules, b, reply, request, commit, before, Fulfilled(rules, w, request.refresh, before), Answer(w))
  {
    if reply.Content? {
      forall top, other | Accepts(b, reply.archive, top) && Accepts(b, reply.archive, other) ensures top == other {
        assert top in Tops(reply.archive) && other in Tops(reply.archive);
      }
    }
  }

  lemma ReplyIsHandled(rules: Rules, b: Boundary, server: Server, request: Request, commit: Option<string>,
                       before: Disk, sent: (Option<string>, Option<string>), reply: Reply, w: Wish)
    requires var cached := SnapshotRoot(rules, before.snapshots, before.index);
      w == if !reply.Unchanged? then InstallWish(rules, b, reply, request, commit)
           else if sent == (None, None) then Refuse
           else if cached.Some? then Renew(cached.value, Renewed(before.index.value, reply))
           else InstallWish(rules, b, server.second, request, commit)
    ensures Handles(rules, b, server, reply, sent != (None, None), request, commit, before,
                    Fulfilled(rules, w, request.refresh, before), Answer(w))
  {
    InstallTakes(rules, b, reply, request, commit, before);
    InstallTakes(rules, b, server.second, request, commit, before);
  }

  /** What a call is meant to do, and the disk after it, are those of the plain description. */
  lemma WishIsCall(rules: Rules, b: Boundary, server: Server, request: Request, before: Disk)
    ensures var w := WishOf(rules, b, server, request, before.index, before.snapshots);
      IsCall(rules, b, server, request, before, Fulfilled(rules, w, request.refresh, before), Answer(w))
  {
    var commit := ImmutableCommit(rules, request.codeload, request.ref, request.tail);
    var cached := SnapshotRoot(rules, before.snapshots, before.index);
    if commit.None? || cached.None? || request.refresh {
      var sent := Validators(request, before.index);
      ReplyIsHandled(rules, b, server, request, commit, before, sent, server.first(sent.0, sent.1),
                     WishOf(rules, b, server, request, before.index, before.snapshots));
    }
  }

  /** The disks a disturbed call may leave: as before, all done, or installed but not indexed; and while a snapshot of
      the same revision is replaced, without it. */
  predicate Reachable(rules: Rules, w: Wish, refresh: bool, before: Disk, after: Disk) {
    || after == before
    || after == Fulfilled(rules, w, refresh, before)
    || (&& w.Install? && after.index == before.index
        && (|| after.snapshots == Installed(rules, before.snapshots, w, refresh)
            || (!Present(rules, before.snapshots, w, refresh) && after.snapshots == before.snapshots - {w.revision})))
  }

  /** A call leaves a reachable disk; when it returns a root, the wish is fulfilled and the root its answer. */
  predicate Follows(rules: Rules, w: Wish, refresh: bool, before: Disk, after: Disk, o: Outcome<Root>) {
    && Reachable(rules, w, refresh, before, after)
    && (o.Done? ==> after == Fulfilled(rules, w, refresh, before) && Answer(w) == Some(o.value))
  }

  lemma FollowedIsCall(rules: Rules, b: Boundary, server: Server, request: Request, before: Disk, after: Disk,
                       o: Outcome<Root>)
    requires var w := WishOf(rules, b, server, request, before.index, before.snapshots);
      && Follows(rules, w, request.refresh, before, after, o) && !o.Died?
      && (o.Raised? <==> w.Refuse?) && (o.Raised? ==> after == before)
    ensures IsCall(rules, b, server, request, before, after, if o.Done? then Some(o.value) else None)
  {
    WishIsCall(rules, b, server, request, before);
  }

  /** Whatever step a call breaks off at, the cached root is read back as before, or the index already names the new
      one, or a snapshot of the same revision was being replaced, on a refresh or by one of another name. */
  lemma FaultsKeepRoot(rules: Rules, w: Wish, refresh: bool, before: Disk, after: Disk, root: Root)
    requires Sound(rules, w, before) && Reachable(rules, w, refresh, before, after)
    requires SnapshotRoot(rules, before.snapshots, before.index) == Some(root)
    ensures
      || SnapshotRoot(rules, after.snapshots, after.index) == Some(root)
      || (w.Install? && after.index == Some(w.entry))
      || (w.Install? && w.revision == root.revision && (refresh || w.name != root.name))
  {
  }

  /** The index is as before, but no longer leads to its root. */
  ghost predicate LosesRoot(rules: Rules, before: Disk, after: Disk, root: Root) {
    after.index == before.index && SnapshotRoot(rules, after.snapshots, after.index) != Some(root)
  }

  /** A call that breaks off can leave an unchanged index that no longer leads to its root if and only if it was to
      install the same revision anew, on a refresh or under another name. */
  lemma RootCanBeLostIff(rules: Rules, w: Wish, refresh: bool, before: Disk, root: Root)
    requires SpacesOk(rules) && Sound(rules, w, before)
    requires SnapshotRoot(rules, before.snapshots, before.index) == Some(root)
    ensures (exists after :: Reachable(rules, w, refresh, before, after) && LosesRoot(rules, before, after, root))
       <==> w.Install? && w.revision == root.revision && (refresh || w.name != root.name)
  {
    ResolvedIsPlain(rules, before.snapshots, before.index);
    if w.Install? && w.revision == root.revision && (refresh || w.name != root.name) {
      var after := Disk(before.index, before.snapshots - {w.revision});
      assert Reachable(rules, w, refresh, before, after) && LosesRoot(rules, before, after, root);
    }
    if after :| Reachable(rules, w, refresh, before, after) && LosesRoot(rules, before, after, root) {
      if w.Install? {
        SurvivesIffPlain(rules, w.name);
      }
    }
  }

  /** Entries that differ in their validators at most. */
  predicate SameRoot(a: Index, b: Index) {
    a.revision == b.revision && a.rootName == b.rootName && a.digest == b.digest
  }

  predicate IndexesItself(w: Wish)
    requires w.Install?
  {
    && w.entry.revision == Some(w.revision) && w.entry.rootName == Some(w.name) && w.entry.digest.Some?
    && (w.revision.Sha? ==> w.revision.digest == w.entry.digest.value)
  }

  /** A wish that fits the disk it was made for. */
  ghost predicate Sound(rules: Rules, w: Wish, before: Disk) {
    match w
    case Refuse => true
    case Keep(root) => SnapshotRoot(rules, before.snapshots, before.index) == Some(root)
    case Renew(root, entry) =>
      SnapshotRoot(rules, before.snapshots, before.index) == Some(root) && SameRoot(entry, before.index.value)
    case Install(_, name, tree, _) =>
      IndexesItself(w) && rules.valid(name, tree) && NameOk(name) && name != "" && name != MARKER
  }

  /** What a call is to do fits the disk and the pinned commit. */
  lemma WishesAreSound(rules: Rules, b: Boundary, server: Server, request: Request, index: Option<Index>,
                       snapshots: map<Revision, Slot>)
    ensures var w := WishOf(rules, b, server, request, index, snapshots);
      && Sound(rules, w, Disk(index, snapshots))
      && forall c :: ImmutableCommit(rules, request.codeload, request.ref, request.tail) == Some(c) ==>
           w.Refuse? || Answer(w).value.revision == Git(c)
  {
    var sent := Validators(request, index);
    var commit := ImmutableCommit(rules, request.codeload, request.ref, request.tail);
    InstallsAreSound(rules, b, server.first(sent.0, sent.1), request, commit);
    InstallsAreSound(rules, b, server.second, request, commit);
  }

  lemma WishMeetsPin(rules: Rules, b: Boundary, server: Server, request: Request, index: Option<Index>,
                     snapshots: map<Revision, Slot>)
    ensures var w := WishOf(rules, b, server, request, index, snapshots);
      !w.Refuse? ==> PinIsMet(rules, request, Answer(w).value.revision)
  {
    WishesAreSound(rules, b, server, request, index, snapshots);
    if DigitsShow(rules) {
      forall c | Pins(rules, request, c)
        ensures ImmutableCommit(rules, request.codeload, request.ref, request.tail) == Some(c)
      {
        CommitsAreNamed(rules, request.codeload, request.ref, request.tail, "", "", c);
      }
    }
  }

  /** Every snapshot of a reachable disk is as before or whole, and a new index leads to one. */
  lemma ReachableIsSafe(rules: Rules, w: Wish, refresh: bool, before: Disk, after: Disk)
    requires Sound(rules, w, before) && Reachable(rules, w, refresh, before, after)
    ensures forall r :: r in after.snapshots ==>
      (r in before.snapshots && after.snapshots[r] == before.snapshots[r]) || WholeSlot(rules, after.snapshots[r])
    ensures after.index == before.index || Leads(rules, after.snapshots, after.index)
  {
    if w.Install? {
      assert WholeSlot(rules, Folder(Some(w.name + "\n"), w.tree));
    }
  }

  /** Re-reading a fulfilled wish gives its answer, unless its name does not survive the marker file. */
  lemma FulfilledIsTrusted(rules: Rules, w: Wish, refresh: bool, before: Disk)
    requires SpacesOk(rules) && Sound(rules, w, before) && !w.Refuse?
    ensures var after, root := Fulfilled(rules, w, refresh, before), Answer(w).value;
      ValidatedRevision(rules, after.snapshots, after.index, root)
        == if Plain(rules, root.name) then Some(root.revision) else None
  {
    var after := Fulfilled(rules, w, refresh, before);
    if w.Install? {
      PublishedResolves(rules, after.snapshots, w.entry, w.revision, w.name);
    } else {
      ResolvedIsPlain(rules, before.snapshots, before.index);
    }
  }

  lemma InstallsAreSound(rules: Rules, b: Boundary, reply: Reply, request: Request, commit: Option<string>)
    ensures var w := InstallWish(rules, b, reply, request, commit);
      && (w.Refuse? || w.Install?)
      && (w.Install? ==>
            IndexesItself(w) && rules.valid(w.name, w.tree) && NameOk(w.name) && w.name != "" && w.name != MARKER)
      && (w.Install? && commit.Some? ==> w.revision == Git(commit.value))
  {
    if reply.Content? {
      forall top | Accepts(b, reply.archive, top) ensures NameOk(top) && top != "" {
        TopIsName(b, reply.archive, top);
      }
    }
  }

  lemma OneTop(b: Boundary, members: seq<Member>, top: string)
    requires Accepts(b, members, top)
    ensures forall other :: Accepts(b, members, other) ==> other == top
  {
    assert top in Tops(members);
  }

  class Cache {
    const rules: Rules
    const boundary: Boundary
    const faults: nat -> Fault
    var index: Option<Index>
    var snapshots: map<Revision, Slot>
    var aside: seq<Slot>
    var staging: Option<Slot>
    var locked: bool
    var ticks: nat

    /** No step raises or is the last. */
    ghost predicate Quiet() { forall n {:trigger faults(n)} :: faults(n) == NoFault }

    /** The process dies k steps from now, and not before; no step raises until then. */
    ghost predicate DiesIn(k: nat)
      reads this`ticks
    {
      faults(ticks + k) == Dies && forall n {:trigger faults(n)} :: ticks <= n < ticks + k ==> faults(n) == NoFault
    }

    function Resolve(): Option<Root>
      reads this`index, this`snapshots
    {
      SnapshotRoot(rules, snapshots, index)
    }

    constructor (rules: Rules, boundary: Boundary, faults: nat -> Fault, index: Option<Index>,
                 snapshots: map<Revision, Slot>)
      ensures this.rules == rules && this.boundary == boundary && this.faults == faults
      ensures this.index == index && this.snapshots == snapshots && !locked && ticks == 0
    {
      this.rules, this.boundary, this.faults := rules, boundary, faults;
      this.index, this.snapshots, this.aside := index, snapshots, [];
      this.staging, this.locked, this.ticks := None, false, 0;
    }

    /** The fate of the next file-system step. */
    method Tick() returns (f: Fault)
      modifies `ticks
      ensures f == faults(old(ticks)) && ticks == old(ticks) + 1
    {
      f := faults(ticks);
      ticks := ticks + 1;
    }

    /** _atomic_write_json: a temporary file, one rename, then the directory is synced. */
    method WriteIndex(entry: Index) returns (o: Outcome<()>)
      modifies `ticks, `index
      ensures index == old(index) || index == Some(entry)
      ensures o.Done? ==> index == Some(entry)
      ensures Quiet() ==> o.Done?
    {
      var f := Tick();
      if f == NoFault {
        f := Tick();
        if f == NoFault {
          index := Some(entry);
          f := Tick();
        }
      }
      o := match f case NoFault => Done(()) case Raises => Raised case Dies => Died;
    }

    /** Moving the staged snapshot over an occupied name: quarantine, rename, and rename back when that raises. */
    method Replace(revision: Revision) returns (o: Outcome<()>)
      requires staging.Some? && revision in snapshots
      modifies `ticks, `snapshots, `aside, `staging
      ensures || snapshots == old(snapshots) || snapshots == old(snapshots) - {revision}
              || snapshots == old(snapshots)[revision := old(staging).value]
      ensures o.Done? ==> snapshots == old(snapshots)[revision := old(staging).value]
      ensures Quiet() ==> o.Done?
      ensures old(DiesIn(1)) ==> o.Died? && snapshots == old(snapshots) - {revision}
    {
      var f := Tick();
      if f != NoFault {
        return if f == Raises then Raised else Died;
      }
      var displaced := snapshots[revision];
      snapshots, aside := snapshots - {revision}, aside + [displaced];
      f := Tick();
      if f == Raises {
        f := Tick();
        if f == NoFault {
          snapshots, aside := snapshots[revision := displaced], aside[..|aside| - 1];
        }
        return if f == Dies then Died else Raised;
      } else if f == Dies {
        return Died;
      }
      snapshots, staging := snapshots[revision := staging.value], None;
      f := Tick();
      if f == NoFault {
        aside := aside[..|aside| - 1];
      }
      o := match f case NoFault => Done(()) case Raises => Raised case Dies => Died;
    }

    ghost function State(): Disk
      reads this`index, this`snapshots
    {
      Disk(index, snapshots)
    }

    /** _publish_snapshot: the marker, then one rename into place, unless the very snapshot is already there. */
    method Publish(name: string, tree: Tree, revision: Revision, digest: string,
                   replaceExisting: bool) returns (o: Outcome<Root>)
      requires staging == Some(Folder(None, tree)) && rules.valid(name, tree)
      modifies `ticks, `snapshots, `aside, `staging
      ensures var whole := Folder(Some(name + "\n"), tree);
        || snapshots == old(snapshots) || snapshots == old(snapshots) - {revision}
        || snapshots == old(snapshots)[revision := whole]
      ensures o.Done? ==> o.value == Root(revision, name)
      ensures o.Done? ==>
        var entry := Some(Index(Some(revision), Some(name), Some(digest), None, None));
        || snapshots == old(snapshots)[revision := Folder(Some(name + "\n"), tree)]
        || (snapshots == old(snapshots) && SnapshotRoot(rules, snapshots, entry) == Some(Root(revision, name)))
      ensures var entry := Index(Some(revision), Some(name), Some(digest), None, None);
        var w := Install(revision, name, tree, entry);
        && (o.Done? ==> snapshots == Installed(rules, old(snapshots), w, replaceExisting))
        && (Present(rules, old(snapshots), w, replaceExisting) ==> snapshots == old(snapshots))
        && (old(DiesIn(2)) && name != MARKER && Displaces(rules, old(snapshots), w, replaceExisting) ==>
              o.Died? && snapshots == old(snapshots) - {revision})
      ensures name == MARKER ==> !o.Done? && snapshots == old(snapshots)
      ensures Quiet() ==> (o.Done? <==> name != MARKER) && !o.Died?
    {
      var f := Tick();
      if f != NoFault {
        return if f == Raises then Raised else Died;
      }
      if name == MARKER {
        return Raised; // the marker's path is the root directory
      }
      staging := Some(Folder(Some(name + "\n"), tree));
      if revision in snapshots {
        var existing := if replaceExisting then None
                        else SnapshotRoot(rules, snapshots,
                                          Some(Index(Some(revision), Some(name), Some(digest), None, None)));
        if existing.Some? {
          return Done(existing.value);
        }
        var replaced := Replace(revision);
        if !replaced.Done? {
          return if replaced.Raised? then Raised else Died;
        }
      } else {
        f := Tick();
        if f != NoFault {
          return if f == Raises then Raised else Died;
        }
        snapshots, staging := snapshots[revision := staging.value], None;
      }
      o := Done(Root(revision, name));
    }

    /** Every snapshot is as it was or published whole by this run. */
    twostate predicate SlotsKept()
      reads this`snapshots
    {
      forall r ::
        r in snapshots ==> (r in old(snapshots) && snapshots[r] == old(snapshots)[r]) || WholeSlot(rules, snapshots[r])
    }

    /** Extraction, validation, publishing and the new index, in that order. */
    method Store(reply: Reply, request: Request, commit: Option<string>) returns (o: Outcome<Root>)
      requires reply.Content?
      modifies `ticks, `index, `snapshots, `aside, `staging
      ensures Follows(rules, InstallWish(rules, boundary, reply, request, commit), request.refresh, old(State()),
                      State(), o)
      ensures Quiet() ==> (o.Done? <==> InstallWish(rules, boundary, reply, request, commit).Install?) && !o.Died?
      ensures var w := InstallWish(rules, boundary, reply, request, commit);
        old(DiesIn(3)) && Displaces(rules, old(snapshots), w, request.refresh) ==>
          o.Died? && State() == Disk(old(index), old(snapshots) - {w.revision})
    {
      var f := Tick();
      if f != NoFault {
        return if f == Raises then Raised else Died;
      }
      var staged := Stage(reply, request, commit);
      if staged.Error? {
        return Raised;
      }
      o := Put(staged.value.0, staged.value.1, staged.value.2, reply, request.refresh);
    }

    /** Extraction into the staging directory, validation, and the archive's revision. */
    method Stage(reply: Reply, request: Request, commit: Option<string>) returns (r: Result<(string, Tree, Revision)>)
      requires reply.Content?
      modifies `staging
      ensures var w := InstallWish(rules, boundary, reply, request, commit);
        match r
        case Error(_) => w == Refuse
        case Ok((name, tree, revision)) =>
          && staging == Some(Folder(None, tree)) && rules.valid(name, tree)
          && w == if name == MARKER then Refuse else Install(revision, name, tree, EntryOf(revision, name, reply))
    {
      var extracted := SafeExtract(boundary, reply.archive);
      if extracted.Error? {
        return Error(extracted.message);
      }
      var name, tree := extracted.value.0, extracted.value.1;
      OneTop(boundary, reply.archive, name);
      staging := Some(Folder(None, tree));
      if !rules.valid(name, tree) {
        return Error("source snapshot is not valid");
      }
      var revision := ArchiveRevision(rules, request.codeload, reply.comment, reply.digest);
      if commit.Some? && revision != Git(commit.value) {
        return Error("revision does not match the requested commit");
      }
      r := Ok((name, tree, revision));
    }

    /** Publishing, and the new index after it. */
    method Put(name: string, tree: Tree, revision: Revision, reply: Reply, refresh: bool) returns (o: Outcome<Root>)
      requires reply.Content? && staging == Some(Folder(None, tree)) && rules.valid(name, tree)
      modifies `ticks, `index, `snapshots, `aside, `staging
      ensures var w := if name == MARKER then Refuse else Install(revision, name, tree, EntryOf(revision, name, reply));
        && Follows(rules, w, refresh, old(State()), State(), o)
        && (old(DiesIn(2)) && Displaces(rules, old(snapshots), w, refresh) ==>
              o.Died? && State() == Disk(old(index), old(snapshots) - {revision}))
      ensures Quiet() ==> (o.Done? <==> name != MARKER) && !o.Died?
    {
      var published := Publish(name, tree, revision, reply.digest, refresh);
      if !published.Done? {
        return if published.Raised? then Raised else Died;
      }
      var written := WriteIndex(EntryOf(revision, name, reply));
      if !written.Done? {
        return if written.Raised? then Raised else Died;
      }
      o := Done(Root(revision, name));
    }

    /** Re-reading the index leads back to this root, unless its name does not survive the marker file. */
    ghost predicate Trusted(root: Root)
      reads this`index, this`snapshots
    {
      ValidatedRevision(rules, snapshots, index, root) == if Plain(rules, root.name) then Some(root.revision) else None
    }

    /** download_source under the lock. */
    method Fetch(server: Server, request: Request) returns (o: Outcome<Root>)
      modifies `ticks, `index, `snapshots, `aside, `staging
      ensures Follows(rules, WishOf(rules, boundary, server, request, old(index), old(snapshots)), request.refresh,
                      old(State()), State(), o)
      ensures Quiet() ==>
        (o.Raised? <==> WishOf(rules, boundary, server, request, old(index), old(snapshots)).Refuse?) && !o.Died?
      ensures var w := WishOf(rules, boundary, server, request, old(index), old(snapshots));
        old(DiesIn(4)) && Displaces(rules, old(snapshots), w, request.refresh) ==>
          o.Died? && State() == Disk(old(index), old(snapshots) - {w.revision})
    {
      var commit := ImmutableCommit(rules, request.codeload, request.ref, request.tail);
      var cached := Resolve();
      if commit.Some? && cached.Some? && !request.refresh {
        if index.value.revision != Some(Git(commit.value)) {
          return Raised;
        }
        return Done(cached.value);
      }
      var etag, lastModified: Option<string> := None, None;
      if !request.refresh && index.Some? {
        etag, lastModified := index.value.etag, index.value.lastModified;
      }
      var f := Tick();
      if f != NoFault {
        return if f == Raises then Raised else Died;
      }
      var reply := server.first(etag, lastModified);
      if reply.Unchanged? {
        if etag.None? && lastModified.None? {
          return Raised;
        }
        if cached.Some? {
          o := Refresh(cached.value, reply);
          return;
        }
        reply := server.second;
      }
      if !reply.Content? {
        return Raised;
      }
      o := Store(reply, request, commit);
    }

    /** A 304: the cached root stands, with the validators the answer brought. */
    method Refresh(root: Root, reply: Reply) returns (o: Outcome<Root>)
      requires reply.Unchanged? && Resolve() == Some(root)
      modifies `ticks, `index
      ensures Follows(rules, Renew(root, Renewed(old(index).value, reply)), false, old(State()), State(), o)
      ensures index.Some? && SameRoot(index.value, old(index).value)
      ensures Quiet() ==> o.Done?
    {
      var entry := Renewed(index.value, reply);
      if entry != index.value {
        var written := WriteIndex(entry);
        if !written.Done? {
          return if written.Raised? then Raised else Died;
        }
      }
      o := Done(root);
    }

    /** download_source. Whatever step raises or is the last, every snapshot stays as it was or is published whole, and
        the lock is free again; a returned root is the one the index leads to; without faults an error changes
        nothing. */
    method DownloadSource(server: Server, request: Request) returns (o: Outcome<Root>)
      requires SpacesOk(rules) && !locked
      modifies this
      ensures !locked && SlotsKept() && (index == old(index) || Leads(rules, snapshots, index))
      ensures o.Done? ==> Trusted(o.value)
      ensures o.Done? ==> PinIsMet(rules, request, o.value.revision)
      ensures Quiet() && o.Raised? ==> index == old(index) && snapshots == old(snapshots)
      ensures !o.Died? ==> staging == None
      ensures Follows(rules, WishOf(rules, boundary, server, request, old(index), old(snapshots)), request.refresh,
                      old(State()), State(), o)
      ensures Quiet() ==>
        (o.Raised? <==> WishOf(rules, boundary, server, request, old(index), old(snapshots)).Refuse?) && !o.Died?
      ensures Quiet() ==> IsCall(rules, boundary, server, request, old(State()), State(),
                                 if o.Done? then Some(o.value) else None)
      ensures var w := WishOf(rules, boundary, server, request, old(index), old(snapshots));
        old(DiesIn(5)) && Displaces(rules, old(snapshots), w, request.refresh) ==>
          o.Died? && State() == Disk(old(index), old(snapshots) - {w.revision})
    {
      ghost var w, before := WishOf(rules, boundary, server, request, index, snapshots), State();
      WishesAreSound(rules, boundary, server, request, index, snapshots);
      staging := None;
      var f := Tick();
      if f != NoFault {
        return if f == Raises then Raised else Died;
      }
      locked := true;
      o := Fetch(server, request);
      if !o.Died? {
        staging := None; // the temporary directory is removed
      }
      locked := false; // by the process, or by the operating system when it died
      ReachableIsSafe(rules, w, request.refresh, before, State());
      if o.Done? {
        FulfilledIsTrusted(rules, w, request.refresh, before);
        WishMeetsPin(rules, boundary, server, request, before.index, before.snapshots);
      }
      if Quiet() {
        FollowedIsCall(rules, boundary, server, request, before, State(), o);
      }
    }
  }

  /** A root that an index resolves to was validated again, and its name is plain. */
  lemma ResolvedIsPlain(rules: Rules, snapshots: map<Revision, Slot>, index: Option<Index>)
    requires SpacesOk(rules) && SnapshotRoot(rules, snapshots, index).Some?
    ensures var root := SnapshotRoot(rules, snapshots, index).value;
      Plain(rules, root.name) && root.revision in snapshots && snapshots[root.revision].Folder? &&
      rules.valid(root.name, snapshots[root.revision].tree) && index.value.revision == Some(root.revision)
  {
    var root := SnapshotRoot(rules, snapshots, index).value;
    var marker := snapshots[root.revision].marker.value;
    assert Parts("") == [];
    ReadIsPlain(rules, marker);
  }

  /** After publishing and writing the index, it resolves exactly when the name is plain. */
  lemma PublishedResolves(rules: Rules, snapshots: map<Revision, Slot>, entry: Index, revision: Revision, name: string)
    requires SpacesOk(rules) && NameOk(name) && name != "" && name != MARKER
    requires entry.revision == Some(revision) && entry.rootName == Some(name) && entry.digest.Some?
    requires revision.Sha? ==> revision.digest == entry.digest.value
    requires (revision in snapshots && snapshots[revision].Folder? && snapshots[revision].marker == Some(name + "\n") &&
              rules.valid(name, snapshots[revision].tree)) ||
             SnapshotRoot(rules, snapshots,
                          Some(entry.(etag := None, lastModified := None))) == Some(Root(revision, name))
    ensures ValidatedRevision(rules, snapshots, Some(entry), Root(revision, name))
         == if Plain(rules, name) then Some(revision) else None
  {
    SurvivesIffPlain(rules, name);
    if SnapshotRoot(rules, snapshots, Some(entry)).Some? {
      ResolvedIsPlain(rules, snapshots, Some(entry));
    }
  }
}
