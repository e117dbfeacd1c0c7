/** The install source boundary: which archive paths are extracted, which the finished snapshot may contain, and that a
    fresh extraction passes its own scan (installer/bootstrap.py). */
module SourceBoundary {
  import opened Results

  /** The parts of a relative POSIX path. */
  type Path = seq<string>

  /** The allow-list: single files, whole trees, excluded example configurations, and the components and paths that stay
      in the source repository. */
  datatype Boundary = Boundary(files: set<Path>, trees: set<Path>, excluded: set<Path>, sourceOnlyParts: set<string>,
                               sourceOnlyPaths: set<Path>)

  // ----- paths

  /** PurePosixPath(name).parts without a leading slash: components between slashes, empty and single-dot ones
      dropped. */
  function Parts(name: string): Path { Split(name, "") }

  function Split(rest: string, part: string): Path
    decreases |rest|
  {
    if rest == [] then Component(part)
    else if rest[0] == '/' then Component(part) + Split(rest[1..], "")
    else Split(rest[1..], part + [rest[0]])
  }

  function Component(part: string): Path { if part == "" || part == "." then [] else [part] }

  /** No part is empty or a single dot, and none contains a slash. */
  lemma {:induction false} SplitIsClean(rest: string, part: string, c: string)
    requires '/' !in part && c in Split(rest, part)
    ensures c != "" && c != "." && '/' !in c
    decreases |rest|
  {
    if rest != [] {
      if rest[0] == '/' {
        if c !in Component(part) {
          SplitIsClean(rest[1..], "", c);
        }
      } else {
        SplitIsClean(rest[1..], part + [rest[0]], c);
      }
    }
  }

  lemma PartsAreClean(name: string, c: string)
    requires c in Parts(name)
    ensures c != "" && c != "." && '/' !in c
  {
    SplitIsClean(name, "", c);
  }

  predicate EndsWith(s: string, suffix: string) { |suffix| <= |s| && s[|s| - |suffix|..] == suffix }

  function NameOf(p: Path): string { if p == [] then "" else p[|p| - 1] }

  const BUILD_PARTS: set<string> := {".pytest_cache", "__pycache__", "build"}

  // ----- the two predicates

  predicate SourceOnly(b: Boundary, p: Path) {
    (exists part :: part in p && part in b.sourceOnlyParts) || exists e :: e in b.sourceOnlyPaths && e <= p
  }

  predicate Generated(p: Path) { exists part :: part in p && (EndsWith(part, ".egg-info") || part in BUILD_PARTS) }

  predicate PathAllowed(b: Boundary, p: Path) {
    && p !in b.excluded && !EndsWith(NameOf(p), ".pyc") && !SourceOnly(b, p) && !Generated(p)
    && (p in b.files || exists tree :: tree in b.trees && tree <= p)
  }

  predicate DirectoryAllowed(b: Boundary, d: Path) {
    && !SourceOnly(b, d) && !Generated(d)
    && ((exists f :: f in b.files && d < f) || exists tree :: tree in b.trees && (tree <= d || d < tree))
  }

  /** No component of the path, and no leading part of it, stays in the source repository or comes from a build. */
  ghost predicate Shippable(b: Boundary, p: Path) {
    && (forall k :: 0 <= k < |p| ==>
          && p[k] !in b.sourceOnlyParts && p[k] != ".pytest_cache" && p[k] != "__pycache__" && p[k] != "build"
          && !(|p[k]| >= 9 && p[k][|p[k]| - 9..] == ".egg-info"))
    && forall k :: 0 <= k <= |p| ==> p[..k] !in b.sourceOnlyPaths
  }

  lemma ShippableIff(b: Boundary, p: Path)
    ensures Shippable(b, p) <==> !SourceOnly(b, p) && !Generated(p)
  {
    assert |".egg-info"| == 9;
    forall e | e in b.sourceOnlyPaths && e <= p ensures p[..|e|] == e {}
    if !Shippable(b, p) && !SourceOnly(b, p) {
      forall k | 0 <= k <= |p| ensures p[..k] !in b.sourceOnlyPaths { assert p[..k] <= p; }
      var k :| 0 <= k < |p| && (p[k] in b.sourceOnlyParts || p[k] in BUILD_PARTS || EndsWith(p[k], ".egg-info"));
      assert p[k] in p;
    }
  }

  /** A file is installed exactly when it is shippable, is neither excluded nor compiled, and is listed or lies in a
      listed tree. */
  lemma AllowedIff(b: Boundary, p: Path)
    ensures PathAllowed(b, p) <==>
      && Shippable(b, p) && p !in b.excluded
      && (p != [] ==> !(|p[|p| - 1]| >= 4 && p[|p| - 1][|p[|p| - 1]| - 4..] == ".pyc"))
      && (p in b.files || exists k :: 0 <= k <= |p| && p[..k] in b.trees)
  {
    ShippableIff(b, p);
    assert |".pyc"| == 4;
    forall k | 0 <= k <= |p| ensures p[..k] <= p {}
    forall tree | tree in b.trees && tree <= p ensures p[..|tree|] == tree {}
  }

  /** A directory is installed exactly when it is shippable and lies above a listed file, in a listed tree or above
      one. */
  lemma DirectoryAllowedIff(b: Boundary, d: Path)
    ensures DirectoryAllowed(b, d) <==>
      && Shippable(b, d)
      && (|| (exists f :: f in b.files && |d| < |f| && f[..|d|] == d)
          || (exists tree :: tree in b.trees && |d| < |tree| && tree[..|d|] == d)
          || (exists k :: 0 <= k <= |d| && d[..k] in b.trees))
  {
    ShippableIff(b, d);
    forall k | 0 <= k <= |d| ensures d[..k] <= d {}
    forall tree | tree in b.trees && tree <= d ensures d[..|tree|] == tree {}
  }

  lemma PartOfPrefix(d: Path, p: Path, part: string)
    requires d <= p && part in d
    ensures part in p
  {
    var i :| 0 <= i < |d| && d[i] == part;
    assert p[i] == part;
  }

  lemma PrefixOrder(d: Path, tree: Path, p: Path)
    requires d < p && tree <= p
    ensures tree <= d || d < tree
  {
    if |tree| <= |d| {
      assert tree == p[..|tree|] && d == p[..|d|];
      assert d[..|tree|] == tree;
    } else {
      assert tree[..|d|] == d;
    }
  }

  lemma PrefixOfPrefix(e: Path, d: Path, p: Path)
    ensures e <= d && d <= p ==> e <= p
  {
    if e <= d && d <= p {
      assert p[..|e|] == e;
    }
  }

  /** Every proper ancestor directory of an allowed file is an allowed directory, whatever the sets are. */
  lemma AncestorsAllowed(b: Boundary, p: Path, d: Path)
    requires PathAllowed(b, p) && d < p
    ensures DirectoryAllowed(b, d)
  {
    forall part | part in d ensures part in p { PartOfPrefix(d, p, part); }
    forall e | e in b.sourceOnlyPaths ensures e <= d ==> e <= p { PrefixOfPrefix(e, d, p); }
    if p !in b.files {
      var tree :| tree in b.trees && tree <= p;
      PrefixOrder(d, tree, p);
    }
  }

  // ----- archives

  datatype Kind = Regular | Directory | Link | Device | Unknown

  datatype Member = Member(name: string, kind: Kind, content: string)

  datatype Node = File(content: string) | Dir

  predicate Absolute(m: Member) { m.name != "" && m.name[0] == '/' }

  predicate SafeName(m: Member) { !Absolute(m) && ".." !in Parts(m.name) && Parts(m.name) != [] }

  /** The path below the archive's top-level directory. */
  function Below(m: Member): Path
    requires SafeName(m)
  {
    Parts(m.name)[1..]
  }

  predicate LinkInside(b: Boundary, m: Member)
    requires SafeName(m)
  {
    (m.kind.Link? || m.kind.Device?) && (PathAllowed(b, Below(m)) || DirectoryAllowed(b, Below(m)))
  }

  ghost predicate Acceptable(b: Boundary, m: Member) { SafeName(m) && !LinkInside(b, m) }

  ghost function TopOf(m: Member): set<string> {
    if SafeName(m) && !m.kind.Link? && !m.kind.Device? then {Parts(m.name)[0]} else {}
  }

  ghost function Tops(members: seq<Member>): set<string> {
    set i, top | 0 <= i < |members| && top in TopOf(members[i]) :: top
  }

  /** The first loop: member names, links and devices, top-level directories. */
  method CheckMembers(b: Boundary, members: seq<Member>) returns (r: Result<string>)
    ensures r.Ok?
       <==> (forall i :: 0 <= i < |members| ==> Acceptable(b, members[i])) && exists top :: Tops(members) == {top}
    ensures r.Ok? ==> Tops(members) == {r.value}
  {
    var roots: set<string> := {};
    for i := 0 to |members|
      invariant forall k :: 0 <= k < i ==> Acceptable(b, members[k])
      invariant roots == Tops(members[..i])
    {
      var m := members[i];
      NextTop(members, i);
      if !SafeName(m) {
        assert !Acceptable(b, members[i]);
        return Error("unsafe archive member");
      }
      if m.kind.Link? || m.kind.Device? {
        if PathAllowed(b, Below(m)) || DirectoryAllowed(b, Below(m)) {
          assert !Acceptable(b, members[i]);
          return Error("unsupported archive link or device");
        }
      } else {
        roots := roots + {Parts(m.name)[0]};
      }
    }
    assert members[..|members|] == members;
    SingletonSize(roots);
    if |roots| != 1 {
      return Error("source archive must contain exactly one top-level directory");
    }
    var top :| top in roots;
    Single(roots, top);
    r := Ok(top);
  }

  lemma Single(s: set<string>, x: string)
    requires |s| == 1 && x in s
    ensures s == {x}
  {
    assert |s - {x}| == 0;
    assert s == {x} + (s - {x});
  }

  lemma SingletonSize(s: set<string>)
    ensures (exists x :: s == {x}) ==> |s| == 1
  {
  }

  lemma NextTop(members: seq<Member>, i: nat)
    requires i < |members|
    ensures Tops(members[..i + 1]) == Tops(members[..i]) + TopOf(members[i])
  {
    var more := members[..i + 1];
    forall top | top in Tops(more) ensures top in Tops(members[..i]) + TopOf(members[i]) {
      var k :| 0 <= k < |more| && top in TopOf(more[k]);
      if k < i { assert members[..i][k] == more[k]; }
    }
    forall top | top in Tops(members[..i]) ensures top in Tops(more) {
      var k :| 0 <= k < i && top in TopOf(members[..i][k]);
      assert more[k] == members[..i][k];
    }
    assert more[i] == members[i];
  }

  // ----- writing files

  predicate Extracted(b: Boundary, m: Member) { m.kind.Regular? && SafeName(m) && PathAllowed(b, Below(m)) }

  /** The files an archive gives, a later member of the same name replacing an earlier one. */
  function Files(b: Boundary, members: seq<Member>): map<Path, string> {
    if members == [] then map[]
    else
      var before := Files(b, members[..|members| - 1]);
      var m := members[|members| - 1];
      if Extracted(b, m) then before[Parts(m.name) := m.content] else before
  }

  /** The member is a regular file with a safe name that an allowed path p below the top comes from. */
  predicate Gives(b: Boundary, m: Member, p: Path) {
    && m.kind == Regular && m.name != "" && m.name[0] != '/' && Parts(m.name) == p && p != [] && ".." !in p
    && PathAllowed(b, p[1..])
  }

  /** A path is a file exactly when some member gives it, and holds what the last such member says. */
  lemma {:induction false} FilesAreLast(b: Boundary, members: seq<Member>, p: Path)
    ensures p in Files(b, members) <==> exists i :: 0 <= i < |members| && Gives(b, members[i], p)
    ensures forall i ::
      (0 <= i < |members| && Gives(b, members[i], p) && forall k :: i < k < |members| ==> !Gives(b, members[k], p))
      ==> Files(b, members)[p] == members[i].content
  {
    if members != [] {
      var n := |members| - 1;
      FilesAreLast(b, members[..n], p);
      GivesIff(b, members[n], p);
      assert forall i :: 0 <= i < n ==> members[..n][i] == members[i];
    }
  }

  lemma GivesIff(b: Boundary, m: Member, p: Path)
    ensures Gives(b, m, p) <==> Extracted(b, m) && Parts(m.name) == p
  {
    if Gives(b, m, p) || (Extracted(b, m) && Parts(m.name) == p) {
      assert m.name != "";
    }
  }

  ghost predicate Above(files: map<Path, string>, p: Path) { p != [] && exists f :: f in files && p < f }

  /** Some extracted file would have to be a directory as well. */
  ghost predicate Clash(files: map<Path, string>) { exists f :: f in files && Above(files, f) }

  /** Exactly these files and the directories above them. */
  ghost predicate IsTreeOf(files: map<Path, string>, tree: map<Path, Node>) {
    && (forall p :: p in tree <==> p in files || Above(files, p))
    && (forall p :: p in tree ==> tree[p] == if p in files then File(files[p]) else Dir)
  }

  /** The tree of these files. */
  ghost function TreeOf(files: map<Path, string>): map<Path, Node> {
    map p | p in files.Keys + Directories(files) :: if p in files then File(files[p]) else Dir
  }

  ghost function Directories(files: map<Path, string>): set<Path> {
    set f, k | f in files.Keys && 1 <= k < |f| :: f[..k]
  }

  lemma DirectoriesAreAbove(files: map<Path, string>, p: Path)
    ensures p in Directories(files) <==> Above(files, p)
  {
    if Above(files, p) {
      var f :| f in files && p < f;
      assert p == f[..|p|];
    }
  }

  /** There is just one tree of given files. */
  lemma TreeIsUnique(files: map<Path, string>, tree: map<Path, Node>)
    ensures IsTreeOf(files, tree) <==> tree == TreeOf(files)
  {
    forall p: Path ensures p in TreeOf(files) <==> p in files || Above(files, p) {
      DirectoriesAreAbove(files, p);
    }
    if IsTreeOf(files, tree) {
      assert tree.Keys == TreeOf(files).Keys;
    }
  }

  lemma {:induction false} FilesFrom(b: Boundary, members: seq<Member>, p: Path)
    requires p in Files(b, members)
    ensures exists i :: 0 <= i < |members| && Extracted(b, members[i]) && Parts(members[i].name) == p
  {
    var n := |members| - 1;
    if p in Files(b, members[..n]) {
      FilesFrom(b, members[..n], p);
      var i :| 0 <= i < n && Extracted(b, members[..n][i]) && Parts(members[..n][i].name) == p;
      assert members[i] == members[..n][i];
    }
  }

  lemma {:induction false} FilesGrow(b: Boundary, members: seq<Member>, n: nat)
    requires n <= |members|
    ensures Files(b, members[..n]).Keys <= Files(b, members).Keys
    decreases |members| - n
  {
    if n < |members| {
      assert members[..n + 1][..n] == members[..n];
      FilesGrow(b, members, n + 1);
    } else {
      assert members[..n] == members;
    }
  }

  lemma ClashGrows(files: map<Path, string>, more: map<Path, string>)
    requires files.Keys <= more.Keys && Clash(files)
    ensures Clash(more)
  {
    var f :| f in files && Above(files, f);
    var g :| g in files && f < g;
    assert f in more.Keys && g in more.Keys;
    assert Above(more, f);
  }

  /** mkdir(parents=True) of a file's parent: false when an ancestor is a file. */
  method MakeParents(tree: map<Path, Node>, target: Path) returns (ok: bool, tree': map<Path, Node>)
    requires target != []
    ensures ok <==> forall p :: p != [] && p < target && p in tree ==> tree[p].Dir?
    ensures ok ==> forall p :: p in tree' <==> p in tree || (p != [] && p < target)
    ensures ok ==> forall p :: p in tree' ==> tree'[p] == if p in tree then tree[p] else Dir
  {
    tree' := tree;
    for k := 1 to |target|
      invariant forall p :: p != [] && p < target && |p| < k && p in tree ==> tree[p].Dir?
      invariant forall p :: p in tree' <==> p in tree || (p != [] && p < target && |p| < k)
      invariant forall p :: p in tree' ==> tree'[p] == if p in tree then tree[p] else Dir
    {
      var d := target[..k];
      forall p | p < target && |p| == k ensures p == d {}
      if d in tree' && tree'[d].File? {
        assert d in tree && d < target;
        return false, tree';
      }
      if d !in tree' {
        tree' := tree'[d := Dir];
      }
    }
    ok := true;
  }

  /** One file of the second loop: its parents, then its content. */
  method WriteFile(ghost files: map<Path, string>, tree: map<Path, Node>, target: Path, content: string)
    returns (ok: bool, tree': map<Path, Node>)
    requires target != [] && IsTreeOf(files, tree) && !Clash(files)
    ensures ok <==> !Clash(files[target := content])
    ensures ok ==> IsTreeOf(files[target := content], tree')
  {
    ghost var more := files[target := content];
    var parents;
    parents, tree' := MakeParents(tree, target);
    if !parents {
      ghost var p :| p != [] && p < target && p in tree && tree[p].File?;
      assert p in more && target in more;
      assert Above(more, p);
      return false, tree';
    }
    if target in tree' && tree'[target].Dir? {
      assert Above(files, target);
      ghost var f :| f in files && target < f;
      assert f in more && Above(more, target);
      return false, tree';
    }
    tree' := tree'[target := File(content)];
    ok := true;
    Fits(files, target, content);
    forall p ensures p in tree' <==> p in more || Above(more, p) { AboveMore(files, target, content, p); }
  }

  lemma AboveMore(files: map<Path, string>, target: Path, content: string, p: Path)
    ensures Above(files[target := content], p) <==> Above(files, p) || (p != [] && p < target)
  {
    var more := files[target := content];
    if Above(files, p) {
      var f :| f in files && p < f;
      assert f in more;
    }
    assert target in more;
  }

  /** A file clashes with none when no file is above it and it is above none. */
  lemma Fits(files: map<Path, string>, target: Path, content: string)
    requires !Clash(files) && !Above(files, target) && forall p :: p != [] && p < target ==> p !in files
    ensures !Clash(files[target := content])
  {
    var more := files[target := content];
    forall f | f in more ensures !Above(more, f) {
      AboveMore(files, target, content, f);
      if f in files {
        assert !Above(files, f);
      }
    }
  }

  /** The second loop: false when a file and a directory clash. */
  method WriteAll(b: Boundary, members: seq<Member>) returns (ok: bool, tree: map<Path, Node>)
    requires forall i :: 0 <= i < |members| ==> SafeName(members[i])
    ensures ok <==> !Clash(Files(b, members))
    ensures ok ==> IsTreeOf(Files(b, members), tree)
  {
    tree := map[];
    for i := 0 to |members|
      invariant IsTreeOf(Files(b, members[..i]), tree) && !Clash(Files(b, members[..i]))
    {
      var m := members[i];
      assert members[..i + 1][..i] == members[..i];
      if m.kind.Regular? && PathAllowed(b, Below(m)) {
        ok, tree := WriteFile(Files(b, members[..i]), tree, Parts(m.name), m.content);
        if !ok {
          FilesGrow(b, members, i + 1);
          ClashGrows(Files(b, members[..i + 1]), Files(b, members));
          return;
        }
      }
    }
    assert members[..|members|] == members;
    ok := true;
  }

  const SETUP_FILE: Path := ["payload", "runtime", "docker", "setup", "app", "pyproject.toml"]

  /** Archives that are extracted, below the given top-level directory. */
  ghost predicate Accepts(b: Boundary, members: seq<Member>, top: string) {
    && (forall i :: 0 <= i < |members| ==> Acceptable(b, members[i])) && !Clash(Files(b, members))
    && Tops(members) == {top} && [top] + SETUP_FILE in Files(b, members)
  }

  /** A relative name that never goes up; a link or device only where nothing would be installed, anything else below
      the top. */
  predicate IsFitting(b: Boundary, m: Member, top: string) {
    var p := Parts(m.name);
    && p != [] && ".." !in p && m.name[0] != '/'
    && if m.kind == Link || m.kind == Device then !PathAllowed(b, p[1..]) && !DirectoryAllowed(b, p[1..])
       else p[0] == top
  }

  /** An archive is accepted exactly when every member fits, the setup package is a file, and no file is a directory of
      another. */
  lemma AcceptsIff(b: Boundary, members: seq<Member>, top: string)
    ensures Accepts(b, members, top) <==>
      && (forall i :: 0 <= i < |members| ==> IsFitting(b, members[i], top))
      && [top] + SETUP_FILE in Files(b, members)
      && (forall f, g :: f in Files(b, members) && g in Files(b, members) && f != [] ==> !(f < g))
  {
    forall i | 0 <= i < |members|
      ensures IsFitting(b, members[i], top) <==> Acceptable(b, members[i]) && TopOf(members[i]) <= {top}
    {
      FittingIff(b, members[i], top);
    }
    forall i | 0 <= i < |members| ensures TopOf(members[i]) <= Tops(members) {}
    if [top] + SETUP_FILE in Files(b, members) {
      FilesFrom(b, members, [top] + SETUP_FILE);
      var i :| 0 <= i < |members| && Extracted(b, members[i]) && Parts(members[i].name) == [top] + SETUP_FILE;
      assert top in TopOf(members[i]);
    }
  }

  lemma FittingIff(b: Boundary, m: Member, top: string)
    ensures IsFitting(b, m, top) <==> Acceptable(b, m) && TopOf(m) <= {top}
  {
    if m.name == "" {
      assert Parts(m.name) == [];
    }
    if SafeName(m) && !m.kind.Link? && !m.kind.Device? {
      assert Parts(m.name)[0] in TopOf(m);
    }
  }

  /** safe_extract_archive into an empty directory. */
  method SafeExtract(b: Boundary, members: seq<Member>) returns (r: Result<(string, map<Path, Node>)>)
    ensures r.Ok? <==> (forall i :: 0 <= i < |members| ==> Acceptable(b, members[i])) && !Clash(Files(b, members)) &&
                       exists top :: Tops(members) == {top} && [top] + SETUP_FILE in Files(b, members)
    ensures r.Ok? ==> Tops(members) == {r.value.0} && IsTreeOf(Files(b, members), r.value.1)
    ensures r.Ok? ==> Accepts(b, members, r.value.0) && r.value.1 == TreeOf(Files(b, members))
    ensures r.Error? ==> forall top :: !Accepts(b, members, top)
  {
    var top := CheckMembers(b, members);
    if top.Error? {
      return Error(top.message);
    }
    forall i | 0 <= i < |members| ensures SafeName(members[i]) { assert Acceptable(b, members[i]); }
    var ok, tree := WriteAll(b, members);
    if !ok {
      return Error("file and directory clash");
    }
    var setup := [top.value] + SETUP_FILE;
    if setup !in tree || tree[setup].Dir? {
      return Error("downloaded archive does not contain the EleSim setup package");
    }
    TreeIsUnique(Files(b, members), tree);
    r := Ok((top.value, tree));
  }

  // ----- the boundary scan

  /** What rglob finds below the snapshot root. */
  datatype Entry = Entry(path: Path, kind: EntryKind)

  datatype EntryKind = FileEntry | DirectoryEntry | SymlinkEntry | OtherEntry

  predicate Expected(b: Boundary, e: Entry) {
    match e.kind
    case SymlinkEntry => false
    case DirectoryEntry => DirectoryAllowed(b, e.path)
    case FileEntry => e.path in b.excluded || PathAllowed(b, e.path)
    case OtherEntry => false
  }

  /** The scan stops at five unexpected entries. */
  method ScanBoundary(b: Boundary, entries: seq<Entry>) returns (unexpected: seq<Path>)
    ensures unexpected == [] <==> forall i :: 0 <= i < |entries| ==> Expected(b, entries[i])
    ensures |unexpected| <= 5
  {
    unexpected := [];
    for i := 0 to |entries|
      invariant |unexpected| < 5
      invariant unexpected == [] <==> forall k :: 0 <= k < i ==> Expected(b, entries[k])
    {
      if !Expected(b, entries[i]) {
        unexpected := unexpected + [entries[i].path];
      }
      if |unexpected| >= 5 {
        return;
      }
    }
  }

  /** The entries of an extracted tree below its top-level directory, in some order. */
  ghost predicate Lists(entries: seq<Entry>, top: string, tree: map<Path, Node>) {
    forall e :: e in entries ==>
      (&& e.path != [] && [top] + e.path in tree
       && e.kind == if tree[[top] + e.path].File? then FileEntry else DirectoryEntry)
  }

  lemma TopOfExtracted(b: Boundary, members: seq<Member>, top: string, i: nat)
    requires i < |members| && Extracted(b, members[i]) && Tops(members) == {top}
    ensures Parts(members[i].name)[0] == top
  {
    assert Parts(members[i].name)[0] in TopOf(members[i]);
    assert Parts(members[i].name)[0] in Tops(members);
  }

  lemma TailPrefix(p: Path, f: Path)
    requires p < f && p != []
    ensures p[1..] < f[1..]
  {
    assert f[..|p|] == p;
    assert f[1..][..|p| - 1] == f[..|p|][1..];
  }

  /** Every extracted file is path-allowed and every directory above it directory-allowed. */
  lemma ExtractionStaysInside(b: Boundary, members: seq<Member>, top: string, tree: map<Path, Node>, p: Path)
    requires Tops(members) == {top} && IsTreeOf(Files(b, members), tree) && p in tree
    ensures p != [] && p[0] == top
    ensures tree[p].File? ==> PathAllowed(b, p[1..])
    ensures tree[p].Dir? ==> |p| == 1 || DirectoryAllowed(b, p[1..])
  {
    var files := Files(b, members);
    var f :| f in files && if p in files then f == p else p < f;
    FilesFrom(b, members, f);
    var i :| 0 <= i < |members| && Extracted(b, members[i]) && Parts(members[i].name) == f;
    TopOfExtracted(b, members, top, i);
    if p !in files && |p| > 1 {
      TailPrefix(p, f);
      AncestorsAllowed(b, f[1..], p[1..]);
    }
  }

  /** So the scan of a fresh extraction finds nothing unexpected. */
  lemma FreshExtractionPasses(b: Boundary, members: seq<Member>, top: string, tree: map<Path, Node>,
                              entries: seq<Entry>)
    requires Tops(members) == {top} && IsTreeOf(Files(b, members), tree) && Lists(entries, top, tree)
    ensures forall i :: 0 <= i < |entries| ==> Expected(b, entries[i])
  {
    forall i | 0 <= i < |entries| ensures Expected(b, entries[i]) {
      var e := entries[i];
      assert e in entries;
      ExtractionStaysInside(b, members, top, tree, [top] + e.path);
      assert ([top] + e.path)[1..] == e.path;
    }
  }

  // ----- writing names

  /** The member name of a path. */
  function Join(p: Path): string
    requires p != []
  {
    if |p| == 1 then p[0] else p[0] + "/" + Join(p[1..])
  }

  predicate CleanPart(c: string) { c != "" && c != "." && '/' !in c }

  lemma {:induction false} SplitAtSlash(x: string, rest: string, part: string)
    requires '/' !in x
    ensures Split(x + "/" + rest, part) == Component(part + x) + Split(rest, "")
    decreases |x|
  {
    var all := x + "/" + rest;
    if x == [] {
      assert all == ['/'] + rest && part + x == part;
    } else {
      assert all[0] == x[0] && x[0] in x && all[1..] == x[1..] + "/" + rest;
      forall c | c in x[1..] ensures c in x {}
      SplitAtSlash(x[1..], rest, part + [x[0]]);
      assert part + [x[0]] + x[1..] == part + x;
    }
  }

  lemma {:induction false} SplitWhole(rest: string, part: string)
    requires '/' !in rest
    ensures Split(rest, part) == Component(part + rest)
    decreases |rest|
  {
    if rest == [] {
      assert part + rest == part;
    } else {
      assert rest[0] in rest;
      forall c | c in rest[1..] ensures c in rest {}
      SplitWhole(rest[1..], part + [rest[0]]);
      assert part + [rest[0]] + rest[1..] == part + rest;
    }
  }

  /** A path of clean parts is read back from its name. */
  lemma {:induction false} PartsOfJoin(p: Path)
    requires p != [] && forall c :: c in p ==> CleanPart(c)
    ensures Parts(Join(p)) == p && Join(p)[0] != '/'
  {
    var x := p[0];
    assert CleanPart(x) && x[0] in x && "" + x == x;
    if |p| == 1 {
      SplitWhole(x, "");
    } else {
      forall c | c in p[1..] ensures CleanPart(c) { assert c in p; }
      SplitAtSlash(x, Join(p[1..]), "");
      PartsOfJoin(p[1..]);
      assert Join(p)[0] == x[0];
    }
  }

  /** A name without a slash is one component, and a slash separates. */
  lemma {:induction false} SplitConcatenates(x: string, y: string, part: string)
    requires '/' !in part
    ensures Split(x + "/" + y, part) == Split(x, part) + Split(y, "")
    decreases |x|
  {
    var whole := x + "/" + y;
    if x == "" {
      assert whole[1..] == y;
    } else {
      assert whole[1..] == x[1..] + "/" + y;
      if x[0] == '/' {
        SplitConcatenates(x[1..], y, "");
      } else {
        SplitConcatenates(x[1..], y, part + [x[0]]);
      }
    }
  }

  lemma PartsAtSlash(x: string, y: string)
    ensures Parts(x + "/" + y) == Parts(x) + Parts(y)
    ensures '/' !in x ==> Parts(x) == if x == "" || x == "." then [] else [x]
  {
    SplitConcatenates(x, y, "");
    if '/' !in x {
      assert "" + x == x;
      SplitWhole(x, "");
    }
  }

  /** An archive of one file. */
  lemma SingleFile(b: Boundary, top: string, content: string)
    requires CleanPart(top) && top != ".." && PathAllowed(b, SETUP_FILE)
    ensures var archive := [Member(Join([top] + SETUP_FILE), Regular, content)];
      Accepts(b, archive, top) && Files(b, archive) == map[[top] + SETUP_FILE := content]
  {
    var p := [top] + SETUP_FILE;
    var m := Member(Join(p), Regular, content);
    SetupIsClean();
    forall c | c in p ensures CleanPart(c) && c != ".." { if c != top { assert c in SETUP_FILE; } }
    PartsOfJoin(p);
    assert Below(m) == SETUP_FILE;
    OneMember(b, m);
    assert p in Files(b, [m]);
  }

  lemma SetupIsClean()
    ensures forall c :: c in SETUP_FILE ==> CleanPart(c) && c != ".."
  {
  }

  lemma OneMember(b: Boundary, m: Member)
    requires Extracted(b, m)
    ensures Acceptable(b, m) && Files(b, [m]) == map[Parts(m.name) := m.content]
    ensures Tops([m]) == {Parts(m.name)[0]} && !Clash(Files(b, [m]))
  {
    assert [m][..0] == [];
    assert Files(b, []) == map[];
    assert TopOf([m][0]) == {Parts(m.name)[0]};
  }
}
