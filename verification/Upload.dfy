/**
 A recursive upload with `prune`: the check that counts what differs, and the apply that makes
 the host's directory the source's. Paths are relative to the destination, itself the empty
 path; the host is link-free, and holds contents where the program compares checksums.
 */
module Upload {
  import opened Wrappers
  import opened Paths
  import opened Sorting
  import opened FileTree
  import opened Modes
  import opened Prune

  datatype Options = Options(
    prune: bool,
    owner: Option<string>,
    group: Option<string>,
    fileMode: Option<string>,
    dirMode: Option<string>)
  {
    predicate ChangesAttrs() {
      owner.Some? || group.Some? || fileMode.Some? || dirMode.Some?
    }

    function Mode(dir: bool): Option<string> {
      if dir then dirMode else fileMode
    }
  }

  datatype UploadError =
    | NotADirectory
    | Unreadable(path: string)
    | NothingToUpload
    | UnprunableName(path: string)
    | InTheWay(path: string)

  /** What is uploaded: the walk's result, and each file's content as it is written — none for
      one that cannot be read, or whose template does not render. */
  datatype Source = Source(tree: SourceTree, contents: map<string, string>, patterns: seq<Pattern>)
  {
    ghost predicate Valid() {
      IsSource(tree, patterns)
    }

    function Dirs(): seq<string> {
      [""] + tree.dirs
    }

    ghost predicate Managed(path: string) {
      path in Dirs() || path in tree.files
    }

    predicate Readable() {
      forall f :: f in tree.files ==> f in contents
    }
  }

  // ---- Attributes ----

  predicate AttrsMatch(attrs: Attrs, options: Options, dir: bool) {
    && (options.owner.Some? ==> options.owner.value == attrs.owner)
    && (options.group.Some? ==> options.group.value == attrs.group)
    && (options.Mode(dir).Some? ==> SameMode(options.Mode(dir).value, attrs.mode))
  }

  // ---- What the host's commands do ----

  /** `mkdir -p`. */
  function MakeDir(tree: Tree, path: string, initial: Attrs): Option<Tree>
    decreases |path|
  {
    if path in tree then (if tree[path].DirNode? then Some(tree) else None)
    else if path == "" then Some(tree[path := DirNode(initial)])
    else
      AboveShorter(path);
      match MakeDir(tree, Above(path), initial)
      case None => None
      case Some(next) => Some(next[path := DirNode(initial)])
  }

  function MakeDirs(tree: Tree, dirs: seq<string>, initial: Attrs): Option<Tree>
    decreases |dirs|
  {
    if dirs == [] then Some(tree)
    else
      match MakeDir(tree, dirs[0], initial)
      case None => None
      case Some(next) => MakeDirs(next, dirs[1..], initial)
  }

  /** An upload: it needs the directory to be there, and keeps an existing file's attributes. */
  function WriteFile(tree: Tree, path: string, content: string, initial: Attrs): Option<Tree> {
    if path in tree && tree[path].DirNode? then None
    else if path != "" && (Above(path) !in tree || tree[Above(path)].FileNode?) then None
    else Some(tree[path := FileNode(content, if path in tree then tree[path].attrs else initial)])
  }

  predicate HasContent(tree: Tree, path: string, content: string) {
    path in tree && tree[path].FileNode? && tree[path].content == content
  }

  /** `chown` and `chgrp`, which clear a file's set-id bits: a mode's digit before the last
      three. */
  function Chowned(owner: Option<string>, group: Option<string>, node: Node): Node {
    var attrs := node.attrs
      .(owner := if owner.Some? then owner.value else node.attrs.owner)
      .(group := if group.Some? then group.value else node.attrs.group);
    if owner.None? && group.None? then node
    else
      match node
      case DirNode(_) => DirNode(attrs)
      case FileNode(content, _) => FileNode(content, attrs.(mode := WithoutSetId(attrs.mode)))
  }

  function WithoutSetId(mode: string): string {
    if |mode| > 3 then mode[|mode| - 3..] else mode
  }

  /** Whether a host's `chmod` keeps a directory's set-id bits, given this mode: with fewer than
      five digits it does, where it does at all. */
  predicate Keeps(keepsSetId: bool, mode: string) {
    keepsSetId && |mode| < 5
  }

  function NewDirMode(asked: string, keepsSetId: bool, had: string): string {
    if Keeps(keepsSetId, asked) then WithSetIds(asked, had) else Bare(asked)
  }

  /** It is the mode asked for exactly if no set-id bit is kept that is not; asking again changes
      nothing. */
  lemma NewDirModeIs(asked: string, keepsSetId: bool, had: string)
    ensures var now := NewDirMode(asked, keepsSetId, had);
            && (SameMode(asked, now) <==> (Keeps(keepsSetId, asked) ==> SetIdsAmong(had, asked)))
            && NewDirMode(asked, keepsSetId, now) == now
  {
    SameModeWhenSet(asked);
    KeptSetIds(asked, had);
  }

  /** `find -type … -exec chmod`. */
  function Chmodded(mode: Option<string>, dirs: bool, keepsSetId: bool, node: Node): Node {
    if mode.None? || node.DirNode? != dirs then node
    else
      match node
      case DirNode(attrs) =>
        DirNode(attrs.(mode := NewDirMode(mode.value, keepsSetId, attrs.mode)))
      case FileNode(content, attrs) => FileNode(content, attrs.(mode := Bare(mode.value)))
  }

  /** One command over every one of `paths`, each of which must be there. */
  function Changed(tree: Tree, paths: seq<string>, change: Node -> Node): Option<Tree>
    decreases |paths|
  {
    if paths == [] then Some(tree)
    else if paths[0] !in tree then None
    else Changed(tree[paths[0] := change(tree[paths[0]])], paths[1..], change)
  }

  function ChangedAt(tree: Tree, at: set<string>, change: Node -> Node): Tree {
    map p | p in tree :: if p in at then change(tree[p]) else tree[p]
  }

  lemma {:induction false} ChangedIsMap(tree: Tree, paths: seq<string>, change: Node -> Node)
    requires forall p :: p in paths ==> p in tree
    requires forall n :: change(change(n)) == change(n)
    ensures Changed(tree, paths, change) == Some(ChangedAt(tree, SetOf(paths), change))
    decreases |paths|
  {
    if paths == [] {
      assert ChangedAt(tree, SetOf(paths), change) == tree;
    } else {
      var next := tree[paths[0] := change(tree[paths[0]])];
      ChangedIsMap(next, paths[1..], change);
      assert paths == [paths[0]] + paths[1..];
      assert ChangedAt(next, SetOf(paths[1..]), change) == ChangedAt(tree, SetOf(paths), change);
    }
  }

  /** `tree` grown by directories among `dirs`. */
  ghost predicate Grown(tree: Tree, next: Tree, dirs: set<string>, initial: Attrs) {
    && ParentClosed(next)
    && (forall p :: p in tree ==> p in next && next[p] == tree[p])
    && (forall p :: p in next && p !in tree ==> p in dirs && next[p] == DirNode(initial))
  }

  /** `dirs` with every directory above each, none of them a file on the host. */
  ghost predicate ClosedDirs(tree: Tree, dirs: set<string>) {
    forall d :: d in dirs ==> (d != "" ==> Above(d) in dirs) && (d in tree ==> tree[d].DirNode?)
  }

  lemma {:induction false} MakeDirGrows(tree: Tree, path: string, dirs: set<string>, initial: Attrs)
    requires ParentClosed(tree) && ClosedDirs(tree, dirs) && path in dirs
    ensures MakeDir(tree, path, initial).Some?
    ensures var next := MakeDir(tree, path, initial).value;
            Grown(tree, next, dirs, initial) && path in next && next[path].DirNode?
    decreases |path|
  {
    if path !in tree && path != "" {
      AboveShorter(path);
      MakeDirGrows(tree, Above(path), dirs, initial);
    }
  }

  /** `mkdir -p` of a closed set of directories makes the missing ones, and nothing else. */
  lemma {:induction false} MakeDirsGrows(tree: Tree, paths: seq<string>, dirs: set<string>, initial: Attrs)
    requires ParentClosed(tree) && ClosedDirs(tree, dirs) && forall p :: p in paths ==> p in dirs
    ensures MakeDirs(tree, paths, initial).Some?
    ensures var next := MakeDirs(tree, paths, initial).value;
            Grown(tree, next, dirs, initial) && forall p :: p in paths ==> p in next
    decreases |paths|
  {
    if paths != [] {
      MakeDirGrows(tree, paths[0], dirs, initial);
      var next := MakeDir(tree, paths[0], initial).value;
      MakeDirsGrows(next, paths[1..], dirs, initial);
      assert paths == [paths[0]] + paths[1..];
    }
  }

  // ---- The host ----

  /** The host's destination, changed only through its commands. */
  class Host {
    var tree: Tree
    const initial: Attrs
    /** Whether its `chmod` keeps a directory's set-id bits, as GNU's does. */
    const keepsSetId: bool

    constructor (tree: Tree, initial: Attrs, keepsSetId: bool)
      ensures this.tree == tree && this.initial == initial && this.keepsSetId == keepsSetId
    {
      this.tree, this.initial, this.keepsSetId := tree, initial, keepsSetId;
    }

    /** `find`: every entry under the destination, in no order. */
    method ListTree() returns (remote: seq<Listed>)
      ensures IsListing(remote, tree)
    {
      remote := [];
      var rest := tree.Keys - {""};
      while rest != {}
        invariant rest <= tree.Keys - {""}
        invariant forall e :: e in remote <==>
                    e.path != "" && e.path in tree && e.path !in rest && KindOf(tree[e.path]) == e.kind
      {
        var path :| path in rest;
        rest := rest - {path};
        remote := remote + [Listed(KindOf(tree[path]), path)];
      }
    }

    method Remove(strays: Strays) returns (ok: bool)
      modifies this`tree
      ensures ok <==> RemoveStrays(old(tree), strays).Some?
      ensures ok ==> tree == RemoveStrays(old(tree), strays).value
    {
      ok := true;
      for i := 0 to |strays.files|
        invariant RemoveFiles(old(tree), strays.files) == RemoveFiles(tree, strays.files[i..])
      {
        var next := RemoveFile(tree, strays.files[i]);
        if next.None? {
          return false;
        }
        tree := next.value;
      }
      ghost var afterFiles := tree;
      for i := 0 to |strays.dirs|
        invariant RemoveDirs(afterFiles, strays.dirs) == RemoveDirs(tree, strays.dirs[i..])
      {
        var next := RemoveDir(tree, strays.dirs[i]);
        if next.None? {
          return false;
        }
        tree := next.value;
      }
    }

    method CreateDirs(dirs: seq<string>) returns (ok: bool)
      modifies this`tree
      ensures ok <==> MakeDirs(old(tree), dirs, initial).Some?
      ensures ok ==> tree == MakeDirs(old(tree), dirs, initial).value
    {
      ok := true;
      for i := 0 to |dirs|
        invariant MakeDirs(old(tree), dirs, initial) == MakeDirs(tree, dirs[i..], initial)
      {
        var next := MakeDir(tree, dirs[i], initial);
        if next.None? {
          return false;
        }
        tree := next.value;
      }
    }

    method UploadFile(path: string, content: string) returns (ok: bool)
      modifies this`tree
      ensures ok <==> WriteFile(old(tree), path, content, initial).Some?
      ensures tree == if ok then WriteFile(old(tree), path, content, initial).value else old(tree)
    {
      var next := WriteFile(tree, path, content, initial);
      ok := next.Some?;
      tree := if ok then next.value else tree;
    }

    method Change(paths: seq<string>, change: Node -> Node) returns (ok: bool)
      modifies this`tree
      ensures ok <==> Changed(old(tree), paths, change).Some?
      ensures ok ==> tree == Changed(old(tree), paths, change).value
    {
      ok := true;
      for i := 0 to |paths|
        invariant Changed(old(tree), paths, change) == Changed(tree, paths[i..], change)
      {
        if paths[i] !in tree {
          return false;
        }
        tree := tree[paths[i] := change(tree[paths[i]])];
      }
    }
  }

  // ---- What a check finds ----

  function Count<T>(s: seq<T>, counts: T -> bool): nat {
    if s == [] then 0 else (if counts(s[|s| - 1]) then 1 else 0) + Count(s[..|s| - 1], counts)
  }

  lemma {:induction false} CountZero<T>(s: seq<T>, counts: T -> bool)
    ensures Count(s, counts) == 0 <==> forall x :: x in s ==> !counts(x)
  {
    if s != [] {
      CountZero(s[..|s| - 1], counts);
      assert s == s[..|s| - 1] + [s[|s| - 1]];
    }
  }

  /** The host has the other kind than the source at `path`. */
  predicate Mismatches(tree: Tree, path: string, dir: bool) {
    path in tree && tree[path].DirNode? != dir
  }

  ghost predicate Mismatched(tree: Tree, source: Source, path: string) {
    || (path in source.Dirs() && Mismatches(tree, path, true))
    || (path in source.tree.files && Mismatches(tree, path, false))
  }

  /** Each mismatched path, with whether the host's is a directory. */
  ghost predicate AreMismatches(mismatched: seq<(string, bool)>, tree: Tree, source: Source) {
    && (forall m :: m in mismatched ==> Mismatched(tree, source, m.0) && m.1 == tree[m.0].DirNode?)
    && (forall p :: Mismatched(tree, source, p) ==> (p, tree[p].DirNode?) in mismatched)
  }

  /** A file whose content the host lacks, when nothing of another kind is in its way. */
  ghost predicate ContentDiffers(tree: Tree, source: Source, path: string) {
    && !Mismatches(tree, path, false)
    && !(exists d :: Mismatched(tree, source, d) && Below(d, path))
    && path in source.contents && !HasContent(tree, path, source.contents[path])
  }

  ghost function ContentTest(tree: Tree, source: Source): string -> bool {
    f => ContentDiffers(tree, source, f)
  }

  function MismatchTest(tree: Tree, dir: bool): string -> bool {
    p => Mismatches(tree, p, dir)
  }

  function MissingTest(tree: Tree): string -> bool {
    d => d !in tree
  }

  function AttrsTest(tree: Tree, options: Options, dir: bool): string -> bool {
    p => AttrsDiffer(tree, options, p, dir)
  }

  predicate AttrsDiffer(tree: Tree, options: Options, path: string, dir: bool) {
    path in tree && tree[path].DirNode? == dir && !AttrsMatch(tree[path].attrs, options, dir)
  }

  /** The host has what the source has, with the attributes asked for, and with `prune`
      nothing that should go. */
  ghost predicate InSync(tree: Tree, source: Source, options: Options) {
    && (forall d :: d in source.Dirs() ==>
          d in tree && tree[d].DirNode? && AttrsMatch(tree[d].attrs, options, true))
    && (forall f :: f in source.tree.files ==>
          && f in source.contents && HasContent(tree, f, source.contents[f])
          && AttrsMatch(tree[f].attrs, options, false))
    && (options.prune ==> forall p :: p in tree ==> Stays(tree, source.tree, source.patterns, p))
  }

  /** `prune` with nothing to upload, or a name the host's listing could not be told by. */
  predicate Unprunable(tree: SourceTree) {
    (tree.files == [] && tree.dirs == []) || exists p :: p in tree.files + tree.dirs && OddName(p)
  }

  predicate OddName(path: string) {
    '\U{FFFD}' in path || '\r' in path || '\n' in path
  }

  method CheckPruneSource(tree: SourceTree) returns (problem: Option<UploadError>)
    ensures problem.Some? <==> Unprunable(tree)
  {
    if tree.files == [] && tree.dirs == [] {
      return Some(NothingToUpload);
    }
    var names := tree.files + tree.dirs;
    for i := 0 to |names|
      invariant forall p :: p in names[..i] ==> !OddName(p)
    {
      if OddName(names[i]) {
        return Some(UnprunableName(names[i]));
      }
      assert names[..i + 1] == names[..i] + [names[i]];
    }
    assert names[..|names|] == names;
    return None;
  }

  /** The destination is there, and is not a directory. */
  predicate NotADir(tree: Tree) {
    Mismatches(tree, "", true)
  }

  /** Asked before anything else: what is there, and what of the other kind. */
  method ManagedStats(host: Host, source: Source) returns (r: Result<seq<(string, bool)>, UploadError>)
    ensures r.Err? <==> NotADir(host.tree)
    ensures r.Ok? ==> AreMismatches(r.value, host.tree, source) && |r.value| == MismatchCount(host.tree, source)
  {
    if NotADir(host.tree) {
      return Err(NotADirectory);
    }
    var dirs := MismatchesIn(host, source.Dirs(), true);
    var files := MismatchesIn(host, source.tree.files, false);
    r := Ok(dirs + files);
  }

  function MismatchCount(tree: Tree, source: Source): nat {
    Count(source.Dirs(), MismatchTest(tree, true)) + Count(source.tree.files, MismatchTest(tree, false))
  }

  function AttrsCount(tree: Tree, source: Source, options: Options): nat {
    if options.ChangesAttrs() then
      Count(source.Dirs(), AttrsTest(tree, options, true)) + Count(source.tree.files, AttrsTest(tree, options, false))
    else 0
  }

  method MismatchesIn(host: Host, paths: seq<string>, dir: bool) returns (found: seq<(string, bool)>)
    ensures forall m :: m in found ==>
              m.0 in paths && Mismatches(host.tree, m.0, dir) && m.1 == host.tree[m.0].DirNode?
    ensures forall p :: p in paths && Mismatches(host.tree, p, dir) ==> (p, host.tree[p].DirNode?) in found
    ensures |found| == Count(paths, MismatchTest(host.tree, dir))
  {
    found := [];
    for i := 0 to |paths|
      invariant forall m :: m in found ==>
                  m.0 in paths && Mismatches(host.tree, m.0, dir) && m.1 == host.tree[m.0].DirNode?
      invariant forall j :: 0 <= j < i && Mismatches(host.tree, paths[j], dir) ==>
                              (paths[j], host.tree[paths[j]].DirNode?) in found
      invariant |found| == Count(paths[..i], MismatchTest(host.tree, dir))
    {
      var path := paths[i];
      assert paths[..i + 1][..i] == paths[..i];
      if Mismatches(host.tree, path, dir) {
        found := found + [(path, host.tree[path].DirNode?)];
      }
    }
    assert paths[..|paths|] == paths;
  }

  /** Whether a directory above `path` is mismatched, by its chain of parents. */
  method BelowMismatch(path: string, mismatched: seq<(string, bool)>) returns (below: bool)
    ensures below <==> exists m :: m in mismatched && Below(m.0, path)
  {
    var at := path;
    while Parent(at).Some?
      invariant forall m :: m in mismatched ==> (Below(m.0, path) <==> Below(m.0, at))
      decreases |at|
    {
      ParentIsLastSlash(at);
      forall m | m in mismatched ensures Below(m.0, at) <==>
          m.0 == Parent(at).value || Below(m.0, Parent(at).value) {
        BelowByParent(m.0, at);
      }
      at := Parent(at).value;
      for i := 0 to |mismatched|
        invariant forall m :: m in mismatched[..i] ==> m.0 != at
      {
        if mismatched[i].0 == at {
          return true;
        }
        assert mismatched[..i + 1] == mismatched[..i] + [mismatched[i]];
      }
      assert mismatched[..|mismatched|] == mismatched;
    }
    forall m | m in mismatched ensures !Below(m.0, at) {
      BelowByParent(m.0, at);
    }
    return false;
  }

  /** What `prune` would remove; nothing without it. */
  method PruneStrays(host: Host, source: Source, options: Options, mismatched: seq<(string, bool)>)
    returns (r: Result<Strays, UploadError>)
    requires source.Valid() && !NotADir(host.tree)
    requires AreMismatches(mismatched, host.tree, source)
    ensures r.Err? <==> options.prune && Unprunable(source.tree)
    ensures r.Ok? ==> if options.prune then PlanFor(host.tree, source.tree, source.patterns, r.value)
                      else r.value == Strays([], [])
  {
    if !options.prune {
      return Ok(Strays([], []));
    }
    var problem := CheckPruneSource(source.tree);
    if problem.Some? {
      return Err(problem.value);
    }
    var remote := host.ListTree();
    var strays := FindStrays(remote, source.tree, source.patterns);
    PlanGoes(host.tree, remote, source.tree, source.patterns, strays);
    var files := strays.files;
    // A file where the source has a directory is already among them.
    for i := 0 to |mismatched|
      invariant files == strays.files
    {
      var (path, hostDir) := mismatched[i];
      assert (path, hostDir) in mismatched;
      assert !hostDir && path != "" ==> Goes(host.tree, source.tree, source.patterns, path);
      if !hostDir && path != "" && path !in files {
        files := files + [path];
      }
    }
    SortedStays(files);
    r := Ok(Strays(Sort(files, TextLe), strays.dirs));
  }

  lemma {:induction false} SortedStays(s: seq<string>)
    requires Sorted(s, TextLe)
    ensures Sort(s, TextLe) == s
  {
    if s != [] {
      SortedStays(s[1..]);
      assert s == [s[0]] + s[1..];
    }
  }

  // ---- The check ----

  datatype Status = Satisfied | Pending(content: nat, attrs: nat, newDirs: nat, otherKind: nat, strays: nat)

  ghost predicate CheckFails(tree: Tree, source: Source, options: Options) {
    NotADir(tree) || !source.Readable() || (options.prune && Unprunable(source.tree))
  }

  /** What is known of the mismatched paths decides whether something mismatched is above. */
  lemma BelowMismatched(tree: Tree, source: Source, mismatched: seq<(string, bool)>, path: string)
    requires AreMismatches(mismatched, tree, source)
    ensures (exists m :: m in mismatched && Below(m.0, path)) <==> exists d :: Mismatched(tree, source, d) && Below(d, path)
  {
    if d :| Mismatched(tree, source, d) && Below(d, path) {
      assert (d, tree[d].DirNode?) in mismatched;
    }
  }

  /** Whether one file's content is to be uploaded. */
  method DiffersAt(host: Host, source: Source, mismatched: seq<(string, bool)>, f: string) returns (differs: bool)
    requires AreMismatches(mismatched, host.tree, source) && f in source.contents
    ensures differs <==> ContentDiffers(host.tree, source, f)
  {
    var below := BelowMismatch(f, mismatched);
    BelowMismatched(host.tree, source, mismatched, f);
    differs := !Mismatches(host.tree, f, false) && !below && !HasContent(host.tree, f, source.contents[f]);
  }

  method CountContent(host: Host, source: Source, mismatched: seq<(string, bool)>) returns (r: Result<nat, UploadError>)
    requires AreMismatches(mismatched, host.tree, source)
    ensures r.Err? <==> !source.Readable()
    ensures r.Ok? ==> r.value == Count(source.tree.files, ContentTest(host.tree, source))
  {
    var files := source.tree.files;
    var changed := 0;
    for i := 0 to |files|
      invariant forall j :: 0 <= j < i ==> files[j] in source.contents
      invariant changed == Count(files[..i], ContentTest(host.tree, source))
    {
      assert files[..i + 1][..i] == files[..i];
      if files[i] !in source.contents {
        return Err(Unreadable(files[i]));
      }
      var differs := DiffersAt(host, source, mismatched, files[i]);
      if differs {
        changed := changed + 1;
      }
    }
    assert files[..|files|] == files;
    r := Ok(changed);
  }

  method CountIf(paths: seq<string>, counts: string -> bool) returns (n: nat)
    ensures n == Count(paths, counts)
  {
    n := 0;
    for i := 0 to |paths|
      invariant n == Count(paths[..i], counts)
    {
      assert paths[..i + 1][..i] == paths[..i];
      if counts(paths[i]) {
        n := n + 1;
      }
    }
    assert paths[..|paths|] == paths;
  }

  /** The check: satisfied exactly when the host has what the source has. */
  method CheckRecurse(host: Host, source: Source, options: Options) returns (r: Result<Status, UploadError>)
    requires source.Valid()
    ensures r.Err? <==> CheckFails(host.tree, source, options)
    ensures r == Ok(Satisfied) <==> !CheckFails(host.tree, source, options) && InSync(host.tree, source, options)
    ensures r.Ok? && r.value.Pending? ==>
              && r.value.content == Count(source.tree.files, ContentTest(host.tree, source))
              && r.value.newDirs == Count(source.Dirs(), MissingTest(host.tree))
              && r.value.otherKind == MismatchCount(host.tree, source)
              && r.value.attrs == AttrsCount(host.tree, source, options)
  {
    var managed := ManagedStats(host, source);
    if managed.Err? {
      return Err(managed.error);
    }
    var mismatched := managed.value;
    var content := CountContent(host, source, mismatched);
    if content.Err? {
      return Err(content.error);
    }
    var tree := host.tree;
    var newDirs := CountIf(source.Dirs(), MissingTest(tree));
    var attrs := 0;
    if options.ChangesAttrs() {
      var dirAttrs := CountIf(source.Dirs(), AttrsTest(tree, options, true));
      var fileAttrs := CountIf(source.tree.files, AttrsTest(tree, options, false));
      attrs := dirAttrs + fileAttrs;
    }
    var strays := PruneStrays(host, source, options, mismatched);
    if strays.Err? {
      return Err(strays.error);
    }
    var found := |strays.value.files| + |strays.value.dirs|;
    if options.prune {
      NothingToPrune(tree, source.tree, source.patterns, strays.value);
    }
    NothingDiffers(tree, source, options, mismatched);
    if content.value == 0 && attrs == 0 && newDirs == 0 && mismatched == [] && found == 0 {
      r := Ok(Satisfied);
    } else {
      r := Ok(Pending(content.value, attrs, newDirs, |mismatched|, found));
    }
  }

  /** All counts zero is being in sync: nothing a count skips is lost. */
  lemma NothingDiffers(tree: Tree, source: Source, options: Options, mismatched: seq<(string, bool)>)
    requires source.Valid() && source.Readable()
    requires AreMismatches(mismatched, tree, source)
    ensures && mismatched == [] && AttrsCount(tree, source, options) == 0
            && Count(source.tree.files, ContentTest(tree, source)) == 0
            && Count(source.Dirs(), MissingTest(tree)) == 0
            && (options.prune ==> forall p :: p in tree ==> Stays(tree, source.tree, source.patterns, p))
            <==> InSync(tree, source, options)
  {
    CountZero(source.tree.files, ContentTest(tree, source));
    CountZero(source.Dirs(), MissingTest(tree));
    CountZero(source.Dirs(), AttrsTest(tree, options, true));
    CountZero(source.tree.files, AttrsTest(tree, options, false));
    NonEmptyHas(mismatched);
    assert mismatched == [] <==> forall p :: !Mismatched(tree, source, p) by {
      if p :| Mismatched(tree, source, p) {
        assert (p, tree[p].DirNode?) in mismatched;
      }
      if m :| m in mismatched {
        assert Mismatched(tree, source, m.0);
      }
    }
  }
}
