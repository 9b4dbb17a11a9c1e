/** What `prune` removes from the destination, in the order it removes it. */
module Prune {
  import opened Wrappers
  import opened Paths
  import opened Sorting
  import opened FileTree

  /*
   Files go first, then directories deepest first. Run in that order against the host, every
   removal is one the host accepts, and exactly what the source has, what is excluded and what
   holds something excluded is left.
   */

  datatype RemoteKind = DirKind | Other
  datatype Listed = Listed(kind: RemoteKind, path: string)
  datatype Strays = Strays(files: seq<string>, dirs: seq<string>)

  // ---- The plan, from a listing ----

  ghost predicate Has(source: SourceTree, entry: Listed) {
    if entry.kind.DirKind? then entry.path in source.dirs else entry.path in source.files
  }

  /** A directory with an excluded entry under it. */
  ghost predicate Holding(remote: seq<Listed>, patterns: seq<Pattern>, dir: string) {
    exists e :: e in remote && Excludes(patterns, e.path) && Below(dir, e.path)
  }

  ghost predicate Stray(remote: seq<Listed>, source: SourceTree, patterns: seq<Pattern>, entry: Listed) {
    && entry in remote && !Has(source, entry) && !Excludes(patterns, entry.path)
    && (entry.kind.DirKind? ==> !Holding(remote, patterns, entry.path))
  }

  predicate DeepestFirst(a: string, b: string) {
    Depth(a) > Depth(b) || (Depth(a) == Depth(b) && TextLe(a, b))
  }

  lemma DeepestFirstOrder()
    ensures IsOrder(DeepestFirst)
  {
    TextOrder();
  }

  ghost predicate NoDuplicates<T>(s: seq<T>) {
    forall i, j :: 0 <= i < j < |s| ==> s[i] != s[j]
  }

  ghost predicate IsPlan(strays: Strays, remote: seq<Listed>, source: SourceTree, patterns: seq<Pattern>) {
    && (forall path :: path in strays.files <==> Stray(remote, source, patterns, Listed(Other, path)))
    && (forall path :: path in strays.dirs <==> Stray(remote, source, patterns, Listed(DirKind, path)))
    && Sorted(strays.files, TextLe)
    && Sorted(strays.dirs, DeepestFirst) && NoDuplicates(strays.dirs)
  }

  method FindStrays(remote: seq<Listed>, source: SourceTree, patterns: seq<Pattern>) returns (strays: Strays)
    ensures IsPlan(strays, remote, source, patterns)
  {
    var holding := HoldingDirs(remote, patterns);
    var files: seq<string>, dirs: set<string> := [], {};
    for i := 0 to |remote|
      invariant forall path :: path in files <==>
                  Listed(Other, path) in remote[..i] && Stray(remote, source, patterns, Listed(Other, path))
      invariant forall path :: path in dirs <==>
                  Listed(DirKind, path) in remote[..i] && Stray(remote, source, patterns, Listed(DirKind, path))
    {
      var entry := remote[i];
      var excluded := ExcludesPath(patterns, entry.path);
      var kept := if entry.kind.DirKind? then entry.path in source.dirs else entry.path in source.files;
      if !kept && !excluded {
        match entry.kind {
          case DirKind =>
            if entry.path !in holding {
              dirs := dirs + {entry.path};
            }
          case Other =>
            files := files + [entry.path];
        }
      }
      assert remote[..i + 1] == remote[..i] + [entry];
    }
    assert remote[..|remote|] == remote;
    var byName := Ascending(dirs);
    TextOrder();
    SortSorts(files, TextLe);
    DeepestFirstOrder();
    SortSorts(byName, DeepestFirst);
    DistinctBySort(byName, Sort(byName, DeepestFirst));
    strays := Strays(Sort(files, TextLe), Sort(byName, DeepestFirst));
  }

  /** Every directory above an excluded entry, by each entry's chain of parents. */
  method HoldingDirs(remote: seq<Listed>, patterns: seq<Pattern>) returns (holding: set<string>)
    ensures forall dir :: dir in holding <==> Holding(remote, patterns, dir)
  {
    holding := {};
    for i := 0 to |remote|
      invariant forall dir :: dir in holding <==> Holding(remote[..i], patterns, dir)
    {
      var excluded := ExcludesPath(patterns, remote[i].path);
      ghost var before := holding;
      if excluded {
        var at := remote[i].path;
        while Parent(at).Some?
          invariant forall dir :: dir in holding || Below(dir, at) <==> dir in before || Below(dir, remote[i].path)
          decreases |at|
        {
          ParentIsLastSlash(at);
          forall dir {:trigger Below(dir, at)} ensures Below(dir, at) <==>
              dir == Parent(at).value || Below(dir, Parent(at).value) {
            BelowByParent(dir, at);
          }
          holding := holding + {Parent(at).value};
          at := Parent(at).value;
        }
        forall dir ensures !Below(dir, at) {
          BelowByParent(dir, at);
        }
      }
      assert remote[..i + 1] == remote[..i] + [remote[i]];
    }
    assert remote[..|remote|] == remote;
  }

  /** A set's elements, ascending. */
  method Ascending(elements: set<string>) returns (s: seq<string>)
    ensures Sorted(s, TextLe) && NoDuplicates(s)
    ensures forall x :: x in s <==> x in elements
  {
    var rest, picked := elements, [];
    while rest != {}
      invariant rest <= elements && NoDuplicates(picked)
      invariant forall x :: x in picked <==> x in elements && x !in rest
    {
      var x :| x in rest;
      rest := rest - {x};
      picked := picked + [x];
    }
    TextOrder();
    SortSorts(picked, TextLe);
    s := Sort(picked, TextLe);
    DistinctBySort(picked, s);
  }

  lemma {:induction false} DistinctCounts<T>(s: seq<T>)
    ensures NoDuplicates(s) <==> forall x :: multiset(s)[x] <= 1
  {
    if s != [] {
      var rest := s[1..];
      DistinctCounts(rest);
      assert s == [s[0]] + rest;
      assert NoDuplicates(s) <==> NoDuplicates(rest) && s[0] !in rest by {
        assert forall i :: 1 <= i < |s| ==> s[i] == rest[i - 1];
      }
      assert s[0] in rest <==> s[0] in multiset(rest);
      assert forall x :: multiset(s)[x] == multiset(rest)[x] + if x == s[0] then 1 else 0;
      assert multiset(s)[s[0]] == multiset(rest)[s[0]] + 1;
    }
  }

  lemma DistinctBySort<T>(s: seq<T>, r: seq<T>)
    requires NoDuplicates(s) && multiset(r) == multiset(s)
    ensures NoDuplicates(r)
  {
    DistinctCounts(s);
    DistinctCounts(r);
  }

  // ---- The host ----

  datatype Attrs = Attrs(owner: string, group: string, mode: string)
  datatype Node = DirNode(attrs: Attrs) | FileNode(content: string, attrs: Attrs)

  /** The destination, at the empty path, and what is under it. */
  type Tree = map<string, Node>

  /** Every entry but the destination stands in a directory. */
  ghost predicate ParentClosed(tree: Tree) {
    forall path :: path in tree && path != "" ==> Above(path) in tree && tree[Above(path)].DirNode?
  }

  predicate IsEmpty(tree: Tree, dir: string) {
    forall path :: path in tree && path != "" ==> Above(path) != dir
  }

  /** `rm -f`: a missing path is no failure, a directory is. */
  function RemoveFile(tree: Tree, path: string): Option<Tree> {
    if path !in tree then Some(tree)
    else if tree[path].DirNode? then None
    else Some(tree - {path})
  }

  /** `rmdir`: only an empty directory. */
  function RemoveDir(tree: Tree, path: string): Option<Tree> {
    if path in tree && tree[path].DirNode? && IsEmpty(tree, path) then Some(tree - {path}) else None
  }

  function RemoveFiles(tree: Tree, files: seq<string>): Option<Tree> {
    if files == [] then Some(tree)
    else
      match RemoveFile(tree, files[0])
      case None => None
      case Some(next) => RemoveFiles(next, files[1..])
  }

  function RemoveDirs(tree: Tree, dirs: seq<string>): Option<Tree> {
    if dirs == [] then Some(tree)
    else
      match RemoveDir(tree, dirs[0])
      case None => None
      case Some(next) => RemoveDirs(next, dirs[1..])
  }

  function RemoveStrays(tree: Tree, strays: Strays): Option<Tree> {
    match RemoveFiles(tree, strays.files)
    case None => None
    case Some(next) => RemoveDirs(next, strays.dirs)
  }

  function SetOf<T>(s: seq<T>): set<T> {
    set x | x in s
  }

  lemma {:induction false} FilesGo(tree: Tree, files: seq<string>)
    requires forall f :: f in files && f in tree ==> tree[f].FileNode?
    ensures RemoveFiles(tree, files) == Some(tree - SetOf(files))
  {
    if files == [] {
      assert tree - SetOf(files) == tree;
    } else {
      var next := RemoveFile(tree, files[0]).value;
      FilesGo(next, files[1..]);
      assert files == [files[0]] + files[1..];
      assert next - SetOf(files[1..]) == tree - SetOf(files);
    }
  }

  lemma DeeperThanAbove(path: string)
    ensures Above(path) != "" ==> Depth(path) > Depth(Above(path))
  {
    if Above(path) != "" {
      AboveNamed(path);
      DeeperBelow(Above(path), path);
    }
  }

  lemma AboveIsElsewhere(path: string)
    ensures path != "" ==> Above(path) != path
  {
    if path != "" {
      AboveShorter(path);
    }
  }

  /** Directories deepest first, each once, with everything they hold among them. */
  ghost predicate Ready(tree: Tree, dirs: seq<string>) {
    && NoDuplicates(dirs) && Sorted(dirs, DeepestFirst)
    && (forall d :: d in dirs ==> d != "" && d in tree && tree[d].DirNode?)
    && (forall path :: path in tree && path != "" && Above(path) in dirs ==> path in dirs)
  }

  lemma DeepestIsEmpty(tree: Tree, dirs: seq<string>)
    requires Ready(tree, dirs) && dirs != []
    ensures IsEmpty(tree, dirs[0])
  {
    assert dirs[0] in dirs;
    forall path | path in tree && path != "" ensures Above(path) != dirs[0] {
      DeeperThanAbove(path);
      AboveIsElsewhere(path);
      if path in dirs {
        var i :| 0 <= i < |dirs| && dirs[i] == path;
        assert i > 0 ==> DeepestFirst(dirs[0], dirs[i]);
      }
    }
  }

  lemma RestReady(tree: Tree, dirs: seq<string>)
    requires Ready(tree, dirs) && dirs != []
    ensures Ready(tree - {dirs[0]}, dirs[1..])
  {
    var dir, rest := dirs[0], dirs[1..];
    assert forall i :: 0 <= i < |rest| ==> rest[i] == dirs[i + 1] != dir;
    assert dirs == [dir] + rest;
    forall d | d in rest ensures d in dirs && d != dir {
    }
  }

  /** Such directories go one by one: each is empty when its turn comes. */
  lemma {:induction false} DirsGo(tree: Tree, dirs: seq<string>)
    requires Ready(tree, dirs)
    ensures RemoveDirs(tree, dirs) == Some(tree - SetOf(dirs))
  {
    if dirs == [] {
      assert tree - SetOf(dirs) == tree;
    } else {
      DeepestIsEmpty(tree, dirs);
      RestReady(tree, dirs);
      assert dirs[0] in dirs;
      var next := tree - {dirs[0]};
      DirsGo(next, dirs[1..]);
      SetOfFirst(tree, dirs);
    }
  }

  lemma SetOfFirst(tree: Tree, s: seq<string>)
    requires s != []
    ensures tree - {s[0]} - SetOf(s[1..]) == tree - SetOf(s)
  {
    assert s == [s[0]] + s[1..];
  }

  // ---- The plan, run ----

  function KindOf(node: Node): RemoteKind {
    if node.DirNode? then DirKind else Other
  }

  /** A listing of everything under the destination. */
  ghost predicate IsListing(remote: seq<Listed>, tree: Tree) {
    forall e :: e in remote <==> e.path != "" && e.path in tree && KindOf(tree[e.path]) == e.kind
  }

  /** What is left under the destination: what the source has, what is excluded, and the
      directories holding it. */
  ghost predicate Stays(tree: Tree, source: SourceTree, patterns: seq<Pattern>, path: string)
    requires path in tree
  {
    || path == ""
    || Excludes(patterns, path)
    || (if tree[path].DirNode? then path in source.dirs else path in source.files)
    || (tree[path].DirNode? && exists q :: q in tree && Excludes(patterns, q) && Below(path, q))
  }

  lemma {:induction false} InParentClosed(tree: Tree, dir: string, path: string)
    requires ParentClosed(tree) && path in tree && Below(dir, path)
    ensures dir in tree && tree[dir].DirNode?
    decreases |path|
  {
    BelowByParent(dir, path);
    ParentIsLastSlash(path);
    if dir != Above(path) {
      InParentClosed(tree, dir, Above(path));
    }
  }

  /** Whatever holds something that stays, stays: a directory that goes goes with all it has. */
  lemma HolderStays(tree: Tree, source: SourceTree, patterns: seq<Pattern>, dir: string, path: string)
    requires ParentClosed(tree) && IsSource(source, patterns) && path in tree && dir in tree && Below(dir, path)
    requires Stays(tree, source, patterns, path)
    ensures Stays(tree, source, patterns, dir)
  {
    InParentClosed(tree, dir, path);
    if tree[path].DirNode? && exists q :: q in tree && Excludes(patterns, q) && Below(path, q) {
      var q :| q in tree && Excludes(patterns, q) && Below(path, q);
    }
  }

  lemma StrayByPath(tree: Tree, remote: seq<Listed>, source: SourceTree, patterns: seq<Pattern>, path: string)
    requires IsListing(remote, tree)
    ensures path in tree ==>
              (Stray(remote, source, patterns, Listed(KindOf(tree[path]), path)) <==>
               !Stays(tree, source, patterns, path))
    ensures forall kind :: Stray(remote, source, patterns, Listed(kind, path)) ==>
                             path in tree && kind == KindOf(tree[path])
  {
    if path in tree {
      assert Holding(remote, patterns, path) <== exists q :: q in tree && Excludes(patterns, q) && Below(path, q) by {
        if q :| q in tree && Excludes(patterns, q) && Below(path, q) {
          assert Listed(KindOf(tree[q]), q) in remote;
        }
      }
    }
  }

  function WhatStays(tree: Tree, stays: string -> bool): Tree {
    map path | path in tree && stays(path) :: tree[path]
  }

  /** Files and directories split what goes by kind. */
  lemma GoneIsRest(tree: Tree, files: seq<string>, dirs: seq<string>, stays: string -> bool)
    requires forall path :: path in files <==> path in tree && tree[path].FileNode? && !stays(path)
    requires forall path :: path in dirs <==> path in tree && tree[path].DirNode? && !stays(path)
    ensures tree - SetOf(files) - SetOf(dirs) == WhatStays(tree, stays)
  {
    var left, kept := tree - SetOf(files) - SetOf(dirs), WhatStays(tree, stays);
    forall path ensures path in left <==> path in kept {
      assert path in SetOf(files) <==> path in files;
      assert path in SetOf(dirs) <==> path in dirs;
    }
  }

  ghost predicate Goes(tree: Tree, source: SourceTree, patterns: seq<Pattern>, path: string) {
    path in tree && !Stays(tree, source, patterns, path)
  }

  /** A plan for what is on the host now. */
  ghost predicate PlanFor(tree: Tree, source: SourceTree, patterns: seq<Pattern>, strays: Strays) {
    && (forall path :: path in strays.files <==> Goes(tree, source, patterns, path) && tree[path].FileNode?)
    && (forall path :: path in strays.dirs <==> Goes(tree, source, patterns, path) && tree[path].DirNode?)
    && Sorted(strays.files, TextLe)
    && Sorted(strays.dirs, DeepestFirst) && NoDuplicates(strays.dirs)
  }

  lemma PlanGoes(tree: Tree, remote: seq<Listed>, source: SourceTree, patterns: seq<Pattern>, strays: Strays)
    requires IsListing(remote, tree) && IsPlan(strays, remote, source, patterns)
    ensures PlanFor(tree, source, patterns, strays)
  {
    forall path
      ensures path in strays.files <==> Goes(tree, source, patterns, path) && tree[path].FileNode?
      ensures path in strays.dirs <==> Goes(tree, source, patterns, path) && tree[path].DirNode?
    {
      StrayByPath(tree, remote, source, patterns, path);
    }
  }

  /** What stands in a directory that goes, goes. */
  lemma GoesWithAbove(tree: Tree, source: SourceTree, patterns: seq<Pattern>, path: string)
    requires ParentClosed(tree) && IsSource(source, patterns)
    requires path in tree && path != "" && Goes(tree, source, patterns, Above(path))
    ensures Goes(tree, source, patterns, path)
  {
    AboveNamed(path);
    if Stays(tree, source, patterns, path) {
      HolderStays(tree, source, patterns, Above(path), path);
    }
  }

  /** The plan runs to its end, and leaves exactly what stays, untouched. */
  lemma PruneIsExact(tree: Tree, source: SourceTree, patterns: seq<Pattern>, strays: Strays)
    requires ParentClosed(tree) && IsSource(source, patterns)
    requires PlanFor(tree, source, patterns, strays)
    ensures RemoveStrays(tree, strays) == Some(Left(tree, source, patterns))
  {
    FilesGo(tree, strays.files);
    var next := tree - SetOf(strays.files);
    forall path | path in next && path != "" && Above(path) in strays.dirs ensures path in strays.dirs {
      GoesWithAbove(tree, source, patterns, path);
    }
    DirsGo(next, strays.dirs);
    GoneIsRest(tree, strays.files, strays.dirs, path => !Goes(tree, source, patterns, path));
    assert Left(tree, source, patterns) == WhatStays(tree, path => !Goes(tree, source, patterns, path));
  }

  /** What the plan leaves. */
  ghost function Left(tree: Tree, source: SourceTree, patterns: seq<Pattern>): Tree {
    map path | path in tree && Stays(tree, source, patterns, path) :: tree[path]
  }

  lemma AboveNamed(path: string)
    ensures Above(path) != "" ==> Below(Above(path), path)
  {
    BelowByParent(Above(path), path);
  }

  /** Afterwards every entry still stands in a directory, and planning again finds nothing. */
  lemma PruneSettles(tree: Tree, source: SourceTree, patterns: seq<Pattern>)
    requires ParentClosed(tree) && IsSource(source, patterns)
    ensures var left := Left(tree, source, patterns);
            ParentClosed(left) && forall path :: path in left ==> Stays(left, source, patterns, path)
  {
    var left := Left(tree, source, patterns);
    forall path | path in left && path != "" ensures Above(path) in left {
      AboveNamed(path);
      if Above(path) != "" {
        HolderStays(tree, source, patterns, Above(path), path);
      }
    }
    forall path | path in left ensures Stays(left, source, patterns, path) {
      if q :| q in tree && Excludes(patterns, q) && Below(path, q) {
        assert q in left;
      }
    }
  }

  lemma NonEmptyHas<T>(s: seq<T>)
    ensures s != [] ==> exists x :: x in s
  {
    if s != [] {
      assert s[0] in s;
    }
  }

  lemma NothingToPrune(tree: Tree, source: SourceTree, patterns: seq<Pattern>, strays: Strays)
    requires PlanFor(tree, source, patterns, strays)
    ensures strays == Strays([], []) <==> forall path :: path in tree ==> Stays(tree, source, patterns, path)
  {
    NonEmptyHas(strays.files);
    NonEmptyHas(strays.dirs);
    if strays == Strays([], []) {
      forall path | path in tree ensures Stays(tree, source, patterns, path) {
        assert path !in strays.files && path !in strays.dirs;
      }
    } else {
      assert exists path :: Goes(tree, source, patterns, path);
    }
  }
}
