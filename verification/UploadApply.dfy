/** The apply of a recursive upload, and what a check finds right after it. */
module UploadApply {
  import opened Wrappers
  import opened Paths
  import opened Sorting
  import opened FileTree
  import opened Modes
  import opened Prune
  import opened Upload

  /*
   It refuses before it changes anything, or it runs to its end and leaves the host with exactly
   the source's entries, what was left alone, and nothing more; a check right after is satisfied.
   */

  // ---- What an apply makes of the host ----

  function WithAttrs(options: Options, keeps: bool, node: Node): Node {
    Chmodded(options.dirMode, true, keeps,
             Chmodded(options.fileMode, false, keeps, Chowned(options.owner, options.group, node)))
  }

  /** What is left once `prune` has removed what it may. */
  ghost function Pruned(tree: Tree, source: Source, options: Options): Tree {
    if options.prune then Left(tree, source.tree, source.patterns) else tree
  }

  function AttrsAt(tree: Tree, path: string, initial: Attrs): Attrs {
    if path in tree then tree[path].attrs else initial
  }

  /** The source's entry at `path`, with the attributes found there until some are asked for. */
  ghost function Placed(left: Tree, source: Source, initial: Attrs, path: string): Node
    requires source.Readable() && source.Managed(path)
  {
    var attrs := AttrsAt(left, path, initial);
    if path in source.Dirs() then DirNode(attrs) else FileNode(source.contents[path], attrs)
  }

  /** The host after an apply. */
  ghost function Uploaded(tree: Tree, source: Source, options: Options, initial: Attrs, keeps: bool): Tree
    requires source.Readable()
  {
    var left := Pruned(tree, source, options);
    map p | p in left.Keys + SetOf(source.Dirs()) + SetOf(source.tree.files) ::
      if source.Managed(p) then WithAttrs(options, keeps, Placed(left, source, initial, p)) else left[p]
  }

  /** Something of the other kind is in the way, and `prune` is not to remove it: it is not
      asked to, or what it holds is excluded. */
  ghost predicate Obstructed(tree: Tree, source: Source, options: Options) {
    exists p :: Mismatched(tree, source, p)
                && (options.prune ==> Stays(tree, source.tree, source.patterns, p))
  }

  ghost predicate Refused(tree: Tree, source: Source, options: Options) {
    CheckFails(tree, source, options) || Obstructed(tree, source, options)
  }

  /** A directory that had `had` ends with the mode asked for: unless the host's `chmod` keeps
      set-id bits the mode does not ask for. */
  predicate DirModeHolds(options: Options, keeps: bool, had: string) {
    options.dirMode.Some? && Keeps(keeps, options.dirMode.value) ==> SetIdsAmong(had, options.dirMode.value)
  }

  lemma FileAttrsMatch(options: Options, keeps: bool, node: Node)
    requires node.FileNode?
    ensures var after := WithAttrs(options, keeps, node);
            after.FileNode? && after.content == node.content && AttrsMatch(after.attrs, options, false)
  {
    if options.fileMode.Some? {
      SameModeWhenSet(options.fileMode.value);
    }
  }

  lemma DirAttrsMatch(options: Options, keeps: bool, node: Node)
    requires node.DirNode?
    ensures var after := WithAttrs(options, keeps, node);
            && after.DirNode?
            && (AttrsMatch(after.attrs, options, true) <==> DirModeHolds(options, keeps, node.attrs.mode))
            && AttrsMatch(after.attrs, options.(dirMode := None), true)
  {
    if options.dirMode.Some? {
      NewDirModeIs(options.dirMode.value, keeps, node.attrs.mode);
    }
  }

  lemma WithAttrsMatches(options: Options, keeps: bool, node: Node)
    ensures var after := WithAttrs(options, keeps, node);
            && after.DirNode? == node.DirNode?
            && (AttrsMatch(after.attrs, options, node.DirNode?) <==>
                  node.FileNode? || DirModeHolds(options, keeps, node.attrs.mode))
            && AttrsMatch(after.attrs, options.(dirMode := None), node.DirNode?)
            && (node.FileNode? ==> after.content == node.content)
  {
    if node.FileNode? {
      FileAttrsMatch(options, keeps, node);
    } else {
      DirAttrsMatch(options, keeps, node);
    }
  }

  /** Every managed directory ends with the mode asked for. */
  ghost predicate DirModesHold(tree: Tree, source: Source, options: Options, initial: Attrs, keeps: bool) {
    forall d :: d in source.Dirs() ==> DirModeHolds(options, keeps, AttrsAt(Pruned(tree, source, options), d, initial).mode)
  }

  /** What is left agrees in kind with the source wherever both have an entry. */
  lemma LeftFits(tree: Tree, source: Source, options: Options)
    requires ParentClosed(tree) && source.Valid() && !Refused(tree, source, options)
    ensures var left := Pruned(tree, source, options);
            && ParentClosed(left)
            && (forall p :: p in left ==> p in tree && left[p] == tree[p])
            && (forall p :: !Mismatched(left, source, p))
  {
    if options.prune {
      PruneSettles(tree, source.tree, source.patterns);
    }
    var left := Pruned(tree, source, options);
    forall p ensures !Mismatched(left, source, p) {
      if p in left {
        assert Mismatched(left, source, p) ==> Mismatched(tree, source, p);
      }
    }
  }

  /** The source's entries and what is left make a tree: every entry stands in a directory. */
  lemma UploadedIsTree(tree: Tree, source: Source, options: Options, initial: Attrs, keeps: bool)
    requires ParentClosed(tree) && source.Valid() && !Refused(tree, source, options)
    ensures ParentClosed(Uploaded(tree, source, options, initial, keeps))
  {
    LeftFits(tree, source, options);
    var left, after := Pruned(tree, source, options), Uploaded(tree, source, options, initial, keeps);
    forall p | p in after && p != "" ensures Above(p) in after && after[Above(p)].DirNode? {
      if source.Managed(p) {
        AboveInDirs(source, p);
        WithAttrsMatches(options, keeps, Placed(left, source, initial, Above(p)));
      } else if source.Managed(Above(p)) {
        assert !Mismatched(left, source, Above(p));
        WithAttrsMatches(options, keeps, Placed(left, source, initial, Above(p)));
      }
    }
  }

  lemma AboveInDirs(source: Source, path: string)
    requires source.Valid() && source.Managed(path) && path != ""
    ensures Above(path) in source.Dirs()
  {
    AboveNamed(path);
    assert source.Dirs()[0] == "";
    if Above(path) != "" {
      var i :| 0 <= i < |source.tree.dirs| && source.tree.dirs[i] == Above(path);
      assert source.Dirs()[i + 1] == Above(path);
    }
  }

  /** What an apply makes of one managed path. */
  ghost predicate ManagedAfter(left: Tree, after: Tree, source: Source, options: Options, initial: Attrs, keeps: bool, p: string) {
    && p in after && after[p].DirNode? == (p in source.Dirs())
    && (AttrsMatch(after[p].attrs, options, p in source.Dirs()) <==>
          (p in source.Dirs() ==> DirModeHolds(options, keeps, AttrsAt(left, p, initial).mode)))
    && AttrsMatch(after[p].attrs, options.(dirMode := None), p in source.Dirs())
    && (p in source.tree.files ==> p !in source.Dirs() && p in source.contents && HasContent(after, p, source.contents[p]))
  }

  lemma ManagedIs(tree: Tree, source: Source, options: Options, initial: Attrs, keeps: bool, p: string)
    requires source.Valid() && source.Readable() && source.Managed(p)
    ensures ManagedAfter(Pruned(tree, source, options), Uploaded(tree, source, options, initial, keeps), source, options, initial, keeps, p)
  {
    WithAttrsMatches(options, keeps, Placed(Pruned(tree, source, options), source, initial, p));
  }

  /** With `prune`, nothing that should go is left. */
  lemma NothingToGo(tree: Tree, source: Source, options: Options, initial: Attrs, keeps: bool)
    requires ParentClosed(tree) && source.Valid() && !Refused(tree, source, options) && options.prune
    ensures forall p :: p in Uploaded(tree, source, options, initial, keeps) ==>
              Stays(Uploaded(tree, source, options, initial, keeps), source.tree, source.patterns, p)
  {
    LeftFits(tree, source, options);
    PruneSettles(tree, source.tree, source.patterns);
    var after := Uploaded(tree, source, options, initial, keeps);
    assert source.Dirs()[0] == "";
    forall p | p in after ensures Stays(after, source.tree, source.patterns, p) {
    }
  }

  /** Being in sync, from each managed path. */
  lemma SyncFromManaged(left: Tree, after: Tree, source: Source, options: Options, initial: Attrs, keeps: bool)
    requires forall p :: source.Managed(p) ==> ManagedAfter(left, after, source, options, initial, keeps, p)
    requires options.prune ==> forall p :: p in after ==> Stays(after, source.tree, source.patterns, p)
    ensures InSync(after, source, options.(dirMode := None))
    ensures InSync(after, source, options) <==>
              forall d :: d in source.Dirs() ==> DirModeHolds(options, keeps, AttrsAt(left, d, initial).mode)
  {
    assert forall d :: d in source.Dirs() ==> source.Managed(d);
    assert forall f :: f in source.tree.files ==> source.Managed(f);
  }

  /** After an apply every source path has the source's kind and content and the attributes
      asked for, and with `prune` there is nothing more to remove: all but the directories' modes
      for certain, and these exactly if no set-id bit is kept that is not asked for. */
  lemma UploadedInSync(tree: Tree, source: Source, options: Options, initial: Attrs, keeps: bool)
    requires ParentClosed(tree) && source.Valid() && !Refused(tree, source, options)
    ensures InSync(Uploaded(tree, source, options, initial, keeps), source, options.(dirMode := None))
    ensures InSync(Uploaded(tree, source, options, initial, keeps), source, options) <==>
              DirModesHold(tree, source, options, initial, keeps)
    ensures !CheckFails(Uploaded(tree, source, options, initial, keeps), source, options)
  {
    var left, after := Pruned(tree, source, options), Uploaded(tree, source, options, initial, keeps);
    forall p | source.Managed(p) ensures ManagedAfter(left, after, source, options, initial, keeps, p) {
      ManagedIs(tree, source, options, initial, keeps, p);
    }
    if options.prune {
      NothingToGo(tree, source, options, initial, keeps);
    }
    SyncFromManaged(left, after, source, options, initial, keeps);
    assert source.Dirs()[0] == "" && ManagedAfter(left, after, source, options, initial, keeps, "");
  }

  // ---- The apply, step by step ----

  /** With the directories made. */
  ghost predicate DirsMade(left: Tree, grown: Tree, source: Source, initial: Attrs) {
    && Grown(left, grown, SetOf(source.Dirs()), initial)
    && (forall d :: d in source.Dirs() ==> d in grown && grown[d].DirNode?)
    && (forall f :: f in source.tree.files && f in grown ==> grown[f].FileNode?)
  }

  lemma DirsGetMade(left: Tree, source: Source, initial: Attrs)
    requires ParentClosed(left) && source.Valid() && forall p :: !Mismatched(left, source, p)
    ensures MakeDirs(left, source.Dirs(), initial).Some?
    ensures DirsMade(left, MakeDirs(left, source.Dirs(), initial).value, source, initial)
  {
    var dirs := SetOf(source.Dirs());
    forall d | d in dirs ensures (d != "" ==> Above(d) in dirs) && (d in left ==> left[d].DirNode?) {
      assert !Mismatched(left, source, d);
      if d != "" {
        AboveInDirs(source, d);
      }
    }
    MakeDirsGrows(left, source.Dirs(), dirs, initial);
    var grown := MakeDirs(left, source.Dirs(), initial).value;
    forall d | d in source.Dirs() ensures grown[d].DirNode? {
      assert !Mismatched(left, source, d);
    }
    forall f | f in source.tree.files && f in grown ensures grown[f].FileNode? {
      assert !Mismatched(left, source, f);
    }
  }

  /** With some of the files written. */
  ghost function Written(grown: Tree, source: Source, files: seq<string>, initial: Attrs): Tree
    requires forall f :: f in files ==> f in source.contents
  {
    map p | p in grown.Keys + SetOf(files) ::
      if p in files then FileNode(source.contents[p], AttrsAt(grown, p, initial)) else grown[p]
  }

  lemma WrittenMore(grown: Tree, source: Source, files: seq<string>, f: string, initial: Attrs)
    requires f in source.contents && forall g :: g in files ==> g in source.contents
    ensures Written(grown, source, files + [f], initial)
         == Written(grown, source, files, initial)[f := FileNode(source.contents[f], AttrsAt(grown, f, initial))]
  {
    assert SetOf(files + [f]) == SetOf(files) + {f};
    assert forall p :: p in files + [f] <==> p in files || p == f;
  }

  /** Where the next file goes: its directory is there, and it is no directory itself. */
  lemma RoomFor(left: Tree, grown: Tree, source: Source, files: seq<string>, f: string, initial: Attrs)
    requires source.Valid() && source.Readable() && DirsMade(left, grown, source, initial)
    requires f in source.tree.files && forall g :: g in files ==> g in source.tree.files
    ensures var now := Written(grown, source, files, initial);
            && Above(f) in now && now[Above(f)].DirNode?
            && (f in now ==> now[f].FileNode?)
            && AttrsAt(now, f, initial) == AttrsAt(grown, f, initial)
  {
    AboveInDirs(source, f);
    assert Above(f) !in files;
  }

  lemma WriteOne(left: Tree, grown: Tree, source: Source, files: seq<string>, f: string, initial: Attrs)
    requires source.Valid() && source.Readable() && DirsMade(left, grown, source, initial)
    requires f in source.tree.files && forall g :: g in files ==> g in source.tree.files
    ensures var now := Written(grown, source, files, initial);
            var next := Written(grown, source, files + [f], initial);
            if HasContent(now, f, source.contents[f]) then next == now
            else WriteFile(now, f, source.contents[f], initial) == Some(next)
  {
    RoomFor(left, grown, source, files, f, initial);
    WrittenMore(grown, source, files, f, initial);
  }

  /** Everything managed is there, as the source's kind. */
  ghost predicate AllThere(tree: Tree, source: Source) {
    && (forall d :: d in source.Dirs() ==> d in tree && tree[d].DirNode?)
    && (forall f :: f in source.tree.files ==> f in tree && tree[f].FileNode?)
  }

  function Chown(options: Options): Node -> Node {
    n => Chowned(options.owner, options.group, n)
  }

  function Chmod(mode: Option<string>, dirs: bool, keeps: bool): Node -> Node {
    n => Chmodded(mode, dirs, keeps, n)
  }

  ghost function AttrsSet(tree: Tree, source: Source, options: Options, keeps: bool): Tree {
    map p | p in tree :: if source.Managed(p) then WithAttrs(options, keeps, tree[p]) else tree[p]
  }

  /** The three commands one after the other: what each leaves out, another covers. */
  lemma AttrsInSteps(tree: Tree, source: Source, options: Options, keeps: bool, dirs: set<string>, files: set<string>)
    requires AllThere(tree, source)
    requires forall p :: (p in dirs <==> p in source.Dirs()) && (p in files <==> p in source.tree.files)
    ensures ChangedAt(ChangedAt(ChangedAt(tree, dirs + files, Chown(options)),
                                files, Chmod(options.fileMode, false, keeps)),
                      dirs, Chmod(options.dirMode, true, keeps))
         == AttrsSet(tree, source, options, keeps)
  {
    var owned := ChangedAt(tree, dirs + files, Chown(options));
    var filesSet := ChangedAt(owned, files, Chmod(options.fileMode, false, keeps));
    var all := ChangedAt(filesSet, dirs, Chmod(options.dirMode, true, keeps));
    forall p | p in tree ensures all[p] == AttrsSet(tree, source, options, keeps)[p] {
      if p in dirs {
        assert tree[p].DirNode?;
      }
    }
  }

  /** A change of attributes that a second time changes nothing. */
  ghost predicate Settles(change: Node -> Node) {
    forall n :: change(change(n)) == change(n) && change(n).DirNode? == n.DirNode?
  }

  lemma ChownSettles(options: Options)
    ensures Settles(Chown(options))
  {
  }

  lemma ChmodSettles(mode: Option<string>, dirs: bool, keeps: bool)
    ensures Settles(Chmod(mode, dirs, keeps))
  {
    var change := Chmod(mode, dirs, keeps);
    forall n ensures change(change(n)) == change(n) && change(n).DirNode? == n.DirNode? {
      if mode.Some? {
        KeptSetIds(mode.value, n.attrs.mode);
      }
    }
  }

  lemma OneCommand(tree: Tree, paths: seq<string>, at: set<string>, change: Node -> Node, source: Source) returns (next: Tree)
    requires AllThere(tree, source) && at == SetOf(paths) && forall p :: p in paths ==> source.Managed(p)
    requires Settles(change)
    ensures Changed(tree, paths, change) == Some(next) && next == ChangedAt(tree, at, change)
    ensures AllThere(next, source)
  {
    ChangedIsMap(tree, paths, change);
    next := ChangedAt(tree, at, change);
  }

  /** Three commands over the managed paths, each over what the one before left. */
  ghost function CommandsRun(tree: Tree, source: Source, all: Node -> Node, files: Node -> Node, dirs: Node -> Node): Option<Tree> {
    match Changed(tree, source.Dirs() + source.tree.files, all)
    case None => None
    case Some(first) =>
      match Changed(first, source.tree.files, files)
      case None => None
      case Some(second) => Changed(second, Sort(source.Dirs(), Deeper), dirs)
  }

  lemma CommandsRunAre(tree: Tree, source: Source, all: Node -> Node, files: Node -> Node, dirs: Node -> Node)
    requires AllThere(tree, source) && Settles(all) && Settles(files) && Settles(dirs)
    ensures CommandsRun(tree, source, all, files, dirs) ==
            Some(ChangedAt(ChangedAt(ChangedAt(tree, SetOf(source.Dirs()) + SetOf(source.tree.files), all),
                                     SetOf(source.tree.files), files),
                           SetOf(source.Dirs()), dirs))
  {
    var dirSet, fileSet := SetOf(source.Dirs()), SetOf(source.tree.files);
    PathSets(source);
    var first := OneCommand(tree, source.Dirs() + source.tree.files, dirSet + fileSet, all, source);
    var second := OneCommand(first, source.tree.files, fileSet, files, source);
    var third := OneCommand(second, Sort(source.Dirs(), Deeper), dirSet, dirs, source);
  }

  lemma PathSets(source: Source)
    ensures SetOf(source.Dirs() + source.tree.files) == SetOf(source.Dirs()) + SetOf(source.tree.files)
    ensures SetOf(Sort(source.Dirs(), Deeper)) == SetOf(source.Dirs())
    ensures forall p :: p in Sort(source.Dirs(), Deeper) <==> p in source.Dirs()
  {
    SortSorts(source.Dirs(), Deeper);
  }

  ghost function AttrsRun(tree: Tree, source: Source, options: Options, keeps: bool): Option<Tree> {
    CommandsRun(tree, source, Chown(options), Chmod(options.fileMode, false, keeps), Chmod(options.dirMode, true, keeps))
  }

  lemma AttrsRunIs(tree: Tree, source: Source, options: Options, keeps: bool)
    requires AllThere(tree, source)
    ensures AttrsRun(tree, source, options, keeps) == Some(AttrsSet(tree, source, options, keeps))
  {
    ChownSettles(options);
    ChmodSettles(options.fileMode, false, keeps);
    ChmodSettles(options.dirMode, true, keeps);
    CommandsRunAre(tree, source, Chown(options), Chmod(options.fileMode, false, keeps), Chmod(options.dirMode, true, keeps));
    AttrsInSteps(tree, source, options, keeps, SetOf(source.Dirs()), SetOf(source.tree.files));
  }

  /** Owner and group of everything managed, then the mode of each kind. */
  method SetTreeAttrs(host: Host, source: Source, options: Options) returns (ok: bool)
    requires AllThere(host.tree, source)
    modifies host`tree
    ensures ok && host.tree == AttrsSet(old(host.tree), source, options, host.keepsSetId)
  {
    if !options.ChangesAttrs() {
      return true;
    }
    AttrsRunIs(host.tree, source, options, host.keepsSetId);
    var dirs, files := source.Dirs(), source.tree.files;
    var owned := host.Change(dirs + files, Chown(options));
    var filesDone := host.Change(files, Chmod(options.fileMode, false, host.keepsSetId));
    var dirsDone := host.Change(Sort(dirs, Deeper), Chmod(options.dirMode, true, host.keepsSetId));
    ok := owned && filesDone && dirsDone;
  }

  /** Deeper first, the destination last. */
  predicate Deeper(a: string, b: string) {
    b == "" || (a != "" && Depth(a) >= Depth(b))
  }

  /** Once all files are written, each managed path is placed, and the rest is what was left. */
  lemma WrittenIsPlaced(left: Tree, source: Source, grown: Tree, initial: Attrs, p: string)
    requires source.Valid() && source.Readable() && DirsMade(left, grown, source, initial)
    ensures var written := Written(grown, source, source.tree.files, initial);
            && (p in written <==> p in left || source.Managed(p))
            && (source.Managed(p) ==> written[p] == Placed(left, source, initial, p))
            && (!source.Managed(p) && p in left ==> written[p] == left[p])
  {
    assert p in SetOf(source.Dirs()) <==> p in source.Dirs();
  }

  lemma WrittenIsThere(left: Tree, source: Source, grown: Tree, initial: Attrs)
    requires source.Valid() && source.Readable() && DirsMade(left, grown, source, initial)
    ensures AllThere(Written(grown, source, source.tree.files, initial), source)
  {
    forall p | source.Managed(p)
      ensures p in Written(grown, source, source.tree.files, initial)
      ensures Written(grown, source, source.tree.files, initial)[p].DirNode? == (p in source.Dirs())
    {
      WrittenIsPlaced(left, source, grown, initial, p);
    }
    assert forall f :: f in source.tree.files ==> f !in source.Dirs();
  }

  lemma UploadedAt(tree: Tree, source: Source, options: Options, grown: Tree, initial: Attrs, keeps: bool, p: string)
    requires source.Valid() && source.Readable()
    requires DirsMade(Pruned(tree, source, options), grown, source, initial)
    ensures var all := AttrsSet(Written(grown, source, source.tree.files, initial), source, options, keeps);
            var after := Uploaded(tree, source, options, initial, keeps);
            (p in all <==> p in after) && (p in all ==> all[p] == after[p])
  {
    WrittenIsPlaced(Pruned(tree, source, options), source, grown, initial, p);
  }

  /** The steps add up. */
  lemma UploadedInSteps(tree: Tree, source: Source, options: Options, grown: Tree, initial: Attrs, keeps: bool)
    requires source.Valid() && source.Readable()
    requires DirsMade(Pruned(tree, source, options), grown, source, initial)
    ensures AllThere(Written(grown, source, source.tree.files, initial), source)
    ensures AttrsSet(Written(grown, source, source.tree.files, initial), source, options, keeps)
         == Uploaded(tree, source, options, initial, keeps)
  {
    WrittenIsThere(Pruned(tree, source, options), source, grown, initial);
    var all := AttrsSet(Written(grown, source, source.tree.files, initial), source, options, keeps);
    var after := Uploaded(tree, source, options, initial, keeps);
    forall p ensures p in all <==> p in after ensures p in all ==> all[p] == after[p] {
      UploadedAt(tree, source, options, grown, initial, keeps, p);
    }
  }

  ghost predicate RightPlan(tree: Tree, source: Source, options: Options, strays: Strays) {
    if options.prune then PlanFor(tree, source.tree, source.patterns, strays) else strays == Strays([], [])
  }

  lemma BlockedIsObstructed(tree: Tree, source: Source, options: Options, mismatched: seq<(string, bool)>,
                            strays: Strays)
    requires AreMismatches(mismatched, tree, source) && RightPlan(tree, source, options, strays)
    ensures (forall m :: m in mismatched ==> m.0 in strays.files + strays.dirs) <==> !Obstructed(tree, source, options)
  {
    forall p | Mismatched(tree, source, p)
      ensures p in strays.files + strays.dirs <==>
              options.prune && !Stays(tree, source.tree, source.patterns, p)
    {
    }
    if p :| Mismatched(tree, source, p) && (options.prune ==> Stays(tree, source.tree, source.patterns, p)) {
      var m := (p, tree[p].DirNode?);
      assert m in mismatched && m.0 !in strays.files + strays.dirs;
    }
  }

  lemma RemovalGoes(tree: Tree, source: Source, options: Options, strays: Strays)
    requires ParentClosed(tree) && source.Valid() && RightPlan(tree, source, options, strays)
    ensures RemoveStrays(tree, strays) == Some(Pruned(tree, source, options))
  {
    if options.prune {
      PruneIsExact(tree, source.tree, source.patterns, strays);
    }
  }

  lemma NothingPruned(tree: Tree, source: Source, options: Options, strays: Strays)
    requires RightPlan(tree, source, options, strays)
    ensures strays == Strays([], []) <==>
            (options.prune ==> forall p :: p in tree ==> Stays(tree, source.tree, source.patterns, p))
    ensures strays == Strays([], []) ==> Pruned(tree, source, options) == tree
  {
    if options.prune {
      NothingToPrune(tree, source.tree, source.patterns, strays);
    }
  }

  lemma InSyncWithoutAttrs(tree: Tree, source: Source, options: Options)
    requires source.Readable() && !options.ChangesAttrs()
    requires forall d :: d in source.Dirs() && d in tree ==> tree[d].DirNode?
    ensures InSync(tree, source, options) <==>
            && (forall d :: d in source.Dirs() ==> d in tree)
            && (forall f :: f in source.tree.files ==> HasContent(tree, f, source.contents[f]))
            && (options.prune ==> forall p :: p in tree ==> Stays(tree, source.tree, source.patterns, p))
  {
  }

  /** The apply reports a change exactly when attributes are managed or the check would not have
      been satisfied. */
  lemma ChangedWhenPending(tree: Tree, source: Source, options: Options, grown: Tree, initial: Attrs,
                           strays: Strays, uploaded: nat, newDirs: nat)
    requires ParentClosed(tree) && source.Valid() && !Refused(tree, source, options)
    requires RightPlan(tree, source, options, strays)
    requires DirsMade(Pruned(tree, source, options), grown, source, initial)
    requires uploaded == 0 <==> HasAll(grown, source, source.tree.files)
    requires newDirs == Count(source.Dirs(), MissingTest(tree))
    ensures uploaded > 0 || newDirs > 0 || strays != Strays([], []) || options.ChangesAttrs() <==>
            options.ChangesAttrs() || !InSync(tree, source, options)
  {
    CountZero(source.Dirs(), MissingTest(tree));
    NothingPruned(tree, source, options, strays);
    if !options.ChangesAttrs() && strays == Strays([], []) {
      LeftFits(tree, source, options);
      forall d | d in source.Dirs() && d in tree ensures tree[d].DirNode? {
        assert !Mismatched(tree, source, d);
      }
      InSyncWithoutAttrs(tree, source, options);
      assert newDirs == 0 <==> forall d :: d in source.Dirs() ==> d in tree by {
        assert forall d :: MissingTest(tree)(d) <==> d !in tree;
      }
    }
  }

  // ---- The apply ----

  datatype Applied = Applied(uploaded: nat, newDirs: nat, removed: nat, changed: bool)

  method FirstUnreadable(source: Source) returns (problem: Option<string>)
    ensures problem.None? <==> source.Readable()
  {
    var files := source.tree.files;
    for i := 0 to |files|
      invariant forall f :: f in files[..i] ==> f in source.contents
    {
      if files[i] !in source.contents {
        return Some(files[i]);
      }
      assert files[..i + 1] == files[..i] + [files[i]];
    }
    assert files[..|files|] == files;
    return None;
  }

  /** The first mismatched path that is not about to be removed. */
  method FirstInTheWay(mismatched: seq<(string, bool)>, removing: seq<string>) returns (blocked: Option<string>)
    ensures blocked.None? <==> forall m :: m in mismatched ==> m.0 in removing
  {
    for i := 0 to |mismatched|
      invariant forall m :: m in mismatched[..i] ==> m.0 in removing
    {
      if mismatched[i].0 !in removing {
        return Some(mismatched[i].0);
      }
      assert mismatched[..i + 1] == mismatched[..i] + [mismatched[i]];
    }
    assert mismatched[..|mismatched|] == mismatched;
    return None;
  }

  /** Whether the host has every one of `files` as it should be. */
  ghost predicate HasAll(tree: Tree, source: Source, files: seq<string>) {
    forall f :: f in files ==> f in source.contents && HasContent(tree, f, source.contents[f])
  }

  /** One file, uploaded when the host's content is not the source's. */
  method UploadOne(host: Host, source: Source, f: string, ghost left: Tree, ghost grown: Tree, ghost files: seq<string>)
    returns (sent: bool)
    requires source.Valid() && source.Readable() && DirsMade(left, grown, source, host.initial)
    requires f in source.tree.files && forall g :: g in files ==> g in source.tree.files
    requires host.tree == Written(grown, source, files, host.initial)
    modifies host`tree
    ensures host.tree == Written(grown, source, files + [f], host.initial)
    ensures sent <==> !HasContent(old(host.tree), f, source.contents[f])
  {
    WriteOne(left, grown, source, files, f, host.initial);
    sent := !HasContent(host.tree, f, source.contents[f]);
    if sent {
      var ok := host.UploadFile(f, source.contents[f]);
      assert ok;
    }
  }

  /** Writing the files before it leaves a file's content as it was, or already right. */
  lemma HasOneMore(grown: Tree, source: Source, files: seq<string>, f: string, initial: Attrs)
    requires f in source.contents && forall g :: g in files ==> g in source.contents
    ensures HasAll(grown, source, files + [f]) <==>
              HasAll(grown, source, files) && HasContent(Written(grown, source, files, initial), f, source.contents[f])
  {
    assert forall g :: g in files + [f] <==> g in files || g == f;
  }

  /** Every file whose content the host lacks, one by one. */
  method UploadFiles(host: Host, source: Source, ghost left: Tree) returns (uploaded: nat)
    requires source.Valid() && source.Readable() && DirsMade(left, host.tree, source, host.initial)
    modifies host`tree
    ensures host.tree == Written(old(host.tree), source, source.tree.files, host.initial)
    ensures uploaded == 0 <==> HasAll(old(host.tree), source, source.tree.files)
  {
    uploaded := 0;
    var files := source.tree.files;
    ghost var grown, done := host.tree, files[..0];
    NothingWritten(grown, source, host.initial);
    for i := 0 to |files|
      invariant done == files[..i] && (forall g :: g in done ==> g in files)
      invariant host.tree == Written(grown, source, done, host.initial)
      invariant uploaded == 0 <==> HasAll(grown, source, done)
    {
      OneMore(files, i);
      var sent := UploadOne(host, source, files[i], left, grown, done);
      HasOneMore(grown, source, done, files[i], host.initial);
      done := files[..i + 1];
      uploaded := if sent then uploaded + 1 else uploaded;
    }
    assert done == files;
  }

  lemma OneMore(files: seq<string>, i: nat)
    requires i < |files|
    ensures files[..i + 1] == files[..i] + [files[i]]
  {
  }

  lemma NothingWritten(grown: Tree, source: Source, initial: Attrs)
    ensures Written(grown, source, [], initial) == grown && HasAll(grown, source, [])
  {
  }

  /** The apply: an error leaves the host as it was, and comes exactly when the check fails or
      something in the way is not to be removed; otherwise the host ends as `Uploaded` says. */
  method ApplyRecurse(host: Host, source: Source, options: Options) returns (r: Result<Applied, UploadError>)
    requires source.Valid() && ParentClosed(host.tree)
    modifies host`tree
    ensures r.Err? <==> Refused(old(host.tree), source, options)
    ensures r.Err? ==> host.tree == old(host.tree)
    ensures r.Ok? ==> host.tree == Uploaded(old(host.tree), source, options, host.initial, host.keepsSetId)
    ensures r.Ok? ==> (r.value.changed <==> options.ChangesAttrs() || !InSync(old(host.tree), source, options))
  {
    ghost var tree := host.tree;
    var unreadable := FirstUnreadable(source);
    if unreadable.Some? {
      return Err(Unreadable(unreadable.value));
    }
    var managed := ManagedStats(host, source);
    if managed.Err? {
      return Err(managed.error);
    }
    var mismatched := managed.value;
    var strays := PruneStrays(host, source, options, mismatched);
    if strays.Err? {
      return Err(strays.error);
    }
    var blocked := FirstInTheWay(mismatched, strays.value.files + strays.value.dirs);
    BlockedIsObstructed(tree, source, options, mismatched, strays.value);
    if blocked.Some? {
      return Err(InTheWay(blocked.value));
    }
    LeftFits(tree, source, options);
    RemovalGoes(tree, source, options, strays.value);
    ghost var left := Pruned(tree, source, options);
    ghost var plan := strays.value;
    assert plan == Strays([], []) <==> |plan.files| + |plan.dirs| == 0;
    var newDirs := CountIf(source.Dirs(), MissingTest(host.tree));
    var removed := |strays.value.files| + |strays.value.dirs|;
    var ok := host.Remove(strays.value);
    DirsGetMade(left, source, host.initial);
    ok := host.CreateDirs(source.Dirs());
    ghost var grown := host.tree;
    var uploaded := UploadFiles(host, source, left);
    ok := SetTreeAttrs(host, source, options);
    UploadedInSteps(tree, source, options, grown, host.initial, host.keepsSetId);
    ChangedWhenPending(tree, source, options, grown, host.initial, strays.value, uploaded, newDirs);
    r := Ok(Applied(uploaded, newDirs, removed,
                    uploaded > 0 || newDirs > 0 || removed > 0 || options.ChangesAttrs()));
  }

  /** Whatever `exclude` leaves out stays as it was, and without `prune` so does everything the
      source has no entry for. */
  lemma RestUntouched(tree: Tree, source: Source, options: Options, initial: Attrs, keeps: bool, p: string)
    requires source.Valid() && source.Readable() && p in tree && p != ""
    requires Excludes(source.patterns, p) || (!options.prune && !source.Managed(p))
    ensures p in Uploaded(tree, source, options, initial, keeps) && Uploaded(tree, source, options, initial, keeps)[p] == tree[p]
  {
  }

  /** A second check after an apply that is not refused is satisfied, exactly if no managed
      directory keeps a set-id bit that `dir-mode` does not ask for. */
  method ApplyThenCheck(host: Host, source: Source, options: Options) returns (status: Result<Status, UploadError>)
    requires source.Valid() && ParentClosed(host.tree) && !Refused(host.tree, source, options)
    modifies host`tree
    ensures status.Ok?
    ensures status == Ok(Satisfied) <==> DirModesHold(old(host.tree), source, options, host.initial, host.keepsSetId)
  {
    UploadedInSync(host.tree, source, options, host.initial, host.keepsSetId);
    var applied := ApplyRecurse(host, source, options);
    status := CheckRecurse(host, source, options);
  }

  /** So it always is where no `dir-mode` is asked for, or the host's `chmod` sets the whole mode. */
  lemma PlainModesHold(tree: Tree, source: Source, options: Options, initial: Attrs, keeps: bool)
    requires options.dirMode.None? || !keeps
    ensures DirModesHold(tree, source, options, initial, keeps)
  {
  }
}
