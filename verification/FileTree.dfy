/**
 What a recursive upload reads: the source directory less what `exclude` leaves out. The walk
 does not descend into an excluded directory, and is proved to find what filtering the whole
 tree would.
 */
module FileTree {
  import opened Wrappers
  import opened Globs
  import opened Paths
  import opened Sorting

  // ---- Exclude patterns ----

  datatype Pattern = Name(glob: string) | Anchored(segments: seq<string>)

  ghost predicate PatternExcludes(pattern: Pattern, names: seq<string>) {
    match pattern
    case Name(glob) => exists i :: 0 <= i < |names| && NameMatches(glob, names[i])
    case Anchored(segments) => exists n :: 1 <= n <= |names| && SegmentsMatch(segments, names[..n])
  }

  /** Whether `path` or a directory above it is excluded. */
  ghost predicate Excludes(patterns: seq<Pattern>, path: string) {
    exists p :: p in patterns && PatternExcludes(p, Split(path))
  }

  /** Whatever lies under an excluded path is excluded too, for both kinds of pattern. */
  lemma ExcludedBelow(patterns: seq<Pattern>, dir: string, path: string)
    requires Below(dir, path)
    ensures Excludes(patterns, dir) ==> Excludes(patterns, path)
  {
    var rest := path[|dir| + 1..];
    assert path == dir + [SLASH] + rest;
    SplitJoined(dir, rest);
    var above, all := Split(dir), Split(path);
    forall p | p in patterns && PatternExcludes(p, above) ensures PatternExcludes(p, all) {
      match p
      case Name(glob) =>
        var i :| 0 <= i < |above| && NameMatches(glob, above[i]);
        assert all[i] == above[i];
      case Anchored(segments) =>
        var n :| 1 <= n <= |above| && SegmentsMatch(segments, above[..n]);
        assert all[..n] == above[..n];
    }
  }

  method ExcludesPath(patterns: seq<Pattern>, path: string) returns (excluded: bool)
    ensures excluded == Excludes(patterns, path)
  {
    var names := Split(path);
    excluded := false;
    for k := 0 to |patterns|
      invariant excluded == exists i :: 0 <= i < k && PatternExcludes(patterns[i], names)
    {
      var hit := false;
      match patterns[k] {
        case Name(glob) =>
          for i := 0 to |names|
            invariant hit == exists j :: 0 <= j < i && NameMatches(glob, names[j])
          {
            var matches := NameMatchesTable(glob, names[i]);
            hit := hit || matches;
          }
        case Anchored(segments) =>
          for n := 1 to |names| + 1
            invariant hit == exists j :: 1 <= j < n && SegmentsMatch(segments, names[..j])
          {
            var matches := SegmentsMatchTable(segments, names[..n]);
            hit := hit || matches;
          }
      }
      assert hit == PatternExcludes(patterns[k], names);
      excluded := excluded || hit;
    }
  }

  // ---- The whole tree ----

  /** The source, symlinks followed: a directory that may not open, with entries that may not
      be read or not be named in UTF-8. */
  datatype Local = File | Dir(readable: bool, entries: seq<Entry>)
  datatype Entry = Named(name: string, node: Local) | Unnamed

  /** What a walk comes across: an entry, or a problem in a directory. */
  datatype Visit = FileAt(path: string) | DirAt(path: string) | Problem(dir: string)

  function EntryVisit(at: string, name: string, node: Local): Visit {
    if node.Dir? then DirAt(Under(at, name)) else FileAt(Under(at, name))
  }

  /** Everything under the directory `node`, which stands at `at`. */
  function All(at: string, node: Local): seq<Visit>
    decreases node
  {
    if node.File? || !node.readable then [Problem(at)] else AllOf(at, node.entries)
  }

  function AllOf(at: string, entries: seq<Entry>): seq<Visit>
    decreases entries
  {
    if entries == [] then [] else AllAt(at, entries[0]) + AllOf(at, entries[1..])
  }

  function AllAt(at: string, entry: Entry): seq<Visit>
    decreases entry
  {
    match entry
    case Unnamed => [Problem(at)]
    case Named(name, node) =>
      [EntryVisit(at, name, node)] + if node.Dir? then All(Under(at, name), node) else []
  }

  ghost predicate Kept(patterns: seq<Pattern>, visit: Visit) {
    if visit.Problem? then visit.dir == "" || !Excludes(patterns, visit.dir)
    else !Excludes(patterns, visit.path)
  }

  ghost function Keep(patterns: seq<Pattern>, visits: seq<Visit>): seq<Visit> {
    if visits == [] then []
    else (if Kept(patterns, visits[0]) then [visits[0]] else []) + Keep(patterns, visits[1..])
  }

  lemma {:induction false} KeepJoined(patterns: seq<Pattern>, a: seq<Visit>, b: seq<Visit>)
    ensures Keep(patterns, a + b) == Keep(patterns, a) + Keep(patterns, b)
  {
    if a == [] {
      assert a + b == b;
    } else {
      assert (a + b)[1..] == a[1..] + b;
      KeepJoined(patterns, a[1..], b);
    }
  }

  lemma {:induction false} KeepIsFilter(patterns: seq<Pattern>, visits: seq<Visit>, visit: Visit)
    ensures visit in Keep(patterns, visits) <==> visit in visits && Kept(patterns, visit)
  {
    if visits != [] {
      KeepIsFilter(patterns, visits[1..], visit);
    }
  }

  lemma {:induction false} KeepNone(patterns: seq<Pattern>, visits: seq<Visit>)
    requires forall v :: v in visits ==> !Kept(patterns, v)
    ensures Keep(patterns, visits) == []
  {
    if visits != [] {
      KeepNone(patterns, visits[1..]);
    }
  }

  function Place(visit: Visit): string {
    if visit.Problem? then visit.dir else visit.path
  }

  ghost predicate AtOrBelow(dir: string, path: string) {
    dir == "" || dir == path || Below(dir, path)
  }

  /** A file system's names: none empty or with a `/`, none twice in one directory. */
  ghost predicate WellFormed(node: Local)
    decreases node
  {
    node.Dir? ==> WellNamed(node.entries)
  }

  ghost predicate WellNamed(entries: seq<Entry>)
    decreases entries
  {
    entries != [] ==>
      && (entries[0].Named? ==>
            && IsName(entries[0].name) && WellFormed(entries[0].node)
            && Find(entries[1..], entries[0].name).None?)
      && WellNamed(entries[1..])
  }

  function Find(entries: seq<Entry>, name: string): Option<Local> {
    if entries == [] then None
    else if entries[0].Named? && entries[0].name == name then Some(entries[0].node)
    else Find(entries[1..], name)
  }

  lemma {:induction false} VisitsAreBelow(at: string, node: Local, visit: Visit)
    requires WellFormed(node) && visit in All(at, node)
    ensures AtOrBelow(at, Place(visit))
    decreases node
  {
    if node.Dir? && node.readable {
      VisitsOfAreBelow(at, node.entries, visit);
    }
  }

  lemma {:induction false} VisitsOfAreBelow(at: string, entries: seq<Entry>, visit: Visit)
    requires WellNamed(entries) && visit in AllOf(at, entries)
    ensures AtOrBelow(at, Place(visit))
    decreases entries
  {
    if visit !in AllAt(at, entries[0]) {
      VisitsOfAreBelow(at, entries[1..], visit);
    } else if entries[0].Named? {
      var name, node := entries[0].name, entries[0].node;
      if visit != EntryVisit(at, name, node) {
        VisitsAreBelow(Under(at, name), node, visit);
      }
    }
  }

  /** Nothing under an excluded directory is kept: not descending into it loses nothing. */
  lemma NothingKeptBelow(patterns: seq<Pattern>, at: string, node: Local)
    requires at != "" && Excludes(patterns, at) && WellFormed(node)
    ensures Keep(patterns, All(at, node)) == []
  {
    forall v | v in All(at, node) ensures !Kept(patterns, v) {
      VisitsAreBelow(at, node, v);
      if at != Place(v) {
        ExcludedBelow(patterns, at, Place(v));
      }
    }
    KeepNone(patterns, All(at, node));
  }

  /** An entry that is not excluded is kept, and what is under it filtered. */
  lemma KeepEntry(patterns: seq<Pattern>, at: string, name: string, node: Local)
    requires name != "" && WellFormed(node)
    ensures Keep(patterns, AllAt(at, Named(name, node))) ==
            if Excludes(patterns, Under(at, name)) then []
            else if node.Dir? then [EntryVisit(at, name, node)] + Keep(patterns, All(Under(at, name), node))
            else [EntryVisit(at, name, node)]
  {
    var visit := EntryVisit(at, name, node);
    var below := if node.Dir? then All(Under(at, name), node) else [];
    KeepJoined(patterns, [visit], below);
    if node.Dir? && Excludes(patterns, Under(at, name)) {
      NothingKeptBelow(patterns, Under(at, name), node);
    }
  }

  lemma KeepFirst(patterns: seq<Pattern>, at: string, entries: seq<Entry>, i: nat)
    requires i < |entries|
    ensures Keep(patterns, AllOf(at, entries[i..])) ==
            Keep(patterns, AllAt(at, entries[i])) + Keep(patterns, AllOf(at, entries[i + 1..]))
  {
    assert entries[i..][1..] == entries[i + 1..];
    KeepJoined(patterns, AllAt(at, entries[i]), AllOf(at, entries[i + 1..]));
  }

  lemma Associative<T>(a: seq<T>, b: seq<T>, c: seq<T>)
    ensures a + b + c == a + (b + c)
  {
  }

  // ---- The walk ----

  function FilesOf(visits: seq<Visit>): seq<string> {
    if visits == [] then []
    else
      var last := visits[|visits| - 1];
      FilesOf(visits[..|visits| - 1]) + if last.FileAt? then [last.path] else []
  }

  function DirsOf(visits: seq<Visit>): seq<string> {
    if visits == [] then []
    else
      var last := visits[|visits| - 1];
      DirsOf(visits[..|visits| - 1]) + if last.DirAt? then [last.path] else []
  }

  function FirstProblem(visits: seq<Visit>): Option<string> {
    if visits == [] then None
    else if visits[0].Problem? then Some(visits[0].dir)
    else FirstProblem(visits[1..])
  }

  lemma {:induction false} FirstProblemAppend(visits: seq<Visit>, visit: Visit)
    ensures FirstProblem(visits + [visit]) ==
            if FirstProblem(visits).Some? then FirstProblem(visits)
            else if visit.Problem? then Some(visit.dir) else None
  {
    if visits != [] {
      assert (visits + [visit])[1..] == visits[1..] + [visit];
      FirstProblemAppend(visits[1..], visit);
    }
  }

  lemma {:induction false} MembersOf(visits: seq<Visit>, path: string)
    ensures path in FilesOf(visits) <==> FileAt(path) in visits
    ensures path in DirsOf(visits) <==> DirAt(path) in visits
  {
    if visits != [] {
      MembersOf(visits[..|visits| - 1], path);
      assert visits == visits[..|visits| - 1] + [visits[|visits| - 1]];
    }
  }

  lemma {:induction false} ProblemsOf(visits: seq<Visit>)
    ensures FirstProblem(visits).Some? <==> exists at :: Problem(at) in visits
    ensures FirstProblem(visits).Some? ==> Problem(FirstProblem(visits).value) in visits
  {
    if visits != [] {
      ProblemsOf(visits[1..]);
      assert visits == [visits[0]] + visits[1..];
    }
  }

  /** The walk's result so far, and what it came across. */
  class Walker {
    const patterns: seq<Pattern>
    var files: seq<string>
    var dirs: seq<string>
    var failed: Option<string>
    ghost var seen: seq<Visit>

    constructor (patterns: seq<Pattern>)
      ensures Valid() && seen == [] && this.patterns == patterns
    {
      this.patterns := patterns;
      files, dirs, failed, seen := [], [], None, [];
    }

    ghost predicate Valid()
      reads this
    {
      files == FilesOf(seen) && dirs == DirsOf(seen) && failed == FirstProblem(seen)
    }

    method Fail(at: string)
      requires Valid()
      modifies this
      ensures Valid() && seen == old(seen) + [Problem(at)]
    {
      failed := if failed.Some? then failed else Some(at);
      FirstProblemAppend(seen, Problem(at));
      seen := seen + [Problem(at)];
      assert seen[..|seen| - 1] == old(seen);
    }

    method Push(visit: Visit)
      requires Valid() && !visit.Problem?
      modifies this
      ensures Valid() && seen == old(seen) + [visit]
    {
      match visit {
        case DirAt(path) => dirs := dirs + [path];
        case FileAt(path) => files := files + [path];
      }
      FirstProblemAppend(seen, visit);
      seen := seen + [visit];
      assert seen[..|seen| - 1] == old(seen);
    }

    /** The walk of one directory: it skips what is excluded, and comes across exactly what
        filtering all of it would keep, in that order. */
    method Go(at: string, node: Local)
      requires Valid() && WellFormed(node)
      requires at == "" || !Excludes(patterns, at)
      modifies this
      ensures Valid() && seen == old(seen) + Keep(patterns, All(at, node))
      decreases node, 1
    {
      if node.File? || !node.readable {
        Fail(at);
        return;
      }
      GoEntries(at, node.entries);
    }

    method GoEntries(at: string, entries: seq<Entry>)
      requires Valid() && WellNamed(entries)
      requires at == "" || !Excludes(patterns, at)
      modifies this
      ensures Valid() && seen == old(seen) + Keep(patterns, AllOf(at, entries))
      decreases entries, 0
    {
      var i := 0;
      while i < |entries|
        invariant 0 <= i <= |entries| && Valid() && WellNamed(entries[i..])
        invariant seen + Keep(patterns, AllOf(at, entries[i..]))
               == old(seen) + Keep(patterns, AllOf(at, entries))
      {
        assert entries[i..][1..] == entries[i + 1..];
        KeepFirst(patterns, at, entries, i);
        ghost var before := seen;
        GoEntry(at, entries[i]);
        Associative(before, Keep(patterns, AllAt(at, entries[i])), Keep(patterns, AllOf(at, entries[i + 1..])));
        i := i + 1;
      }
    }

    method GoEntry(at: string, entry: Entry)
      requires Valid()
      requires entry.Named? ==> IsName(entry.name) && WellFormed(entry.node)
      requires at == "" || !Excludes(patterns, at)
      modifies this
      ensures Valid() && seen == old(seen) + Keep(patterns, AllAt(at, entry))
      decreases entry, 1
    {
      match entry
      case Unnamed =>
        Fail(at);
      case Named(name, node) =>
        var path := Under(at, name);
        var excluded := ExcludesPath(patterns, path);
        KeepEntry(patterns, at, name, node);
        if excluded {
          return;
        }
        ghost var before := seen;
        var visit := EntryVisit(at, name, node);
        Push(visit);
        if node.Dir? {
          Go(path, node);
          Associative(before, [visit], Keep(patterns, All(path, node)));
        }
    }
  }

  datatype SourceTree = SourceTree(files: seq<string>, dirs: seq<string>)

  // ---- What the walk finds, said of the tree itself ----

  /** What `names` lead to from `node`, through directories that can be read. */
  function At(node: Local, names: seq<string>): Option<Local>
    decreases |names|
  {
    if names == [] then Some(node)
    else if node.File? || !node.readable then None
    else
      match Find(node.entries, names[0])
      case None => None
      case Some(next) => At(next, names[1..])
  }

  /** A directory the walk cannot read in full. */
  predicate Troubled(node: Local) {
    node.File? || !node.readable || Unnamed in node.entries
  }

  predicate AreNames(names: seq<string>) {
    forall i :: 0 <= i < |names| ==> IsName(names[i])
  }

  function UnderAll(at: string, names: seq<string>): string
    decreases |names|
  {
    if names == [] then at else UnderAll(Under(at, names[0]), names[1..])
  }

  lemma {:induction false} SplitBelow(at: string, names: seq<string>)
    requires at != "" && AreNames(names)
    ensures Split(UnderAll(at, names)) == Split(at) + names && UnderAll(at, names) != ""
    decreases |names|
  {
    if names == [] {
      assert Split(at) + names == Split(at);
    } else {
      var next := Under(at, names[0]);
      SplitBelow(next, names[1..]);
      SplitName(names[0]);
      SplitJoined(at, names[0]);
      Associative(Split(at), [names[0]], names[1..]);
      assert names == [names[0]] + names[1..];
    }
  }

  lemma SplitUnderAll(names: seq<string>)
    requires AreNames(names) && names != []
    ensures Split(UnderAll("", names)) == names && UnderAll("", names) != ""
  {
    SplitBelow(names[0], names[1..]);
    SplitName(names[0]);
    assert names == [names[0]] + names[1..];
  }

  ghost predicate VisitFits(visit: Visit, names: seq<string>, node: Local) {
    match visit
    case FileAt(_) => names != [] && node.File?
    case DirAt(_) => names != [] && node.Dir?
    case Problem(_) => Troubled(node) && (names != [] ==> node.Dir?)
  }

  /** Each visit is something `names` lead to. */
  lemma {:induction false} VisitHasNames(at: string, node: Local, visit: Visit) returns (names: seq<string>)
    requires WellFormed(node) && visit in All(at, node)
    ensures AreNames(names) && Place(visit) == UnderAll(at, names)
    ensures At(node, names).Some? && VisitFits(visit, names, At(node, names).value)
    decreases node
  {
    if node.File? || !node.readable {
      names := [];
    } else {
      names := EntryHasNames(at, node.entries, visit);
    }
  }

  lemma {:induction false} EntryHasNames(at: string, entries: seq<Entry>, visit: Visit) returns (names: seq<string>)
    requires WellNamed(entries) && visit in AllOf(at, entries)
    ensures AreNames(names) && Place(visit) == UnderAll(at, names)
    ensures At(Dir(true, entries), names).Some?
    ensures VisitFits(visit, names, At(Dir(true, entries), names).value)
    decreases entries
  {
    if visit !in AllAt(at, entries[0]) {
      names := EntryHasNames(at, entries[1..], visit);
      if names != [] && entries[0].Named? {
        assert names[0] != entries[0].name;
      }
    } else if entries[0].Unnamed? {
      names := [];
    } else {
      var name, node := entries[0].name, entries[0].node;
      var rest := [];
      if visit != EntryVisit(at, name, node) {
        rest := VisitHasNames(Under(at, name), node, visit);
      }
      names := [name] + rest;
      assert names[1..] == rest;
    }
  }

  /** Whatever `names` lead to is visited. */
  lemma {:induction false} NamesAreVisited(at: string, node: Local, names: seq<string>)
    requires AreNames(names) && At(node, names).Some?
    ensures names != [] ==>
              (if At(node, names).value.Dir? then DirAt(UnderAll(at, names)) else FileAt(UnderAll(at, names)))
              in All(at, node)
    ensures Troubled(At(node, names).value) && (names != [] ==> At(node, names).value.Dir?) ==>
              Problem(UnderAll(at, names)) in All(at, node)
    decreases |names|
  {
    if names == [] {
      if node.Dir? && node.readable && Unnamed in node.entries {
        UnnamedIsVisited(at, node.entries);
      }
    } else {
      var next := Find(node.entries, names[0]).value;
      NamesAreVisited(Under(at, names[0]), next, names[1..]);
      FoundIsVisited(at, node.entries, names[0]);
      assert names == [names[0]] + names[1..];
    }
  }

  lemma {:induction false} UnnamedIsVisited(at: string, entries: seq<Entry>)
    requires Unnamed in entries
    ensures Problem(at) in AllOf(at, entries)
  {
    if entries[0] != Unnamed {
      UnnamedIsVisited(at, entries[1..]);
    }
  }

  lemma {:induction false} FoundIsVisited(at: string, entries: seq<Entry>, name: string)
    requires Find(entries, name).Some?
    ensures var node := Find(entries, name).value;
            && EntryVisit(at, name, node) in AllOf(at, entries)
            && (node.Dir? ==> forall v :: v in All(Under(at, name), node) ==> v in AllOf(at, entries))
  {
    if entries[0].Named? && entries[0].name == name {
      var node := entries[0].node;
      assert node.Dir? ==> forall v :: v in All(Under(at, name), node) ==> v in AllAt(at, entries[0]);
    } else {
      FoundIsVisited(at, entries[1..], name);
    }
  }

  /** Whether the walk's directory at `names` is kept. */
  ghost predicate KeptAt(patterns: seq<Pattern>, names: seq<string>) {
    names == [] || !Excludes(patterns, UnderAll("", names))
  }

  /** The whole tree's visits, said by path. */
  lemma VisitsByPath(node: Local, path: string)
    requires WellFormed(node)
    ensures FileAt(path) in All("", node) <==>
            AreNames(Split(path)) && At(node, Split(path)) == Some(File)
    ensures DirAt(path) in All("", node) <==>
            AreNames(Split(path)) && At(node, Split(path)).Some? && At(node, Split(path)).value.Dir?
  {
    if FileAt(path) in All("", node) {
      var names := VisitHasNames("", node, FileAt(path));
      SplitUnderAll(names);
    }
    if DirAt(path) in All("", node) {
      var names := VisitHasNames("", node, DirAt(path));
      SplitUnderAll(names);
    }
    var names := Split(path);
    if AreNames(names) && At(node, names).Some? {
      NamesAreVisited("", node, names);
      SplitAgain(path);
    }
  }

  /** A path of names is those names joined. */
  lemma {:induction false} SplitAgain(path: string)
    requires AreNames(Split(path))
    ensures UnderAll("", Split(path)) == path
  {
    JoinSplit(path);
    var names := Split(path);
    UnderIsJoined(names[0], names[1..]);
    assert [names[0]] + names[1..] == names;
  }

  function Joined(names: seq<string>): string {
    if names == [] then "" else if |names| == 1 then names[0] else names[0] + [SLASH] + Joined(names[1..])
  }

  lemma {:induction false} JoinSplit(path: string)
    ensures Joined(Split(path)) == path
  {
    if path != "" {
      var rest := Split(path[1..]);
      JoinSplit(path[1..]);
      if path[0] == SLASH {
        assert ([""] + rest)[1..] == rest;
      } else {
        var names := [[path[0]] + rest[0]] + rest[1..];
        assert names[1..] == rest[1..];
      }
    }
  }

  lemma {:induction false} UnderIsJoined(at: string, names: seq<string>)
    requires at != "" && AreNames(names)
    ensures UnderAll(at, names) == Joined([at] + names)
    decreases names
  {
    if names != [] {
      var next := Under(at, names[0]);
      UnderIsJoined(next, names[1..]);
      assert ([next] + names[1..])[1..] == names[1..];
      assert ([at] + names)[1..] == names;
      if |names| > 1 {
        assert next + [SLASH] + Joined(names[1..]) == at + [SLASH] + (names[0] + [SLASH] + Joined(names[1..]));
      }
    }
  }

  /** Some directory on the way, or the root, cannot be read in full. */
  ghost predicate HasTrouble(patterns: seq<Pattern>, node: Local) {
    exists names :: AreNames(names) && KeptAt(patterns, names) && TroubleAt(node, names)
  }

  ghost predicate TroubleAt(node: Local, names: seq<string>) {
    && At(node, names).Some? && Troubled(At(node, names).value)
    && (names != [] ==> At(node, names).value.Dir?)
  }

  lemma TroubleIsProblem(patterns: seq<Pattern>, node: Local)
    requires WellFormed(node)
    ensures HasTrouble(patterns, node) <==> exists at :: Problem(at) in Keep(patterns, All("", node))
  {
    var visits := All("", node);
    if at :| Problem(at) in Keep(patterns, visits) {
      KeepIsFilter(patterns, visits, Problem(at));
      var names := VisitHasNames("", node, Problem(at));
      if names != [] {
        SplitUnderAll(names);
      }
      assert KeptAt(patterns, names) && TroubleAt(node, names);
    }
    if HasTrouble(patterns, node) {
      var names :| AreNames(names) && KeptAt(patterns, names) && TroubleAt(node, names);
      NamesAreVisited("", node, names);
      if names != [] {
        SplitUnderAll(names);
      }
      KeepIsFilter(patterns, visits, Problem(UnderAll("", names)));
    }
  }

  /** The walk: sorted, exactly the files and directories that can be reached and are not
      excluded; it fails exactly when some directory that is not excluded cannot be read in
      full. */
  method Walk(root: Local, patterns: seq<Pattern>) returns (r: Result<SourceTree, string>)
    requires WellFormed(root)
    ensures r.Err? <==> HasTrouble(patterns, root)
    ensures r.Ok? ==> IsWalkOf(r.value, root, patterns)
  {
    var walker := new Walker(patterns);
    walker.Go("", root);
    ghost var kept := Keep(patterns, All("", root));
    assert walker.seen == kept;
    var files, dirs := Sort(walker.files, TextLe), Sort(walker.dirs, TextLe);
    TroubleIsProblem(patterns, root);
    ProblemsOf(kept);
    TextOrder();
    SortSorts(walker.files, TextLe);
    SortSorts(walker.dirs, TextLe);
    forall path ensures FoundExactly(files, dirs, root, patterns, path) {
      MembersOf(kept, path);
      KeepIsFilter(patterns, All("", root), FileAt(path));
      KeepIsFilter(patterns, All("", root), DirAt(path));
      VisitsByPath(root, path);
    }
    match walker.failed {
      case Some(problem) => r := Err(problem);
      case None => r := Ok(SourceTree(files, dirs));
    }
  }

  ghost predicate FoundExactly(files: seq<string>, dirs: seq<string>, root: Local, patterns: seq<Pattern>,
                               path: string)
  {
    var found := if !Excludes(patterns, path) && AreNames(Split(path)) then At(root, Split(path)) else None;
    && (path in files <==> found == Some(File))
    && (path in dirs <==> found.Some? && found.value.Dir?)
  }

  ghost predicate IsWalkOf(tree: SourceTree, root: Local, patterns: seq<Pattern>) {
    && Sorted(tree.files, TextLe) && Sorted(tree.dirs, TextLe)
    && forall path :: FoundExactly(tree.files, tree.dirs, root, patterns, path)
  }

  // ---- What an upload may rely on ----

  /** Nothing is both a file and a directory, every directory above an entry is there, and
      nothing is excluded. */
  ghost predicate IsSource(tree: SourceTree, patterns: seq<Pattern>) {
    && (forall path :: path in tree.files ==> path !in tree.dirs)
    && (forall path :: path in tree.files || path in tree.dirs ==> path != "" && !Excludes(patterns, path))
    && (forall dir, path :: (path in tree.files || path in tree.dirs) && Below(dir, path) ==> dir in tree.dirs)
  }

  lemma {:induction false} AtPrefix(node: Local, above: seq<string>, below: seq<string>)
    requires At(node, above + below).Some? && below != []
    ensures At(node, above).Some? && At(node, above).value.Dir?
    decreases |above|
  {
    if above == [] {
      assert above + below == below;
    } else {
      assert (above + below)[1..] == above[1..] + below;
      AtPrefix(Find(node.entries, above[0]).value, above[1..], below);
    }
  }

  lemma WalkIsSource(tree: SourceTree, root: Local, patterns: seq<Pattern>)
    requires IsWalkOf(tree, root, patterns)
    ensures IsSource(tree, patterns)
  {
    forall path | path in tree.files || path in tree.dirs
      ensures path !in tree.files || path !in tree.dirs
      ensures path != "" && !Excludes(patterns, path)
    {
      assert FoundExactly(tree.files, tree.dirs, root, patterns, path);
    }
    forall dir, path | (path in tree.files || path in tree.dirs) && Below(dir, path)
      ensures dir in tree.dirs
    {
      assert FoundExactly(tree.files, tree.dirs, root, patterns, path);
      assert FoundExactly(tree.files, tree.dirs, root, patterns, dir);
      ExcludedBelow(patterns, dir, path);
      var rest := path[|dir| + 1..];
      assert path == dir + [SLASH] + rest;
      SplitJoined(dir, rest);
      forall i | 0 <= i < |Split(dir)| ensures IsName(Split(dir)[i]) {
        assert Split(dir)[i] == Split(path)[i];
      }
      AtPrefix(root, Split(dir), Split(rest));
    }
  }
}
