/**
 Includes: a plan's included plans inlined, however deep, with every step layered by the plans
 it came through and every variable taken from the first plan in preorder that sets it. It ends
 for any set of plan files, cyclic ones too.

 Here are the plans, the files they are read from, and their vars files; `Flatten` inlines them.
 */
module Includes {
  import opened Wrappers
  import opened Paths

  // ---- Plans and the files they are read from ----

  datatype RunAsUser = Disabled | User(name: string)
  datatype RunAsMethod = Sudo | Su | Doas

  datatype RunAsSpec = RunAsSpec(user: Option<RunAsUser>, how: Option<RunAsMethod>)
  {
    /** This one over `base`, field by field. */
    function MergeOver(base: RunAsSpec): RunAsSpec {
      RunAsSpec(if user.Some? then user else base.user, if how.Some? then how else base.how)
    }
  }

  const UNSET := RunAsSpec(None, None)

  datatype Step = Step(
    name: string,
    subscribe: seq<string>,
    runAs: RunAsSpec,
    tags: seq<string>,
    sourceDir: Option<string>,
    body: string)

  datatype Item = StepItem(step: Step) | Include(path: string, tags: seq<string>)

  /** A variable, by which of the two maps it is in: texts, or lists of items. */
  datatype VarKey = TextVar(name: string) | ListVar(name: string)
  type Vars = map<VarKey, string>

  datatype Plan = Plan(
    name: string,
    vars: Vars,
    varsFiles: seq<string>,
    prompts: seq<string>,
    runAs: RunAsSpec,
    items: seq<Item>)

  /** What the paths read as: plans and vars files that can be read and parsed, and the
      directories that have a canonical name. */
  datatype Files = Files(
    plans: map<string, Plan>,
    varsFiles: map<string, seq<(VarKey, string)>>,
    canonical: map<string, string>)

  datatype Error =
    | CannotRead(path: string)
    | ReservedName(name: string)
    | DuplicateInFile(name: string)
    | DuplicateAcrossFiles(name: string, file: string)
    | PromptInInclude(plan: string)
    | CircularInclude(plan: string)
    | DuplicateStep(name: string)
    | NotPreceding(step: string, subscribe: string)
    | PromptIsVar(name: string)

  function Join(base: string, path: string): string {
    if path != "" && path[0] == SLASH then path
    else if base == "" || base[|base| - 1] == SLASH then base + path
    else base + [SLASH] + path
  }

  /** The directory a path is in, when it has one. */
  function DirOf(path: string): Option<string> {
    match Parent(path)
    case None => if path == "" then None else Some("")
    case Some(at) => if at == "" then (if |path| == 1 then None else Some([SLASH])) else Some(at)
  }

  function ChildBase(base: string, path: string): string {
    match DirOf(path)
    case None => base
    case Some(dir) => dir
  }

  function Canonical(files: Files, dir: string): string {
    if dir in files.canonical then files.canonical[dir] else dir
  }

  // ---- Variables ----

  /** `entry(k).or_insert(v)` for every variable of `own`. */
  function OrInsert(vars: Vars, own: Vars): Vars {
    own + vars
  }

  function OrInsertAll(vars: Vars, maps: seq<Vars>): Vars {
    if maps == [] then vars else OrInsert(OrInsertAll(vars, maps[..|maps| - 1]), maps[|maps| - 1])
  }

  lemma {:induction false} OrInsertJoined(vars: Vars, a: seq<Vars>, b: seq<Vars>)
    ensures OrInsertAll(vars, a + b) == OrInsertAll(OrInsertAll(vars, a), b)
  {
    if b == [] {
      assert a + b == a;
    } else {
      assert (a + b)[..|a + b| - 1] == a + b[..|b| - 1];
      OrInsertJoined(vars, a, b[..|b| - 1]);
    }
  }

  /** The first of `maps` that has a variable. */
  function FirstWith(maps: seq<Vars>, key: VarKey): Option<string> {
    if maps == [] then None
    else if key in maps[0] then Some(maps[0][key])
    else FirstWith(maps[1..], key)
  }

  function Get(vars: Vars, key: VarKey): Option<string> {
    if key in vars then Some(vars[key]) else None
  }

  lemma {:induction false} FirstWithAppend(maps: seq<Vars>, last: Vars, key: VarKey)
    ensures FirstWith(maps + [last], key) ==
            if FirstWith(maps, key).Some? then FirstWith(maps, key) else Get(last, key)
  {
    if maps == [] {
      assert maps + [last] == [last] && [last][1..] == [];
    } else {
      assert (maps + [last])[1..] == maps[1..] + [last];
      FirstWithAppend(maps[1..], last, key);
    }
  }

  /** Inserting where nothing is yet, map after map, the first that has a variable gives it. */
  lemma {:induction false} FirstWins(vars: Vars, maps: seq<Vars>, key: VarKey)
    ensures Get(OrInsertAll(vars, maps), key) == FirstWith([vars] + maps, key)
  {
    if maps == [] {
      assert [vars] + maps == [vars] && [vars][1..] == [];
    } else {
      var front, last := maps[..|maps| - 1], maps[|maps| - 1];
      FirstWins(vars, front, key);
      FirstWithAppend([vars] + front, last, key);
      assert [vars] + maps == [vars] + front + [last];
    }
  }

  // ---- A name, as text or as list ----

  /** What `defined` asks. */
  predicate IsVar(vars: Vars, name: string) {
    TextVar(name) in vars || ListVar(name) in vars
  }

  /** What `${name}` reads. */
  function TextReads(vars: Vars, name: string): Option<string> {
    Get(vars, TextVar(name))
  }

  /** What a `loop` over a name runs over: the list of that name before the text. */
  function LoopReads(vars: Vars, name: string): Option<(VarKey, string)> {
    if ListVar(name) in vars then Some((ListVar(name), vars[ListVar(name)]))
    else if TextVar(name) in vars then Some((TextVar(name), vars[TextVar(name)]))
    else None
  }

  /** The first of `maps` that sets a name, as either kind. */
  function FirstSetter(maps: seq<Vars>, name: string): Option<Vars> {
    if maps == [] then None else if IsVar(maps[0], name) then Some(maps[0]) else FirstSetter(maps[1..], name)
  }

  ghost predicate SetAs(maps: seq<Vars>, key: VarKey) {
    exists i :: 0 <= i < |maps| && key in maps[i]
  }

  lemma {:induction false} FirstWithIsSetters(maps: seq<Vars>, key: VarKey)
    ensures FirstWith(maps, key).Some? <==> SetAs(maps, key)
    ensures match FirstSetter(maps, key.name)
            case None => !SetAs(maps, key)
            case Some(first) => IsVar(first, key.name) && (key in first ==> FirstWith(maps, key) == Some(first[key]))
  {
    if maps != [] {
      FirstWithIsSetters(maps[1..], key);
      assert forall i :: 0 < i < |maps| ==> maps[i] == maps[1..][i - 1];
    }
  }

  /** `all` reads a name as `first` does, where it has what `first` has and otherwise what others
      set: exactly when nobody else adds the kind `first` does not have. */
  lemma ReadsAlike(all: Vars, first: Vars, name: string)
    requires forall key: VarKey :: key.name == name && key in first ==> Get(all, key) == Some(first[key])
    requires IsVar(first, name)
    ensures LoopReads(all, name) == LoopReads(first, name) <==> ListVar(name) in first || ListVar(name) !in all
    ensures TextReads(all, name) == TextReads(first, name) <==> TextVar(name) in first || TextVar(name) !in all
  {
    assert TextVar(name) in first ==> Get(all, TextVar(name)) == Some(first[TextVar(name)]);
    assert ListVar(name) in first ==> Get(all, ListVar(name)) == Some(first[ListVar(name)]);
  }

  // ---- Vars files ----

  function Entries(files: Files, paths: seq<string>, base: string): seq<(VarKey, string)> {
    if paths == [] then []
    else
      var path := Join(base, paths[|paths| - 1]);
      Entries(files, paths[..|paths| - 1], base)
      + if path in files.varsFiles then files.varsFiles[path] else []
  }

  predicate Reserved(name: string) {
    name != "" && name[0] == '@'
  }

  function Mentioned(entries: seq<(VarKey, string)>): set<string> {
    set e | e in entries :: e.0.name
  }

  /** No name is reserved, and none comes twice. */
  ghost predicate OkEntries(entries: seq<(VarKey, string)>) {
    && (forall i, j :: 0 <= i < j < |entries| ==> entries[i].0.name != entries[j].0.name)
    && (forall i :: 0 <= i < |entries| ==> !Reserved(entries[i].0.name))
  }

  lemma OkMore(entries: seq<(VarKey, string)>, entry: (VarKey, string))
    ensures OkEntries(entries + [entry]) <==>
            OkEntries(entries) && !Reserved(entry.0.name) && entry.0.name !in Mentioned(entries)
    ensures Mentioned(entries + [entry]) == Mentioned(entries) + {entry.0.name}
  {
    var more := entries + [entry];
    assert forall i :: 0 <= i < |entries| ==> more[i] == entries[i];
    assert more[|entries|] == entry;
    forall e | e in entries && e.0.name == entry.0.name ensures !OkEntries(more) {
      var i :| 0 <= i < |entries| && entries[i] == e;
      assert more[i].0.name == more[|entries|].0.name;
    }
    forall e ensures e in more <==> e in entries || e == entry {
    }
  }

  /** Every file can be read, no name is reserved, and no name is set twice, in one file or
      across them. */
  ghost predicate VarsFilesOk(files: Files, paths: seq<string>, base: string) {
    (forall p :: p in paths ==> Join(base, p) in files.varsFiles) && OkEntries(Entries(files, paths, base))
  }

  /** `vars` with what the files add: its own values win. */
  function WithEntries(vars: Vars, entries: seq<(VarKey, string)>): Vars {
    if entries == [] then vars
    else
      var (key, value) := entries[|entries| - 1];
      OrInsert(WithEntries(vars, entries[..|entries| - 1]), map[key := value])
  }

  function OwnVars(files: Files, plan: Plan, base: string): Vars {
    WithEntries(plan.vars, Entries(files, plan.varsFiles, base))
  }

  /** What the first paths read as is where all of them start. */
  lemma {:induction false} EntriesPrefix(files: Files, paths: seq<string>, n: nat, base: string)
    requires n <= |paths|
    ensures Entries(files, paths[..n], base) <= Entries(files, paths, base)
    decreases |paths| - n
  {
    if n < |paths| {
      EntriesPrefix(files, paths, n + 1, base);
      assert paths[..n + 1][..n] == paths[..n];
    } else {
      assert paths[..n] == paths;
    }
  }

  /** The state of the reading after `done`: the variables so far, and the names seen. */
  ghost predicate ReadTo(done: seq<(VarKey, string)>, vars: Vars, result: Vars, seen: set<string>) {
    OkEntries(done) && result == WithEntries(vars, done) && seen == Mentioned(done)
  }

  method ResolveVarsFiles(files: Files, paths: seq<string>, vars: Vars, base: string) returns (r: Result<Vars, Error>)
    ensures r.Ok? <==> VarsFilesOk(files, paths, base)
    ensures r.Ok? ==> r.value == WithEntries(vars, Entries(files, paths, base))
  {
    var result, seenAcross: map<string, string> := vars, map[];
    for n := 0 to |paths|
      invariant PathsRead(files, paths, n, base, vars, result, seenAcross.Keys)
    {
      var path := Join(base, paths[n]);
      if path !in files.varsFiles {
        PathMissing(files, paths, n, base);
        return Err(CannotRead(path));
      }
      ghost var done := Entries(files, paths[..n], base);
      var one := ReadVarsFile(files.varsFiles[path], paths[n], result, seenAcross, done, vars);
      if one.Err? {
        PathFails(files, paths, n, base);
        return Err(one.error);
      }
      result, seenAcross := one.value.0, one.value.1;
      OneMoreRead(files, paths, n, base, vars, result, seenAcross.Keys);
    }
    AllPathsRead(files, paths, base, vars, result, seenAcross.Keys);
    r := Ok(result);
  }

  /** The first `n` files are read. */
  ghost predicate PathsRead(files: Files, paths: seq<string>, n: nat, base: string, vars: Vars, result: Vars, seen: set<string>)
    requires n <= |paths|
  {
    && (forall m :: 0 <= m < n ==> Join(base, paths[m]) in files.varsFiles)
    && ReadTo(Entries(files, paths[..n], base), vars, result, seen)
  }

  lemma PathMissing(files: Files, paths: seq<string>, n: nat, base: string)
    requires n < |paths| && Join(base, paths[n]) !in files.varsFiles
    ensures !VarsFilesOk(files, paths, base)
  {
    assert paths[n] in paths;
  }

  lemma PathFails(files: Files, paths: seq<string>, n: nat, base: string)
    requires n < |paths| && Join(base, paths[n]) in files.varsFiles
    requires !OkEntries(Entries(files, paths[..n], base) + files.varsFiles[Join(base, paths[n])])
    ensures !VarsFilesOk(files, paths, base)
  {
    EntriesNext(files, paths, n, base);
  }

  lemma OneMoreRead(files: Files, paths: seq<string>, n: nat, base: string, vars: Vars, result: Vars, seen: set<string>)
    requires n < |paths| && (forall m :: 0 <= m <= n ==> Join(base, paths[m]) in files.varsFiles)
    requires ReadTo(Entries(files, paths[..n], base) + files.varsFiles[Join(base, paths[n])], vars, result, seen)
    ensures PathsRead(files, paths, n + 1, base, vars, result, seen)
  {
    EntriesNext(files, paths, n, base);
  }

  lemma AllPathsRead(files: Files, paths: seq<string>, base: string, vars: Vars, result: Vars, seen: set<string>)
    requires PathsRead(files, paths, |paths|, base, vars, result, seen)
    ensures VarsFilesOk(files, paths, base) && result == WithEntries(vars, Entries(files, paths, base))
  {
    assert paths[..|paths|] == paths;
  }

  lemma EntriesNext(files: Files, paths: seq<string>, n: nat, base: string)
    requires n < |paths| && Join(base, paths[n]) in files.varsFiles
    ensures var next := Entries(files, paths[..n], base) + files.varsFiles[Join(base, paths[n])];
            Entries(files, paths[..n + 1], base) == next
            && (OkEntries(Entries(files, paths, base)) ==> OkEntries(next))
  {
    assert paths[..n + 1][..n] == paths[..n];
    EntriesPrefix(files, paths, n + 1, base);
    if OkEntries(Entries(files, paths, base)) {
      OkStart(Entries(files, paths[..n + 1], base), Entries(files, paths, base));
    }
  }

  /** Entries that are sound are so from their start. */
  lemma OkStart(start: seq<(VarKey, string)>, all: seq<(VarKey, string)>)
    requires start <= all && OkEntries(all)
    ensures OkEntries(start)
  {
    assert forall i :: 0 <= i < |start| ==> start[i] == all[i];
  }

  lemma ReadOne(done: seq<(VarKey, string)>, entry: (VarKey, string), vars: Vars, result: Vars, seen: set<string>)
    requires ReadTo(done, vars, result, seen)
    ensures if Reserved(entry.0.name) || entry.0.name in seen then !OkEntries(done + [entry])
            else ReadTo(done + [entry], vars, OrInsert(result, map[entry.0 := entry.1]), seen + {entry.0.name})
  {
    OkMore(done, entry);
    assert (done + [entry])[..|done|] == done;
  }

  /** One file's variables, after `done` from the files before it. */
  method ReadVarsFile(entries: seq<(VarKey, string)>, path: string, before: Vars, across: map<string, string>,
                      ghost done: seq<(VarKey, string)>, ghost vars: Vars)
    returns (r: Result<(Vars, map<string, string>), Error>)
    requires ReadTo(done, vars, before, across.Keys)
    ensures r.Ok? <==> OkEntries(done + entries)
    ensures r.Ok? ==> ReadTo(done + entries, vars, r.value.0, r.value.1.Keys)
  {
    var result, seenAcross, seenInFile: set<string> := before, across, {};
    ghost var all, read := done + entries, done;
    for i := 0 to |entries|
      invariant read + entries[i..] == all && ReadTo(read, vars, result, seenAcross.Keys)
      invariant seenInFile <= seenAcross.Keys
    {
      var entry, name := entries[i], entries[i].0.name;
      ReadOne(read, entry, vars, result, seenAcross.Keys);
      NextEntry(read, entries, i, all);
      if Reserved(name) || name in seenInFile || name in seenAcross {
        if OkEntries(all) {
          OkStart(read + [entry], all);
        }
        return Err(if Reserved(name) then ReservedName(name)
                   else if name in seenInFile then DuplicateInFile(name)
                   else DuplicateAcrossFiles(name, seenAcross[name]));
      }
      seenInFile, seenAcross := seenInFile + {name}, seenAcross[name := path];
      result := OrInsert(result, map[entry.0 := entry.1]);
      read := read + [entry];
    }
    assert read + [] == read;
    r := Ok((result, seenAcross));
  }

  lemma NextEntry(read: seq<(VarKey, string)>, entries: seq<(VarKey, string)>, i: nat, all: seq<(VarKey, string)>)
    requires i < |entries| && read + entries[i..] == all
    ensures read + [entries[i]] + entries[i + 1..] == all && read + [entries[i]] <= all
  {
    assert entries[i..] == [entries[i]] + entries[i + 1..];
  }
}
