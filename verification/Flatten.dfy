/**
 The flattening itself: a plan resolves exactly when its includes unfold into a finite tree in
 which no plan comes twice, and then to that tree's steps and variables, in document order.
 */
module Flatten {
  import opened Wrappers
  import opened Includes

  // ---- The inlined tree ----

  /** A plan's items with their includes inlined: `dir` is where an included plan is. */
  datatype Tree = Leaf(step: Step) | Branch(plan: Plan, dir: string, tags: seq<string>, kids: seq<Tree>)

  /** `trees` is what `items`, read from `base`, unfold into. */
  ghost predicate Inlines(files: Files, base: string, items: seq<Item>, trees: seq<Tree>)
    decreases trees
  {
    |trees| == |items| && forall i :: 0 <= i < |items| ==> InlinesItem(files, base, items[i], trees[i])
  }

  ghost predicate InlinesItem(files: Files, base: string, item: Item, tree: Tree)
    decreases tree
  {
    match item
    case StepItem(step) => tree == Leaf(step)
    case Include(path, tags) =>
      && tree.Branch? && Join(base, path) in files.plans && tree.plan == files.plans[Join(base, path)]
      && tree.dir == ChildBase(base, Join(base, path)) && tree.tags == tags
      && tree.plan.prompts == [] && VarsFilesOk(files, tree.plan.varsFiles, tree.dir)
      && Inlines(files, tree.dir, tree.plan.items, tree.kids)
  }

  /** Items unfold in one way at most. */
  lemma {:induction false} UnfoldsOnce(files: Files, base: string, items: seq<Item>, a: seq<Tree>, b: seq<Tree>)
    requires Inlines(files, base, items, a) && Inlines(files, base, items, b)
    ensures a == b
    decreases a
  {
    forall i | 0 <= i < |items| ensures a[i] == b[i] {
      assert InlinesItem(files, base, items[i], a[i]) && InlinesItem(files, base, items[i], b[i]);
      if items[i].Include? {
        UnfoldsOnce(files, a[i].dir, a[i].plan.items, a[i].kids, b[i].kids);
      }
    }
  }

  /** The names of the included plans, in the order they are read. */
  function Names(trees: seq<Tree>): seq<string>
    decreases trees
  {
    if trees == [] then [] else Names(trees[..|trees| - 1]) + NamesAt(trees[|trees| - 1])
  }

  function NamesAt(tree: Tree): seq<string>
    decreases tree
  {
    match tree
    case Leaf(_) => []
    case Branch(plan, _, _, kids) => [plan.name] + Names(kids)
  }

  /** The included plans' own variables, in that order. */
  function Owns(files: Files, trees: seq<Tree>): seq<Vars>
    decreases trees
  {
    if trees == [] then [] else Owns(files, trees[..|trees| - 1]) + OwnsAt(files, trees[|trees| - 1])
  }

  function OwnsAt(files: Files, tree: Tree): seq<Vars>
    decreases tree
  {
    match tree
    case Leaf(_) => []
    case Branch(plan, dir, _, kids) => [OwnVars(files, plan, dir)] + Owns(files, kids)
  }

  // ---- What a step takes from the plans it came through ----

  /** `own`, then those of `extra` it lacks. */
  function MergeTags(own: seq<string>, extra: seq<string>): seq<string> {
    if extra == [] then own
    else
      var merged := MergeTags(own, extra[..|extra| - 1]);
      if extra[|extra| - 1] in merged then merged else merged + [extra[|extra| - 1]]
  }

  /** Merging keeps `own` in front and loses no tag. */
  lemma {:induction false} MergeTagsUnites(own: seq<string>, extra: seq<string>)
    ensures own <= MergeTags(own, extra)
    ensures forall t :: t in MergeTags(own, extra) <==> t in own || t in extra
  {
    if extra != [] {
      MergeTagsUnites(own, extra[..|extra| - 1]);
      assert extra == extra[..|extra| - 1] + [extra[|extra| - 1]];
    }
  }

  method MergeTagsLoop(own: seq<string>, extra: seq<string>) returns (tags: seq<string>)
    ensures tags == MergeTags(own, extra)
  {
    tags := own;
    for i := 0 to |extra|
      invariant tags == MergeTags(own, extra[..i])
    {
      assert extra[..i + 1][..i] == extra[..i];
      if extra[i] !in tags {
        tags := tags + [extra[i]];
      }
    }
    assert extra[..|extra|] == extra;
  }

  /** An include a step came through: its plan, where it is, its tags. */
  datatype Passage = Passage(plan: Plan, dir: string, tags: seq<string>)

  /** The escalation of the plans passed through, innermost first. */
  function RunAsThrough(chain: seq<Passage>): RunAsSpec {
    if chain == [] then UNSET else chain[0].plan.runAs.MergeOver(RunAsThrough(chain[1..]))
  }

  function TagsThrough(chain: seq<Passage>): seq<string> {
    if chain == [] then [] else MergeTags(chain[0].tags, TagsThrough(chain[1..]))
  }

  function Layered(files: Files, step: Step, chain: seq<Passage>): Step {
    step.(runAs := step.runAs.MergeOver(RunAsThrough(chain)),
          sourceDir := if chain == [] then None else Some(Canonical(files, chain[0].dir)),
          tags := MergeTags(step.tags, TagsThrough(chain)))
  }

  function Flattened(files: Files, trees: seq<Tree>, chain: seq<Passage>): seq<Step>
    decreases trees
  {
    if trees == [] then []
    else Flattened(files, trees[..|trees| - 1], chain) + FlattenedAt(files, trees[|trees| - 1], chain)
  }

  function FlattenedAt(files: Files, tree: Tree, chain: seq<Passage>): seq<Step>
    decreases tree
  {
    match tree
    case Leaf(step) => [Layered(files, step, chain)]
    case Branch(plan, dir, tags, kids) => Flattened(files, kids, [Passage(plan, dir, tags)] + chain)
  }

  /** The first of the step's own escalation and that of each plan from the innermost out that
      names a user gives the user. */
  function FirstUser(specs: seq<RunAsSpec>): Option<RunAsUser> {
    if specs == [] then None else if specs[0].user.Some? then specs[0].user else FirstUser(specs[1..])
  }

  function RunAsOf(chain: seq<Passage>): seq<RunAsSpec> {
    seq(|chain|, i requires 0 <= i < |chain| => chain[i].plan.runAs)
  }

  lemma {:induction false} InnermostUserWins(files: Files, step: Step, chain: seq<Passage>)
    ensures Layered(files, step, chain).runAs.user == FirstUser([step.runAs] + RunAsOf(chain))
  {
    ThroughIsFirst(chain);
    assert ([step.runAs] + RunAsOf(chain))[1..] == RunAsOf(chain);
  }

  lemma {:induction false} ThroughIsFirst(chain: seq<Passage>)
    ensures RunAsThrough(chain).user == FirstUser(RunAsOf(chain))
  {
    if chain != [] {
      ThroughIsFirst(chain[1..]);
      assert RunAsOf(chain)[1..] == RunAsOf(chain[1..]);
    }
  }

  /** A step carries its own tags and those of every include it came through. */
  lemma {:induction false} TagsAreUnited(files: Files, step: Step, chain: seq<Passage>, tag: string)
    ensures tag in Layered(files, step, chain).tags <==>
            tag in step.tags || exists i :: 0 <= i < |chain| && tag in chain[i].tags
  {
    MergeTagsUnites(step.tags, TagsThrough(chain));
    TagsThroughUnite(chain, tag);
  }

  lemma {:induction false} TagsThroughUnite(chain: seq<Passage>, tag: string)
    ensures tag in TagsThrough(chain) <==> exists i :: 0 <= i < |chain| && tag in chain[i].tags
  {
    if chain != [] {
      TagsThroughUnite(chain[1..], tag);
      MergeTagsUnites(chain[0].tags, TagsThrough(chain[1..]));
      assert chain == [chain[0]] + chain[1..];
      assert forall i :: 0 <= i < |chain| - 1 ==> chain[1..][i] == chain[i + 1];
    }
  }

  // ---- Names not seen before ----

  /** Each of `names` is new: not in `seen`, nor before. */
  ghost predicate AllNew(names: seq<string>, seen: set<string>) {
    && (forall i :: 0 <= i < |names| ==> names[i] !in seen)
    && (forall i, j :: 0 <= i < j < |names| ==> names[i] != names[j])
  }

  ghost function SeenAfter(seen: set<string>, names: seq<string>): set<string> {
    seen + set n | n in names
  }

  lemma AllNewJoined(a: seq<string>, b: seq<string>, seen: set<string>)
    ensures AllNew(a + b, seen) <==> AllNew(a, seen) && AllNew(b, SeenAfter(seen, a))
    ensures SeenAfter(seen, a + b) == SeenAfter(SeenAfter(seen, a), b)
  {
    var all := a + b;
    assert forall i :: 0 <= i < |a| ==> all[i] == a[i];
    assert forall i :: 0 <= i < |b| ==> all[|a| + i] == b[i];
    if AllNew(all, seen) {
      forall i | 0 <= i < |b| ensures b[i] !in SeenAfter(seen, a) {
        assert all[|a| + i] !in seen;
      }
      assert AllNew(b, SeenAfter(seen, a));
    }
    if AllNew(a, seen) && AllNew(b, SeenAfter(seen, a)) {
      forall i, j | 0 <= i < j < |all| ensures all[i] != all[j] {
        if i < |a| <= j {
          assert all[i] in a;
        } else if |a| <= i {
          assert b[i - |a|] != b[j - |a|];
        }
      }
    }
  }

  /** What the first items read is where all of them start. */
  lemma {:induction false} NamesPrefix(trees: seq<Tree>, n: nat)
    requires n <= |trees|
    ensures Names(trees[..n]) <= Names(trees)
    decreases |trees| - n
  {
    if n < |trees| {
      NamesPrefix(trees, n + 1);
      assert trees[..n + 1][..n] == trees[..n];
    } else {
      assert trees[..n] == trees;
    }
  }

  /** Where one item cannot be inlined with names not seen, no unfolding of all of them can. */
  lemma FailsHere(files: Files, base: string, items: seq<Item>, trees: seq<Tree>, i: nat, seen: set<string>)
    requires i < |items| && Inlines(files, base, items[..i], trees)
    requires forall t :: InlinesItem(files, base, items[i], t) ==> !AllNew(NamesAt(t), SeenAfter(seen, Names(trees)))
    ensures forall ts :: Inlines(files, base, items, ts) ==> !AllNew(Names(ts), seen)
  {
    forall ts | Inlines(files, base, items, ts) ensures !AllNew(Names(ts), seen) {
      UnfoldsOnce(files, base, items[..i], trees, ts[..i]);
      assert InlinesItem(files, base, items[i], ts[i]);
      assert ts[..i + 1][..i] == trees && ts[..i + 1][i] == ts[i];
      AllNewJoined(Names(trees), NamesAt(ts[i]), seen);
      NamesPrefix(ts, i + 1);
    }
  }

  /** One more item inlined. */
  lemma OneMoreInlined(files: Files, base: string, items: seq<Item>, trees: seq<Tree>, tree: Tree, chain: seq<Passage>)
    requires |trees| < |items| && Inlines(files, base, items[..|trees|], trees)
    requires InlinesItem(files, base, items[|trees|], tree)
    ensures var more := trees + [tree];
            && Inlines(files, base, items[..|trees| + 1], more)
            && Names(more) == Names(trees) + NamesAt(tree)
            && Owns(files, more) == Owns(files, trees) + OwnsAt(files, tree)
            && Flattened(files, more, chain) == Flattened(files, trees, chain) + FlattenedAt(files, tree, chain)
  {
    var more := trees + [tree];
    assert more[..|trees|] == trees;
    forall i | 0 <= i < |more| ensures InlinesItem(files, base, items[..|trees| + 1][i], more[i]) {
      if i < |trees| {
        assert InlinesItem(files, base, items[..|trees|][i], trees[i]);
      }
    }
  }

  // ---- Resolving ----

  datatype Inherited = Inherited(runAs: RunAsSpec, tags: seq<string>)

  /** What passing through `chain` hands down. */
  function HandedDown(chain: seq<Passage>): Inherited {
    Inherited(RunAsThrough(chain), TagsThrough(chain))
  }

  function SourceDir(files: Files, chain: seq<Passage>): Option<string> {
    if chain == [] then None else Some(Canonical(files, chain[0].dir))
  }

  function PlanNames(files: Files): set<string> {
    set p | p in files.plans :: files.plans[p].name
  }

  /** An include's plan name comes first, then the names its items bring in. */
  lemma BranchIsNew(plan: Plan, dir: string, tags: seq<string>, kids: seq<Tree>, seen: set<string>)
    ensures var tree := Branch(plan, dir, tags, kids);
            && (AllNew(NamesAt(tree), seen) <==> plan.name !in seen && AllNew(Names(kids), seen + {plan.name}))
            && SeenAfter(seen, NamesAt(tree)) == SeenAfter(seen + {plan.name}, Names(kids))
  {
    AllNewJoined([plan.name], Names(kids), seen);
    assert SeenAfter(seen, [plan.name]) == seen + {plan.name};
    assert AllNew([plan.name], seen) <==> plan.name !in seen by {
      assert [plan.name][0] == plan.name;
    }
  }

  lemma BranchOwns(files: Files, plan: Plan, dir: string, tags: seq<string>, kids: seq<Tree>, vars: Vars)
    ensures OrInsertAll(vars, OwnsAt(files, Branch(plan, dir, tags, kids)))
         == OrInsertAll(OrInsert(vars, OwnVars(files, plan, dir)), Owns(files, kids))
  {
    var own := OwnVars(files, plan, dir);
    OrInsertJoined(vars, [own], Owns(files, kids));
    assert [own][..|[own]| - 1] == [];
  }

  /** An include cannot be inlined where its plan was seen, or its items cannot be. */
  lemma IncludeFails(files: Files, base: string, path: string, tags: seq<string>, seen: set<string>)
    requires Join(base, path) in files.plans ==>
               var plan := files.plans[Join(base, path)];
               var dir := ChildBase(base, Join(base, path));
               || plan.prompts != [] || plan.name in seen || !VarsFilesOk(files, plan.varsFiles, dir)
               || forall kids :: Inlines(files, dir, plan.items, kids) ==> !AllNew(Names(kids), seen + {plan.name})
    ensures forall t :: InlinesItem(files, base, Include(path, tags), t) ==> !AllNew(NamesAt(t), seen)
  {
    forall t | InlinesItem(files, base, Include(path, tags), t) ensures !AllNew(NamesAt(t), seen) {
      BranchIsNew(t.plan, t.dir, t.tags, t.kids, seen);
    }
  }

  /** The variables gathered and the plans seen so far. */
  class Resolver {
    const files: Files
    var vars: Vars
    var seen: set<string>

    constructor (files: Files, vars: Vars, seen: set<string>)
      ensures this.files == files && this.vars == vars && this.seen == seen
    {
      this.files, this.vars, this.seen := files, vars, seen;
    }

    /** Items in order. It ends even where includes are cyclic: each include adds a plan name
        not seen before, and there are only so many. */
    method Items(items: seq<Item>, sourceDir: Option<string>, base: string, inherited: Inherited,
                 ghost chain: seq<Passage>)
      returns (r: Result<seq<Step>, Error>, ghost trees: seq<Tree>)
      requires inherited == HandedDown(chain) && sourceDir == SourceDir(files, chain)
      modifies this
      ensures r.Ok? ==>
                && Inlines(files, base, items, trees)
                && AllNew(Names(trees), old(seen)) && seen == SeenAfter(old(seen), Names(trees))
                && vars == OrInsertAll(old(vars), Owns(files, trees))
                && r.value == Flattened(files, trees, chain)
      ensures r.Err? ==> forall ts :: Inlines(files, base, items, ts) ==> !AllNew(Names(ts), old(seen))
      decreases PlanNames(files) - seen, 1
    {
      var result := [];
      trees := [];
      for i := 0 to |items|
        invariant |trees| == i && Inlines(files, base, items[..i], trees)
        invariant AllNew(Names(trees), old(seen)) && seen == SeenAfter(old(seen), Names(trees))
        invariant vars == OrInsertAll(old(vars), Owns(files, trees))
        invariant result == Flattened(files, trees, chain)
      {
        ghost var before, varsBefore := seen, vars;
        var one;
        ghost var tree;
        match items[i] {
          case StepItem(step) =>
            var tags := MergeTagsLoop(step.tags, inherited.tags);
            one := Ok([step.(runAs := step.runAs.MergeOver(inherited.runAs), sourceDir := sourceDir, tags := tags)]);
            tree := Leaf(step);
          case Include(path, tags) =>
            one, tree := One(path, tags, base, inherited, chain);
        }
        if one.Err? {
          FailsHere(files, base, items, trees, i, old(seen));
          return Err(one.error), trees;
        }
        OneMoreInlined(files, base, items, trees, tree, chain);
        AllNewJoined(Names(trees), NamesAt(tree), old(seen));
        OrInsertJoined(old(vars), Owns(files, trees), OwnsAt(files, tree));
        result := result + one.value;
        trees := trees + [tree];
      }
      assert items[..|items|] == items;
      r := Ok(result);
    }

    /** One include: its plan read, checked and inlined. */
    method One(path: string, tags: seq<string>, base: string, inherited: Inherited, ghost chain: seq<Passage>)
      returns (r: Result<seq<Step>, Error>, ghost tree: Tree)
      requires inherited == HandedDown(chain)
      modifies this
      ensures r.Ok? ==>
                && InlinesItem(files, base, Include(path, tags), tree)
                && AllNew(NamesAt(tree), old(seen)) && seen == SeenAfter(old(seen), NamesAt(tree))
                && vars == OrInsertAll(old(vars), OwnsAt(files, tree))
                && r.value == FlattenedAt(files, tree, chain)
      ensures r.Err? ==>
                forall t :: InlinesItem(files, base, Include(path, tags), t) ==> !AllNew(NamesAt(t), old(seen))
      decreases PlanNames(files) - seen, 0
    {
      var at := Join(base, path);
      tree := Leaf(Step("", [], UNSET, [], None, ""));
      if at !in files.plans || files.plans[at].prompts != [] || files.plans[at].name in seen {
        IncludeFails(files, base, path, tags, seen);
        return Err(if at !in files.plans then CannotRead(at)
                   else if files.plans[at].prompts != [] then PromptInInclude(files.plans[at].name)
                   else CircularInclude(files.plans[at].name)), tree;
      }
      var included := files.plans[at];
      seen := seen + {included.name};
      var dir := ChildBase(base, at);
      var own := ResolveVarsFiles(files, included.varsFiles, included.vars, dir);
      if own.Err? {
        IncludeFails(files, base, path, tags, old(seen));
        return Err(own.error), tree;
      }
      vars := OrInsert(vars, own.value);
      var childTags := MergeTagsLoop(tags, inherited.tags);
      var child := Inherited(included.runAs.MergeOver(inherited.runAs), childTags);
      ghost var passage := Passage(included, dir, tags);
      assert ([passage] + chain)[1..] == chain;
      assert included.name in PlanNames(files);
      ghost var kids;
      r, kids := Items(included.items, Some(Canonical(files, dir)), dir, child, [passage] + chain);
      tree := Branch(included, dir, tags, kids);
      if r.Err? {
        IncludeFails(files, base, path, tags, old(seen));
      } else {
        BranchIsNew(included, dir, tags, kids, old(seen));
        BranchOwns(files, included, dir, tags, kids, old(vars));
      }
    }
  }

  // ---- The whole plan ----

  /** Step names come once, and a step subscribes only to steps before it. */
  ghost predicate StepsOk(steps: seq<Step>) {
    && (forall i, j :: 0 <= i < j < |steps| ==> steps[i].name != steps[j].name)
    && (forall i, sub :: 0 <= i < |steps| && sub in steps[i].subscribe ==> SomeNamed(steps[..i], sub))
  }

  ghost predicate SomeNamed(steps: seq<Step>, name: string) {
    exists j :: 0 <= j < |steps| && steps[j].name == name
  }

  lemma StepsOkMore(steps: seq<Step>, step: Step)
    ensures StepsOk(steps + [step]) <==>
            && StepsOk(steps) && !SomeNamed(steps, step.name)
            && forall sub :: sub in step.subscribe ==> SomeNamed(steps, sub)
  {
    var more := steps + [step];
    assert forall i :: 0 <= i < |steps| ==> more[i] == steps[i] && more[..i] == steps[..i];
    assert more[|steps|] == step && more[..|steps|] == steps;
  }

  lemma StepsOkPrefix(steps: seq<Step>, n: nat)
    requires n <= |steps| && StepsOk(steps)
    ensures StepsOk(steps[..n])
  {
    forall i | 0 <= i < n ensures steps[..n][i] == steps[i] && steps[..n][..i] == steps[..i] {
    }
  }

  method CheckSteps(steps: seq<Step>) returns (problem: Option<Error>)
    ensures problem.None? <==> StepsOk(steps)
  {
    var seen: seq<string> := [];
    for i := 0 to |steps|
      invariant StepsOk(steps[..i])
      invariant forall name :: name in seen <==> SomeNamed(steps[..i], name)
    {
      var step := steps[i];
      assert steps[..i + 1] == steps[..i] + [step];
      StepsOkMore(steps[..i], step);
      if step.name in seen {
        NotOkFrom(steps, i + 1);
        return Some(DuplicateStep(step.name));
      }
      for k := 0 to |step.subscribe|
        invariant forall sub :: sub in step.subscribe[..k] ==> SomeNamed(steps[..i], sub)
      {
        if step.subscribe[k] !in seen {
          assert step.subscribe[k] in step.subscribe;
          NotOkFrom(steps, i + 1);
          return Some(NotPreceding(step.name, step.subscribe[k]));
        }
      }
      assert step.subscribe[..|step.subscribe|] == step.subscribe;
      NamedMore(steps[..i], step);
      seen := seen + [step.name];
    }
    assert steps[..|steps|] == steps;
    return None;
  }

  lemma NotOkFrom(steps: seq<Step>, n: nat)
    requires n <= |steps| && !StepsOk(steps[..n])
    ensures !StepsOk(steps)
  {
    if StepsOk(steps) {
      StepsOkPrefix(steps, n);
    }
  }

  lemma NamedMore(steps: seq<Step>, step: Step)
    ensures forall name :: SomeNamed(steps + [step], name) <==> SomeNamed(steps, name) || name == step.name
  {
    var more := steps + [step];
    assert more[|steps|] == step;
    forall name | SomeNamed(steps, name) ensures SomeNamed(more, name) {
      var j :| 0 <= j < |steps| && steps[j].name == name;
      assert more[j].name == name;
    }
  }

  /** What a plan resolves to, by the tree its includes unfold into. */
  ghost predicate Resolves(files: Files, plan: Plan, base: string, trees: seq<Tree>) {
    && VarsFilesOk(files, plan.varsFiles, base)
    && Inlines(files, base, plan.items, trees)
    && AllNew(Names(trees), {plan.name})
    && StepsOk(Flattened(files, trees, []))
    && forall p :: p in plan.prompts ==> !IsVar(AllVars(files, plan, base, trees), p)
  }

  ghost function AllVars(files: Files, plan: Plan, base: string, trees: seq<Tree>): Vars {
    OrInsertAll(OwnVars(files, plan, base), Owns(files, trees))
  }

  /** A plan resolves exactly when it unfolds into such a tree, and then to that tree's steps
      and variables. */
  method ResolveIncludes(files: Files, plan: Plan, base: string)
    returns (r: Result<(Vars, seq<Step>), Error>, ghost trees: seq<Tree>)
    ensures r.Ok? ==>
              && Resolves(files, plan, base, trees)
              && r.value == (AllVars(files, plan, base, trees), Flattened(files, trees, []))
    ensures r.Err? ==> forall ts :: !Resolves(files, plan, base, ts)
  {
    trees := [];
    var own := ResolveVarsFiles(files, plan.varsFiles, plan.vars, base);
    if own.Err? {
      return Err(own.error), trees;
    }
    var resolver := new Resolver(files, own.value, {plan.name});
    var steps;
    steps, trees := resolver.Items(plan.items, None, base, Inherited(UNSET, []), []);
    if steps.Err? {
      return Err(steps.error), trees;
    }
    OnlyOneResolves(files, plan, base, trees);
    var problem := CheckSteps(steps.value);
    if problem.Some? {
      return Err(problem.value), trees;
    }
    for i := 0 to |plan.prompts|
      invariant forall p :: p in plan.prompts[..i] ==> !IsVar(resolver.vars, p)
    {
      if IsVar(resolver.vars, plan.prompts[i]) {
        assert plan.prompts[i] in plan.prompts;
        return Err(PromptIsVar(plan.prompts[i])), trees;
      }
      assert plan.prompts[..i + 1] == plan.prompts[..i] + [plan.prompts[i]];
    }
    assert plan.prompts[..|plan.prompts|] == plan.prompts;
    r := Ok((resolver.vars, steps.value));
  }

  lemma OnlyOneResolves(files: Files, plan: Plan, base: string, trees: seq<Tree>)
    requires Inlines(files, base, plan.items, trees)
    ensures forall ts :: Resolves(files, plan, base, ts) ==> ts == trees
  {
    forall ts | Resolves(files, plan, base, ts) ensures ts == trees {
      UnfoldsOnce(files, base, plan.items, trees, ts);
    }
  }

  /** Each variable of a resolved plan has the value of the first plan in preorder that sets it;
      a plan's own values come before its vars files'. */
  lemma VarsAreFirst(files: Files, plan: Plan, base: string, trees: seq<Tree>, key: VarKey)
    ensures Get(AllVars(files, plan, base, trees), key)
         == FirstWith([OwnVars(files, plan, base)] + Owns(files, trees), key)
  {
    FirstWins(OwnVars(files, plan, base), Owns(files, trees), key);
  }

  lemma {:induction false} InlineOverFile(vars: Vars, entries: seq<(VarKey, string)>, key: VarKey)
    requires OkEntries(entries)
    ensures key in vars ==> Get(WithEntries(vars, entries), key) == Some(vars[key])
    ensures key !in vars ==>
              forall e :: e in entries && e.0 == key ==> Get(WithEntries(vars, entries), key) == Some(e.1)
    ensures key !in vars && (forall e :: e in entries ==> e.0 != key) ==> key !in WithEntries(vars, entries)
  {
    if entries != [] {
      var front, last := entries[..|entries| - 1], entries[|entries| - 1];
      assert entries == front + [last];
      OkMore(front, last);
      InlineOverFile(vars, front, key);
    }
  }

  // ---- Names, as text or as list ----

  function OwnMaps(files: Files, plan: Plan, base: string, trees: seq<Tree>): seq<Vars> {
    [OwnVars(files, plan, base)] + Owns(files, trees)
  }

  /** By name. A name is defined exactly when some plan sets it. What a `loop` over it and what
      `${name}` reads is what the first plan in preorder that sets the name says, exactly when that
      plan sets it as the kind that is read, or no plan does; so both are, unless some plan sets
      the name as a text and some as a list. */
  lemma NamesAreFirst(files: Files, plan: Plan, base: string, trees: seq<Tree>, name: string)
    ensures var all, maps := AllVars(files, plan, base, trees), OwnMaps(files, plan, base, trees);
            match FirstSetter(maps, name)
            case None => !IsVar(all, name)
            case Some(first) =>
              && IsVar(all, name)
              && (LoopReads(all, name) == LoopReads(first, name) <==>
                    ListVar(name) in first || !SetAs(maps, ListVar(name)))
              && (TextReads(all, name) == TextReads(first, name) <==>
                    TextVar(name) in first || !SetAs(maps, TextVar(name)))
              && (!(SetAs(maps, TextVar(name)) && SetAs(maps, ListVar(name))) ==>
                    LoopReads(all, name) == LoopReads(first, name) && TextReads(all, name) == TextReads(first, name))
  {
    var all, maps := AllVars(files, plan, base, trees), OwnMaps(files, plan, base, trees);
    forall key: VarKey | key.name == name
      ensures key in all <==> SetAs(maps, key)
      ensures FirstSetter(maps, name).Some? && key in FirstSetter(maps, name).value ==>
                Get(all, key) == Some(FirstSetter(maps, name).value[key])
    {
      VarsAreFirst(files, plan, base, trees, key);
      FirstWithIsSetters(maps, key);
    }
    FirstWithIsSetters(maps, TextVar(name));
    SetterSets(maps, name);
    if FirstSetter(maps, name).Some? {
      ReadsAlike(all, FirstSetter(maps, name).value, name);
    }
  }

  lemma {:induction false} SetterSets(maps: seq<Vars>, name: string)
    ensures match FirstSetter(maps, name)
            case None => !SetAs(maps, TextVar(name)) && !SetAs(maps, ListVar(name))
            case Some(first) => forall key: VarKey :: key in first ==> SetAs(maps, key)
  {
    if maps != [] {
      SetterSets(maps[1..], name);
      forall key | SetAs(maps[1..], key) ensures SetAs(maps, key) {
        var i :| 0 <= i < |maps[1..]| && key in maps[1..][i];
        assert key in maps[i + 1];
      }
      assert forall i :: 0 < i < |maps| ==> maps[i] == maps[1..][i - 1];
    }
  }

  /** A name ends up as both kinds exactly when some plan sets it as the one and some as the other. */
  lemma BothKinds(files: Files, plan: Plan, base: string, trees: seq<Tree>, name: string)
    ensures var all, maps := AllVars(files, plan, base, trees), OwnMaps(files, plan, base, trees);
            TextVar(name) in all && ListVar(name) in all <==> SetAs(maps, TextVar(name)) && SetAs(maps, ListVar(name))
  {
    VarsAreFirst(files, plan, base, trees, TextVar(name));
    VarsAreFirst(files, plan, base, trees, ListVar(name));
    FirstWithIsSetters(OwnMaps(files, plan, base, trees), TextVar(name));
    FirstWithIsSetters(OwnMaps(files, plan, base, trees), ListVar(name));
  }

  function PlanWith(name: string, vars: Vars, varsFiles: seq<string>, items: seq<Item>): Plan {
    Plan(name, vars, varsFiles, [], UNSET, items)
  }

  /** The other kind does come through: a plan sets `x` as a text and includes one that sets it
      as a list. It resolves, and a `loop` over `x` runs over the included plan's list. */
  lemma IncludedListOverText()
    ensures var inner := PlanWith("b", map[ListVar("x") := "rows"], [], []);
            var outer := PlanWith("a", map[TextVar("x") := "text"], [], [Include("b", [])]);
            var files := Files(map["b" := inner], map[], map[]);
            var trees := [Branch(inner, "", [], [])];
            var all := AllVars(files, outer, "", trees);
            && Resolves(files, outer, "", trees)
            && FirstSetter(OwnMaps(files, outer, "", trees), "x") == Some(outer.vars)
            && LoopReads(outer.vars, "x") == Some((TextVar("x"), "text"))
            && LoopReads(all, "x") == Some((ListVar("x"), "rows")) && TextReads(all, "x") == Some("text")
  {
    var inner := PlanWith("b", map[ListVar("x") := "rows"], [], []);
    var outer := PlanWith("a", map[TextVar("x") := "text"], [], [Include("b", [])]);
    var files := Files(map["b" := inner], map[], map[]);
    var tree := Branch(inner, "", [], []);
    var trees := [tree];
    OneBranch(files, outer, tree, "b");
    assert OwnVars(files, inner, "") == inner.vars && OwnVars(files, outer, "") == outer.vars;
    assert OwnMaps(files, outer, "", trees) == [outer.vars, inner.vars];
    FirstWins(outer.vars, [inner.vars], TextVar("x"));
    FirstWins(outer.vars, [inner.vars], ListVar("x"));
    assert [outer.vars] + [inner.vars] == [outer.vars, inner.vars];
    assert [outer.vars, inner.vars][1..] == [inner.vars];
  }

  /** A plan of the one include of a plan without items. */
  lemma OneBranch(files: Files, plan: Plan, tree: Tree, path: string)
    requires tree.Branch? && tree.dir == "" && tree.kids == [] && tree.tags == [] && plan.items == [Include(path, [])]
    requires path in files.plans && files.plans[path] == tree.plan && Join("", path) == path && ChildBase("", path) == ""
    requires tree.plan.items == [] && tree.plan.prompts == [] && tree.plan.varsFiles == []
    requires plan.prompts == [] && plan.varsFiles == [] && plan.name != tree.plan.name
    ensures Resolves(files, plan, "", [tree])
    ensures Owns(files, [tree]) == [OwnVars(files, tree.plan, "")]
  {
    assert Inlines(files, "", [], []);
    assert InlinesItem(files, "", plan.items[0], tree);
    assert [tree][..0] == [];
    assert Names([tree]) == [tree.plan.name];
    assert FlattenedAt(files, tree, []) == [];
    assert Flattened(files, [tree], []) == Flattened(files, [], []) + FlattenedAt(files, tree, []);
    assert Owns(files, [tree]) == OwnsAt(files, tree);
  }

  ghost predicate Mentions(entries: seq<(VarKey, string)>, key: VarKey) {
    exists e :: e in entries && e.0 == key
  }

  /** Inline against vars file, by name: a name set inline is read as inline, exactly when it is
      set inline as the kind that is read, or no vars file sets it as that. */
  lemma InlineNameOverFile(vars: Vars, entries: seq<(VarKey, string)>, name: string)
    requires OkEntries(entries) && IsVar(vars, name)
    ensures var all := WithEntries(vars, entries);
            && (LoopReads(all, name) == LoopReads(vars, name) <==> ListVar(name) in vars || !Mentions(entries, ListVar(name)))
            && (TextReads(all, name) == TextReads(vars, name) <==> TextVar(name) in vars || !Mentions(entries, TextVar(name)))
  {
    var all := WithEntries(vars, entries);
    forall key: VarKey | key.name == name
      ensures key in vars ==> Get(all, key) == Some(vars[key])
      ensures key in all <==> key in vars || Mentions(entries, key)
    {
      InlineOverFile(vars, entries, key);
    }
    ReadsAlike(all, vars, name);
  }

  /** A list from a vars file comes through beside an inline text. */
  lemma FileListOverInlineText()
    ensures var inline := map[TextVar("x") := "text"];
            var all := WithEntries(inline, [(ListVar("x"), "rows")]);
            && OkEntries([(ListVar("x"), "rows")])
            && LoopReads(inline, "x") == Some((TextVar("x"), "text"))
            && LoopReads(all, "x") == Some((ListVar("x"), "rows"))
  {
    assert [(ListVar("x"), "rows")][..0] == [];
  }

  // ---- A plan included twice ----

  /** Two includes of one plan that includes nothing unfold, and are refused as circular. */
  lemma TwiceIsRefused()
    ensures var inner := PlanWith("b", map[], [], []);
            var outer := PlanWith("a", map[], [], [Include("b", []), Include("b", [])]);
            var files := Files(map["b" := inner], map[], map[]);
            var tree := Branch(inner, "", [], []);
            && Inlines(files, "", outer.items, [tree, tree])
            && inner.items == [] && inner.name != outer.name
            && !AllNew(Names([tree, tree]), {outer.name})
            && forall trees :: !Resolves(files, outer, "", trees)
  {
    var inner := PlanWith("b", map[], [], []);
    var outer := PlanWith("a", map[], [], [Include("b", []), Include("b", [])]);
    var files := Files(map["b" := inner], map[], map[]);
    var tree := Branch(inner, "", [], []);
    assert Inlines(files, "", [], []);
    assert Join("", "b") == "b" && InlinesItem(files, "", Include("b", []), tree);
    assert [tree, tree][..1] == [tree] && [tree][..0] == [];
    assert Names([tree]) == ["b"];
    assert Names([tree, tree]) == ["b", "b"];
    assert ["b", "b"][0] == ["b", "b"][1];
    OnlyOneResolves(files, outer, "", [tree, tree]);
  }
}
