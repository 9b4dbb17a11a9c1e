/**
 Whether a task's `when=` lets it render, decided before any run: the guard is evaluated against
 what is known of its variables, as a preview is.
 */
module Guards {
  import opened Wrappers
  import opened Condition
  import opened ReservedNames
  import opened TemplateCheck
  import NodeRunner
  import Render
  import TemplateParser

  /** What is known of a name before a run: whether it is defined, whether it is a list, and
      whether some host or task may define a value of that name. */
  datatype Sources = Sources(
    present: string -> Option<bool>, list: string -> Option<ItemList>, scalar: string -> bool)

  /** The `${@item…}` a guard sees for one item of a loop. */
  datatype Bound = ItemFields(fields: map<string, string>) | ItemText(text: string)

  const NOTHING := Scope(map[], map[], {})

  function AddUnknown(scope: Scope, name: string): Scope {
    scope.(unknown := scope.unknown + {name})
  }

  function AddPlaceholder(scope: Scope, name: string): Scope {
    AddUnknown(scope, name).(vars := scope.vars[name := ""])
  }

  /** The scope with what is known of `name` added. */
  function AddName(scope: Scope, name: string, from: Sources): Scope {
    match from.list(name)
    case Some(Unresolved) => AddUnknown(scope, name)
    case Some(_) =>
      var listed := scope.(collections := scope.collections[name := []]);
      if from.scalar(name) then AddPlaceholder(listed, name) else listed
    case None =>
      match from.present(name)
      case Some(false) => scope
      case Some(true) => AddPlaceholder(scope, name)
      case None => AddUnknown(scope, name)
  }

  function GuardScope(names: seq<string>, from: Sources): Scope {
    if names == [] then NOTHING
    else AddName(GuardScope(names[..|names| - 1], from), names[|names| - 1], from)
  }

  method NewGuardScope(names: seq<string>, from: Sources) returns (scope: Scope)
    ensures scope == GuardScope(names, from)
  {
    scope := NOTHING;
    for i := 0 to |names|
      invariant scope == GuardScope(names[..i], from)
    {
      assert names[..i + 1][..i] == names[..i];
      scope := AddName(scope, names[i], from);
    }
    assert names[..|names|] == names;
  }

  function BoundNames(item: Bound): set<string> {
    match item
    case ItemFields(fields) => set field | field in fields :: ITEM_FIELD + field
    case ItemText(_) => {ITEM}
  }

  function BoundValue(item: Bound, name: string): string
    requires name in BoundNames(item)
  {
    match item
    case ItemFields(fields) =>
      assert exists field :: field in fields && name == ITEM_FIELD + field;
      assert forall field: string :: (ITEM_FIELD + field)[|ITEM_FIELD|..] == field;
      fields[name[|ITEM_FIELD|..]]
    case ItemText(text) => text
  }

  /** The guard's scope with the loop's item bound; a value still encrypted stays unknown. */
  function WithItem(scope: Scope, item: Bound, encrypted: string -> bool): Scope {
    var names := BoundNames(item);
    var secret := set name | name in names && encrypted(BoundValue(item, name));
    Scope(
      (map name | name in scope.vars && !IsItemVar(name) :: scope.vars[name])
      + (map name | name in names :: if name in secret then "" else BoundValue(item, name)),
      scope.collections,
      (set name | name in scope.unknown && !IsItemVar(name)) + secret)
  }

  function ReachOf(answer: Evaluated): Reach {
    match answer
    case Ok(False) => Never
    case Ok(Undetermined(_)) => Maybe
    case _ => Sure
  }

  /** Whether `when` lets the task run, for `item` of the step's loop. */
  function GuardReach(scope: Scope, when: Option<Groups>, item: Option<Bound>, encrypted: string -> bool): Reach {
    match when
    case None => Sure
    case Some(groups) =>
      ReachOf(Eval(groups, if item.Some? then WithItem(scope, item.value, encrypted) else scope))
  }

  function And(a: Reach, b: Reach): Reach {
    if a == Never || b == Never then Never
    else if a == Maybe || b == Maybe then Maybe
    else Sure
  }

  // ---- The runs it is about ----

  /** What the sources say of `name` holds in `run`. */
  ghost predicate Describes(from: Sources, run: Scope, name: string) {
    match from.list(name)
    case Some(Unresolved) => true
    case Some(_) => name in run.collections && (!from.scalar(name) ==> name !in run.vars)
    case None =>
      && name !in run.collections
      && (from.present(name) == Some(true) ==> name in run.vars)
      && (from.present(name) == Some(false) ==> name !in run.vars)
  }

  /** `run` is at `item` of the loop: exactly the item's names are bound. */
  ghost predicate RunsAt(run: Scope, item: Bound, encrypted: string -> bool) {
    && (forall name :: IsItemVar(name) ==> (name in run.vars <==> name in BoundNames(item)) && name !in run.collections)
    && forall name :: name in BoundNames(item) && !encrypted(BoundValue(item, name)) ==>
         name in run.vars && run.vars[name] == BoundValue(item, name)
  }

  /** `run` is one of the runs a guard is decided for. */
  ghost predicate Possible(from: Sources, names: seq<string>, run: Scope, item: Option<Bound>, encrypted: string -> bool) {
    && run.unknown == {}
    && (forall name :: name in names && (item.Some? ==> !IsItemVar(name)) ==> Describes(from, run, name))
    && (item.Some? ==> RunsAt(run, item.value, encrypted)
                       && forall name :: IsItemVar(name) ==> from.list(name).None?)
  }

  lemma {:induction false} GuardAgrees(names: seq<string>, from: Sources, run: Scope, name: string)
    requires name in names && Describes(from, run, name)
    ensures Agrees(GuardScope(names, from), run, name)
  {
    var last := names[|names| - 1];
    var before := names[..|names| - 1];
    if name == last {
      GuardKnowsOnly(before, from, name);
    } else {
      assert name in before;
      GuardAgrees(before, from, run, name);
    }
  }

  /** A name's entries in the guard scope are what its own sources say, or nothing. */
  lemma {:induction false} GuardKnowsOnly(names: seq<string>, from: Sources, name: string)
    ensures var scope, alone := GuardScope(names, from), AddName(NOTHING, name, from);
            && (name in scope.vars ==> name in alone.vars) && (name in scope.unknown ==> name in alone.unknown)
            && (name in scope.collections ==> name in alone.collections)
  {
    if names != [] {
      GuardKnowsOnly(names[..|names| - 1], from, name);
    }
  }

  ghost predicate Covers(names: seq<string>, groups: Groups) {
    forall name :: RefersTo(groups, name) ==> name in names
  }

  lemma GuardIsConsistent(
    names: seq<string>, from: Sources, groups: Groups, run: Scope, item: Option<Bound>, encrypted: string -> bool)
    requires Covers(names, groups) && Possible(from, names, run, item, encrypted)
    ensures var scope := GuardScope(names, from);
            Consistent(groups, if item.Some? then WithItem(scope, item.value, encrypted) else scope, run)
  {
    var scope := GuardScope(names, from);
    var seen := if item.Some? then WithItem(scope, item.value, encrypted) else scope;
    forall name | RefersTo(groups, name) ensures Agrees(seen, run, name) {
      if item.Some? && IsItemVar(name) {
        GuardKnowsOnly(names, from, name);
      } else {
        GuardAgrees(names, from, run, name);
      }
    }
  }

  /** What a guard's answer means for every run it could be decided for: a task that never
      reaches its template is skipped there or fails on its guard, and one that surely does is
      not skipped. */
  lemma GuardIsSound(
    names: seq<string>, from: Sources, when: Option<Groups>, run: Scope, item: Option<Bound>, encrypted: string -> bool)
    requires when.Some? ==> Covers(names, when.value)
    requires Possible(from, names, run, item, encrypted)
    ensures var reach := GuardReach(GuardScope(names, from), when, item, encrypted);
            && (reach == Never ==> when.Some? && Eval(when.value, run) != Ok(True))
            && (reach == Sure && when.Some? ==> Eval(when.value, run) != Ok(False))
  {
    if when.Some? {
      GuardIsConsistent(names, from, when.value, run, item, encrypted);
      var scope := GuardScope(names, from);
      PreviewIsSound(when.value, if item.Some? then WithItem(scope, item.value, encrypted) else scope, run);
    }
  }

  // ---- A loop's items ----

  function ItemReach(gate: Reach, scope: Scope, when: Option<Groups>, encrypted: string -> bool, item: map<string, string>): Reach {
    And(gate, GuardReach(scope, when, Some(ItemFields(item)), encrypted))
  }

  /** The items with a given reach, in order. */
  function WithReach(items: seq<map<string, string>>, want: Reach, gate: Reach, scope: Scope,
                     when: Option<Groups>, encrypted: string -> bool): seq<map<string, string>> {
    if items == [] then []
    else
      var before := WithReach(items[..|items| - 1], want, gate, scope, when, encrypted);
      var last := items[|items| - 1];
      if ItemReach(gate, scope, when, encrypted, last) == want then before + [last] else before
  }

  function LoopReach(runs: seq<map<string, string>>, maybe: seq<map<string, string>>): Reach {
    if runs != [] then Sure else if maybe != [] then Maybe else Never
  }

  lemma WithReachNext(items: seq<map<string, string>>, i: nat, want: Reach, gate: Reach, scope: Scope,
                      when: Option<Groups>, encrypted: string -> bool)
    requires i < |items|
    ensures WithReach(items[..i + 1], want, gate, scope, when, encrypted)
            == WithReach(items[..i], want, gate, scope, when, encrypted)
               + if ItemReach(gate, scope, when, encrypted, items[i]) == want then [items[i]] else []
  {
    assert items[..i + 1][..i] == items[..i];
  }

  method NewLooped(name: string, items: ItemList, gate: Reach, when: Option<Groups>, scope: Scope,
                   encrypted: string -> bool) returns (looped: Looped)
    ensures items.Items? ==>
              var runs := WithReach(items.items, Sure, gate, scope, when, encrypted);
              var maybe := WithReach(items.items, Maybe, gate, scope, when, encrypted);
              looped == Looped(name, Items(runs), maybe, LoopReach(runs, maybe))
    ensures !items.Items? ==>
              looped == Looped(name, Unknown, [], And(gate, GuardReach(scope, when, None, encrypted)))
  {
    if !items.Items? {
      return Looped(name, Unknown, [], And(gate, GuardReach(scope, when, None, encrypted)));
    }
    var runs, maybe := [], [];
    for i := 0 to |items.items|
      invariant runs == WithReach(items.items[..i], Sure, gate, scope, when, encrypted)
      invariant maybe == WithReach(items.items[..i], Maybe, gate, scope, when, encrypted)
    {
      var item := items.items[i];
      WithReachNext(items.items, i, Sure, gate, scope, when, encrypted);
      WithReachNext(items.items, i, Maybe, gate, scope, when, encrypted);
      match ItemReach(gate, scope, when, encrypted, item)
      case Sure => runs := runs + [item];
      case Maybe => maybe := maybe + [item];
      case Never =>
    }
    assert items.items[..|items.items|] == items.items;
    looped := Looped(name, Items(runs), maybe, LoopReach(runs, maybe));
  }

  lemma {:induction false} WithReachHolds(
    items: seq<map<string, string>>, want: Reach, gate: Reach, scope: Scope, when: Option<Groups>,
    encrypted: string -> bool, item: map<string, string>)
    ensures item in WithReach(items, want, gate, scope, when, encrypted) <==>
            item in items && ItemReach(gate, scope, when, encrypted, item) == want
  {
    if items != [] {
      assert items == items[..|items| - 1] + [items[|items| - 1]];
      WithReachHolds(items[..|items| - 1], want, gate, scope, when, encrypted, item);
    }
  }

  /** The template is checked against every item some run renders it for: an item the check
      leaves out is skipped in every run, or fails there on its guard. */
  lemma SkippedItemsNeverRender(
    names: seq<string>, from: Sources, when: Option<Groups>, encrypted: string -> bool,
    items: seq<map<string, string>>, looped: Looped, gate: Reach, run: Scope, item: map<string, string>)
    requires var scope := GuardScope(names, from);
             && looped.runs == Items(WithReach(items, Sure, gate, scope, when, encrypted))
             && looped.maybe == WithReach(items, Maybe, gate, scope, when, encrypted)
    requires gate != Never
    requires when.Some? ==> Covers(names, when.value)
    requires item in items && Possible(from, names, run, Some(ItemFields(item)), encrypted)
    requires when.None? || Eval(when.value, run) == Ok(True)
    ensures item in AllItems(looped).items
  {
    var scope := GuardScope(names, from);
    GuardIsSound(names, from, when, run, Some(ItemFields(item)), encrypted);
    WithReachHolds(items, Sure, gate, scope, when, encrypted, item);
    WithReachHolds(items, Maybe, gate, scope, when, encrypted, item);
  }

  // ---- What is rendered for an item ----

  /** What the check knows of a loop agrees with the loop's item at hand. */
  ghost predicate KnowsItem(k: Knowledge, item: NodeRunner.LoopItem) {
    match item
    case Flat(_) => k.item == ItemValue
    case Structured(row) => k.item.Fields? && k.item.looped.runs.Items? && row in AllItems(k.item.looped).items
  }

  /** The accepted `@item` names are the variables the runner binds for the item. */
  lemma ItemNamesExist(k: Knowledge, item: NodeRunner.LoopItem, name: string)
    requires KnowsItem(k, item) && IsItemVar(name) && Accepted(k, name)
    ensures name in NodeRunner.ItemVars(item)
  {
    if item.Structured? {
      ItemFieldsExist(k, item.row, name);
      var field := name[|ITEM_FIELD|..];
      assert name == ITEM_FIELD + field;
    }
  }

  /** The names the template reads outside its loops and besides `@item`. */
  ghost predicate OtherNamesExist(k: Knowledge, names: set<string>, vars: map<string, string>, data: Render.TemplateData) {
    forall name :: name in names && !IsItemVar(name) && Accepted(k, name) ==> name in data.extraVars || name in vars
  }

  /** In a looped step: a template the check finds nothing in renders at an item, with the item's
      variables bound as the runner binds them. */
  lemma CheckedItemRenders(k: Knowledge, t: string, item: NodeRunner.LoopItem, vars: map<string, string>, data: Render.TemplateData)
    requires k.reach != Never && Checked(k, t) == NO_FINDINGS && KnowsItem(k, item)
    ensures TemplateParser.Parse(t).Ok?
    ensures var nodes := TemplateParser.Parse(t).value;
            var bound := vars + NodeRunner.ItemVars(item);
            OtherNamesExist(k, NamesIn(nodes), vars, data) && ListsMatch(k, ListsIn(nodes), data) ==>
              (Render.Rendered(t, bound, data).Ok? <==> NoStray(nodes) || EndForDefined(bound, data))
  {
    var bound := vars + NodeRunner.ItemVars(item);
    CheckerSound(k, t, bound, data);
    var nodes := TemplateParser.Parse(t).value;
    if OtherNamesExist(k, NamesIn(nodes), vars, data) {
      forall name | name in NamesIn(nodes) && Accepted(k, name) ensures name in data.extraVars || name in bound {
        if IsItemVar(name) {
          ItemNamesExist(k, item, name);
        }
      }
    }
  }

  /** From the guard to the text: of a loop over a list, whatever item some possible run lets
      through its guard, a template the check finds nothing in renders there. */
  lemma EveryRenderedItemRenders(
    names: seq<string>, from: Sources, when: Option<Groups>, encrypted: string -> bool,
    items: seq<map<string, string>>, gate: Reach, run: Scope, row: map<string, string>,
    k: Knowledge, t: string, vars: map<string, string>, data: Render.TemplateData)
    requires gate != Never && k.item.Fields? && k.reach == And(gate, k.item.looped.reach)
    requires k.item.looped.runs.Items? && k.item.looped.reach == LoopReach(k.item.looped.runs.items, k.item.looped.maybe)
    requires var scope := GuardScope(names, from);
             && k.item.looped.runs == Items(WithReach(items, Sure, gate, scope, when, encrypted))
             && k.item.looped.maybe == WithReach(items, Maybe, gate, scope, when, encrypted)
    requires when.Some? ==> Covers(names, when.value)
    requires row in items && Possible(from, names, run, Some(ItemFields(row)), encrypted)
    requires when.None? || Eval(when.value, run) == Ok(True)
    requires Checked(k, t) == NO_FINDINGS
    ensures TemplateParser.Parse(t).Ok?
    ensures var nodes := TemplateParser.Parse(t).value;
            var bound := vars + NodeRunner.ItemVars(NodeRunner.Structured(row));
            OtherNamesExist(k, NamesIn(nodes), vars, data) && ListsMatch(k, ListsIn(nodes), data) ==>
              (Render.Rendered(t, bound, data).Ok? <==> NoStray(nodes) || EndForDefined(bound, data))
  {
    SkippedItemsNeverRender(names, from, when, encrypted, items, k.item.looped, gate, run, row);
    CheckedItemRenders(k, t, NodeRunner.Structured(row), vars, data);
  }
}
